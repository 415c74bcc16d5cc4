/** The WHERE clauses the list routes assemble: each condition compares a column with a
    numbered placeholder `$k`, and `params[k - 1]` is the value bound to `$k`. Only the
    meaning of the clauses is modelled, not their text. */
module Sql {
  import Seqs

  /** A bound parameter or a column value; `Null` is SQL NULL and `NaN` the JavaScript value
      `parseInt` gives for text without digits (which no column value equals). */
  datatype Value = Text(s: string) | Int(i: int) | Bool(b: bool) | Null | NaN

  /** `=`, `LIKE` and `ILIKE` (case-insensitive LIKE). */
  datatype Op = Equals | Like | ILike

  /** `column op $slot`. */
  datatype Comparison = Comparison(column: string, op: Op, slot: nat)

  /** One conjunct of the WHERE clause: its comparisons joined by OR. */
  datatype Condition = AnyOf(alternatives: seq<Comparison>)

  /** A row, seen as its column values. */
  type Row = map<string, Value>

  /** Placeholders are numbered consecutively: the k-th conjunct (from 0) uses only `$(k+1)`,
      so `$1..$n` are used in order and each has its parameter. */
  predicate Numbered(conds: seq<Condition>, params: seq<Value>)
  {
    && |conds| == |params|
    && forall k :: 0 <= k < |conds| ==>
         forall c :: c in conds[k].alternatives ==> c.slot == k + 1
  }

  /** LIKE against a pattern of the shape `%term%`: `term` must occur in the value. The
      characters of `term` are taken literally (a `%` or `_` inside it is not a wildcard).
      Any other pattern must equal the value. */
  predicate LikeMatch(v: string, pattern: string)
  {
    if 2 <= |pattern| && pattern[0] == '%' && pattern[|pattern| - 1] == '%'
    then Seqs.Contains(v, pattern[1..|pattern| - 1])
    else v == pattern
  }

  /** Value of one comparison on a row: NULL on either side, or a missing column, is false. */
  predicate CompareHolds(c: Comparison, params: seq<Value>, row: Row)
  {
    && 1 <= c.slot <= |params|
    && c.column in row
    && var v, p := row[c.column], params[c.slot - 1];
       match c.op
       case Equals => v != Null && p != Null && v == p
       case Like => v.Text? && p.Text? && LikeMatch(v.s, p.s)
       case ILike => v.Text? && p.Text? && LikeMatch(Seqs.Lower(v.s), Seqs.Lower(p.s))
  }

  /** The WHERE clause (`WHERE 1=1 AND ...`): every conjunct has a comparison that holds. */
  predicate Holds(conds: seq<Condition>, params: seq<Value>, row: Row)
  {
    forall k :: 0 <= k < |conds| ==>
      exists c :: c in conds[k].alternatives && CompareHolds(c, params, row)
  }

  /** The pattern `%term%` that the customer search binds. */
  function Wrapped(term: string): (p: string)
    ensures |p| == |term| + 2 && p[0] == '%' && p[|p| - 1] == '%' && p[1..|p| - 1] == term
  {
    "%" + term + "%"
  }

  /** Binding `%term%` makes LIKE a substring test, and ILIKE a substring test after folding
      both sides to lower case. */
  lemma WrappedMatches(v: string, term: string)
    ensures LikeMatch(v, Wrapped(term)) <==> Seqs.Contains(v, term)
    ensures LikeMatch(Seqs.Lower(v), Seqs.Lower(Wrapped(term)))
            <==> Seqs.Contains(Seqs.Lower(v), Seqs.Lower(term))
  {
    var p := Seqs.Lower(Wrapped(term));
    assert p[1..|p| - 1] == Seqs.Lower(term);
  }

  /** `column ILIKE $1` with `$1 = %term%` on a text column: a case-insensitive substring test. */
  lemma ILikeWrapped(column: string, v: string, term: string, row: Row)
    requires column in row && row[column] == Text(v)
    ensures CompareHolds(Comparison(column, ILike, 1), [Text(Wrapped(term))], row)
            <==> Seqs.Contains(Seqs.Lower(v), Seqs.Lower(term))
  {
    WrappedMatches(v, term);
  }

  /** `column LIKE $1` with `$1 = %term%` on a text column: a substring test. */
  lemma LikeWrapped(column: string, v: string, term: string, row: Row)
    requires column in row && row[column] == Text(v)
    ensures CompareHolds(Comparison(column, Like, 1), [Text(Wrapped(term))], row) <==> Seqs.Contains(v, term)
  {
    WrappedMatches(v, term);
  }

  /** A WHERE clause of one conjunct holds when one of its comparisons does. */
  lemma HoldsSingle(cond: Condition, params: seq<Value>, row: Row)
    ensures Holds([cond], params, row) <==> exists c :: c in cond.alternatives && CompareHolds(c, params, row)
  {
    var conds := [cond];
    assert conds[0] == cond;
    if Holds(conds, params, row) {
      assert exists c :: c in conds[0].alternatives && CompareHolds(c, params, row);
    }
    if exists c :: c in cond.alternatives && CompareHolds(c, params, row) {
      forall k | 0 <= k < |conds| ensures exists c :: c in conds[k].alternatives && CompareHolds(c, params, row) {
        assert conds[k] == cond;
      }
    }
  }
}
