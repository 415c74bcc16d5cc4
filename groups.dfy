/** SQL GROUP BY over a sequence of rows: the rows of one key, the distinct keys, and the fact
    that summing per group and then over the groups gives the sum over all rows. */
module Groups {
  import opened Seqs

  /** The rows whose key is `k`, in their original order (`WHERE key = k`). */
  function Select<T(!new), K(==)>(s: seq<T>, key: T -> K, k: K): (r: seq<T>)
    ensures forall x :: x in r <==> x in s && key(x) == k
    ensures |r| <= |s|
  {
    if s == [] then []
    else (if key(s[0]) == k then [s[0]] else []) + Select(s[1..], key, k)
  }

  /** Selecting from a concatenation selects from each part, in order: a group lists its rows
      in the order they came. */
  lemma {:induction false} SelectAppend<T(!new), K>(s: seq<T>, t: seq<T>, key: T -> K, k: K)
    ensures Select(s + t, key, k) == Select(s, key, k) + Select(t, key, k)
  {
    if s == [] {
      assert s + t == t;
    } else {
      assert (s + t)[1..] == s[1..] + t;
      SelectAppend(s[1..], t, key, k);
    }
  }

  /** No row has key `k`: the group is empty. */
  lemma {:induction false} SelectNone<T(!new), K>(s: seq<T>, key: T -> K, k: K)
    requires forall x :: x in s ==> key(x) != k
    ensures Select(s, key, k) == []
  {
    if s != [] {
      assert s[0] in s;
      assert forall x :: x in s[1..] ==> x in s;
      SelectNone(s[1..], key, k);
    }
  }

  /** Every row has key `k`: the group is all of them, in order. */
  lemma {:induction false} SelectEvery<T(!new), K>(s: seq<T>, key: T -> K, k: K)
    requires forall x :: x in s ==> key(x) == k
    ensures Select(s, key, k) == s
  {
    if s != [] {
      assert s[0] in s;
      assert forall x :: x in s[1..] ==> x in s;
      SelectEvery(s[1..], key, k);
      assert s == [s[0]] + s[1..];
    }
  }

  /** The group has as many rows as the input exactly when every row has key `k`. */
  lemma {:induction false} SelectAll<T(!new), K>(s: seq<T>, key: T -> K, k: K)
    ensures |Select(s, key, k)| == |s| <==> forall x :: x in s ==> key(x) == k
  {
    if s != [] {
      SelectAll(s[1..], key, k);
      assert s == [s[0]] + s[1..];
      if key(s[0]) != k {
        assert s[0] in s;
      }
    }
  }

  /** The rows whose key is one of `ks`, in their original order. */
  function SelectAny<T, K(==)>(s: seq<T>, key: T -> K, ks: seq<K>): seq<T>
  {
    if s == [] then []
    else (if key(s[0]) in ks then [s[0]] else []) + SelectAny(s[1..], key, ks)
  }

  /** The per-group sums of `f`, added over the keys `ks`. */
  function GroupTotal<T(!new), K(==)>(s: seq<T>, key: T -> K, f: T -> int, ks: seq<K>): int
  {
    if ks == [] then 0 else SumBy(Select(s, key, ks[0]), f) + GroupTotal(s, key, f, ks[1..])
  }

  ghost predicate Distinct<K>(ks: seq<K>)
  {
    forall i, j :: 0 <= i < j < |ks| ==> ks[i] != ks[j]
  }

  /** The distinct keys that occur, each once. Without ORDER BY the database may return the
      groups in any order; this lists each key where it last occurs. */
  function Keys<T(!new), K(==,!new)>(s: seq<T>, key: T -> K): (r: seq<K>)
    ensures Distinct(r)
    ensures forall k :: k in r <==> exists x :: x in s && key(x) == k
  {
    if s == [] then []
    else
      var rest := Keys(s[1..], key);
      assert forall x :: x in s[1..] ==> x in s;
      assert forall x :: x in s ==> x == s[0] || x in s[1..];
      if key(s[0]) in rest then rest else [key(s[0])] + rest
  }

  lemma SumByCons<T>(x: T, s: seq<T>, f: T -> int)
    ensures SumBy([x] + s, f) == f(x) + SumBy(s, f)
  {
    assert ([x] + s)[1..] == s;
  }

  lemma {:induction false} SelectAnyNone<T, K>(s: seq<T>, key: T -> K)
    ensures SelectAny(s, key, []) == []
  {
    if s != [] {
      SelectAnyNone(s[1..], key);
    }
  }

  lemma SumByGuarded<T>(c: bool, x: T, s: seq<T>, f: T -> int)
    ensures SumBy((if c then [x] else []) + s, f) == (if c then f(x) else 0) + SumBy(s, f)
  {
    if c {
      SumByCons(x, s, f);
    } else {
      assert [] + s == s;
    }
  }

  /** A key not among `rest` splits off its own rows. */
  lemma {:induction false} SelectAnySplit<T(!new), K>(s: seq<T>, key: T -> K, f: T -> int, k: K, rest: seq<K>)
    requires k !in rest
    ensures SumBy(SelectAny(s, key, [k] + rest), f) == SumBy(Select(s, key, k), f) + SumBy(SelectAny(s, key, rest), f)
  {
    if s != [] {
      var x := s[0];
      SelectAnySplit(s[1..], key, f, k, rest);
      var all, mine, others := SelectAny(s[1..], key, [k] + rest), Select(s[1..], key, k), SelectAny(s[1..], key, rest);
      var inAll, isMine, inOthers := key(x) in [k] + rest, key(x) == k, key(x) in rest;
      assert inAll <==> isMine || inOthers;
      SumByGuarded(inAll, x, all, f);
      SumByGuarded(isMine, x, mine, f);
      SumByGuarded(inOthers, x, others, f);
    }
  }

  /** With distinct keys, the group sums add up to the sum over the rows of those keys. */
  lemma {:induction false} GroupTotalSelectAny<T(!new), K>(s: seq<T>, key: T -> K, f: T -> int, ks: seq<K>)
    requires Distinct(ks)
    ensures GroupTotal(s, key, f, ks) == SumBy(SelectAny(s, key, ks), f)
  {
    if ks == [] {
      SelectAnyNone(s, key);
    } else {
      var k, rest := ks[0], ks[1..];
      assert ks == [k] + rest;
      GroupTotalSelectAny(s, key, f, rest);
      SelectAnySplit(s, key, f, k, rest);
    }
  }

  lemma {:induction false} SelectAnyAll<T, K>(s: seq<T>, key: T -> K, ks: seq<K>)
    requires forall x :: x in s ==> key(x) in ks
    ensures SelectAny(s, key, ks) == s
  {
    if s != [] {
      assert s[0] in s;
      SelectAnyAll(s[1..], key, ks);
      assert s == [s[0]] + s[1..];
    }
  }

  /** Grouping by distinct keys that cover every row neither loses nor repeats a row: the
      group sums add up to the sum over all rows. */
  lemma GroupTotalCovers<T(!new), K>(s: seq<T>, key: T -> K, f: T -> int, ks: seq<K>)
    requires Distinct(ks)
    requires forall x :: x in s ==> key(x) in ks
    ensures GroupTotal(s, key, f, ks) == SumBy(s, f)
  {
    GroupTotalSelectAny(s, key, f, ks);
    SelectAnyAll(s, key, ks);
  }

  /** Counting is summing ones. */
  lemma {:induction false} SumByOnes<T>(s: seq<T>, f: T -> int)
    requires forall x :: x in s ==> f(x) == 1
    ensures SumBy(s, f) == |s|
  {
    if s != [] {
      assert s[0] in s;
      assert forall x :: x in s[1..] ==> x in s;
      SumByOnes(s[1..], f);
    }
  }
}
