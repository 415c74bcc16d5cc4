/** Sequence helpers shared by the read-side queries: sums, an insertion sort driven by a
    comparison, code-point string order, ASCII case folding and substring search. */
module Seqs {

  /** Sum of a sequence of integers (SQL SUM over the rows, 0 for none as with COALESCE). */
  function Sum(s: seq<int>): int
  {
    if s == [] then 0 else s[0] + Sum(s[1..])
  }

  lemma {:induction false} SumAppend(a: seq<int>, b: seq<int>)
    ensures Sum(a + b) == Sum(a) + Sum(b)
  {
    if a == [] {
      assert a + b == b;
    } else {
      assert (a + b)[1..] == a[1..] + b;
      SumAppend(a[1..], b);
    }
  }

  // ---------------------------------------------------------------------------
  // Ordering

  /** `le` relates every pair one way or the other. */
  ghost predicate Total<T(!new)>(le: (T, T) -> bool)
  {
    forall a, b :: le(a, b) || le(b, a)
  }

  /** `le` is transitive. */
  ghost predicate Transitive<T(!new)>(le: (T, T) -> bool)
  {
    forall a, b, c :: le(a, b) && le(b, c) ==> le(a, c)
  }

  /** Every earlier element is `le` every later one (SQL ORDER BY with `le` as the key order). */
  ghost predicate SortedBy<T>(s: seq<T>, le: (T, T) -> bool)
  {
    forall i, j :: 0 <= i < j < |s| ==> le(s[i], s[j])
  }

  /** Inserts `x` before the first element it is `le` to. */
  function InsertBy<T(!new)>(x: T, s: seq<T>, le: (T, T) -> bool): (r: seq<T>)
    ensures multiset(r) == multiset(s) + multiset{x}
    ensures |r| == |s| + 1
    ensures forall y :: y in r <==> y in s || y == x
  {
    if s == [] then [x]
    else if le(x, s[0]) then [x] + s
    else
      assert s == [s[0]] + s[1..];
      [s[0]] + InsertBy(x, s[1..], le)
  }

  /** Insertion sort by `le`; a permutation of its input. */
  function SortBy<T(!new)>(s: seq<T>, le: (T, T) -> bool): (r: seq<T>)
    ensures multiset(r) == multiset(s)
    ensures |r| == |s|
    ensures forall x :: x in r <==> x in s
  {
    if s == [] then []
    else
      assert s == [s[0]] + s[1..];
      InsertBy(s[0], SortBy(s[1..], le), le)
  }

  lemma {:induction false} InsertBySorted<T(!new)>(x: T, s: seq<T>, le: (T, T) -> bool)
    requires Total(le) && Transitive(le)
    requires SortedBy(s, le)
    ensures SortedBy(InsertBy(x, s, le), le)
  {
    if s == [] {
    } else if le(x, s[0]) {
      var r := [x] + s;
      forall i, j | 0 <= i < j < |r| ensures le(r[i], r[j]) {
        if i == 0 && j > 1 {
          assert le(s[0], s[j - 1]);
        }
      }
    } else {
      var t := InsertBy(x, s[1..], le);
      InsertBySorted(x, s[1..], le);
      var r := [s[0]] + t;
      assert le(s[0], x);
      forall k | 0 <= k < |t| ensures le(s[0], t[k]) {
        assert t[k] in multiset(t);
        assert t[k] in multiset(s[1..]) + multiset{x};
        if t[k] != x {
          assert t[k] in multiset(s[1..]);
          var m :| 0 <= m < |s[1..]| && s[1..][m] == t[k];
          assert s[m + 1] == t[k];
        }
      }
      forall i, j | 0 <= i < j < |r| ensures le(r[i], r[j]) {
        if i == 0 {
          assert r[j] == t[j - 1];
        } else {
          assert r[i] == t[i - 1] && r[j] == t[j - 1];
        }
      }
    }
  }

  lemma {:induction false} SortBySorted<T(!new)>(s: seq<T>, le: (T, T) -> bool)
    requires Total(le) && Transitive(le)
    ensures SortedBy(SortBy(s, le), le)
  {
    if s != [] {
      SortBySorted(s[1..], le);
      InsertBySorted(s[0], SortBy(s[1..], le), le);
    }
  }

  /** Sum of `f` over the elements (SQL SUM of a per-row expression). */
  function SumBy<T>(s: seq<T>, f: T -> int): int
  {
    if s == [] then 0 else f(s[0]) + SumBy(s[1..], f)
  }

  lemma {:induction false} SumByInsert<T(!new)>(x: T, s: seq<T>, le: (T, T) -> bool, f: T -> int)
    ensures SumBy(InsertBy(x, s, le), f) == f(x) + SumBy(s, f)
  {
    if s == [] {
    } else if le(x, s[0]) {
      assert ([x] + s)[1..] == s;
    } else {
      var t := InsertBy(x, s[1..], le);
      SumByInsert(x, s[1..], le, f);
      assert ([s[0]] + t)[1..] == t;
    }
  }

  /** Sorting does not change a sum. */
  lemma {:induction false} SumBySort<T(!new)>(s: seq<T>, le: (T, T) -> bool, f: T -> int)
    ensures SumBy(SortBy(s, le), f) == SumBy(s, f)
  {
    if s != [] {
      SumBySort(s[1..], le, f);
      SumByInsert(s[0], SortBy(s[1..], le), le, f);
    }
  }

  function Min(a: nat, b: nat): nat
  {
    if a <= b then a else b
  }

  /** The first `k` elements, or all of them when there are fewer (SQL LIMIT k). */
  function Limit<T>(s: seq<T>, k: nat): (r: seq<T>)
    ensures |r| == Min(|s|, k)
    ensures |s| <= k ==> r == s
    ensures forall i :: 0 <= i < |r| ==> r[i] == s[i]
    ensures multiset(r) <= multiset(s)
  {
    if |s| <= k then s
    else
      assert s == s[..k] + s[k..];
      s[..k]
  }

  /** What LIMIT keeps of a sorted sequence is its best part: anything cut off comes after
      (is `le`-above) everything kept. */
  lemma LimitKeepsBest<T>(s: seq<T>, k: nat, le: (T, T) -> bool, x: T)
    requires SortedBy(s, le)
    requires x in s && x !in Limit(s, k)
    ensures forall i :: 0 <= i < |Limit(s, k)| ==> le(Limit(s, k)[i], x)
  {
    var j :| 0 <= j < |s| && s[j] == x;
  }

  /** `f` applied to every element: one output column per row. */
  function Map<T, U>(s: seq<T>, f: T -> U): (r: seq<U>)
    ensures |r| == |s| && forall i :: 0 <= i < |s| ==> r[i] == f(s[i])
  {
    seq(|s|, i requires 0 <= i < |s| => f(s[i]))
  }

  /** Reordering rows does not change how often each value occurs in a column. */
  lemma {:induction false} MapPermutation<T, U>(r: seq<T>, s: seq<T>, f: T -> U)
    requires multiset(r) == multiset(s)
    ensures multiset(Map(r, f)) == multiset(Map(s, f))
    decreases |s|
  {
    if s == [] {
      assert |r| == |multiset(r)| == 0;
    } else {
      var x := s[0];
      assert x in multiset(r);
      var k :| 0 <= k < |r| && r[k] == x;
      var a, b := r[..k], r[k + 1..];
      assert r == a + [x] + b;
      RemoveOne(r, s, a, b, x);
      MapPermutation(a + b, s[1..], f);
      MapAround(a, x, b, f);
      assert Map(s, f) == [f(x)] + Map(s[1..], f);
    }
  }

  lemma RemoveOne<T>(r: seq<T>, s: seq<T>, a: seq<T>, b: seq<T>, x: T)
    requires multiset(r) == multiset(s)
    requires r == a + [x] + b && s != [] && s[0] == x
    ensures multiset(a + b) == multiset(s[1..])
  {
    assert s == [x] + s[1..];
    assert multiset(r) == multiset(a) + multiset{x} + multiset(b);
    assert multiset(s) == multiset{x} + multiset(s[1..]);
    forall y ensures multiset(a + b)[y] == multiset(s[1..])[y] {
      assert multiset(r)[y] == multiset(a)[y] + multiset{x}[y] + multiset(b)[y];
    }
  }

  lemma MapAround<T, U>(a: seq<T>, x: T, b: seq<T>, f: T -> U)
    ensures multiset(Map(a + [x] + b, f)) == multiset(Map(a + b, f)) + multiset{f(x)}
  {
    assert Map(a + [x] + b, f) == Map(a, f) + [f(x)] + Map(b, f);
    assert Map(a + b, f) == Map(a, f) + Map(b, f);
  }

  // ---------------------------------------------------------------------------
  // Strings

  /** Lexicographic order on code points (the "C" collation). */
  predicate StrLe(a: string, b: string)
    decreases |a|
  {
    if a == [] then true
    else if b == [] then false
    else if a[0] != b[0] then a[0] < b[0]
    else StrLe(a[1..], b[1..])
  }

  lemma {:induction false} StrLeTotal(a: string, b: string)
    ensures StrLe(a, b) || StrLe(b, a)
    decreases |a|
  {
    if a != [] && b != [] && a[0] == b[0] {
      StrLeTotal(a[1..], b[1..]);
    }
  }

  lemma {:induction false} StrLeTrans(a: string, b: string, c: string)
    requires StrLe(a, b) && StrLe(b, c)
    ensures StrLe(a, c)
    decreases |a|
  {
    if a != [] && b != [] && c != [] && a[0] == b[0] && b[0] == c[0] {
      StrLeTrans(a[1..], b[1..], c[1..]);
    }
  }

  lemma {:induction false} StrLeAntisymmetric(a: string, b: string)
    requires StrLe(a, b) && StrLe(b, a)
    ensures a == b
    decreases |a|
  {
    if a != [] {
      StrLeAntisymmetric(a[1..], b[1..]);
      assert a == [a[0]] + a[1..] && b == [b[0]] + b[1..];
    }
  }

  /** ASCII upper-case letters folded to lower case; every other character kept. */
  function LowerChar(c: char): (d: char)
    ensures 'A' <= c <= 'Z' ==> 'a' <= d <= 'z' && d as int - c as int == 32
    ensures !('A' <= c <= 'Z') ==> d == c
  {
    if 'A' <= c <= 'Z' then (c as int + 32) as char else c
  }

  function Lower(s: string): (r: string)
    ensures |r| == |s| && forall i :: 0 <= i < |s| ==> r[i] == LowerChar(s[i])
  {
    seq(|s|, i requires 0 <= i < |s| => LowerChar(s[i]))
  }

  /** `t` occurs in `s` as a contiguous piece: a prefix of `s` or of one of its suffixes. */
  predicate Contains(s: string, t: string)
    decreases |s|
  {
    (|t| <= |s| && s[..|t|] == t) || (s != [] && Contains(s[1..], t))
  }

  /** Contains agrees with "`t` sits at some offset `i` of `s`", in both directions. */
  lemma {:induction false} ContainsAt(s: string, t: string)
    ensures Contains(s, t) <==> exists i {:trigger s[i..]} :: 0 <= i <= |s| - |t| && s[i..][..|t|] == t
    decreases |s|
  {
    if s != [] {
      ContainsAt(s[1..], t);
      assert s[0..] == s;
      if Contains(s[1..], t) {
        var i :| 0 <= i <= |s[1..]| - |t| && s[1..][i..][..|t|] == t;
        assert s[i + 1..] == s[1..][i..];
      }
      if exists i {:trigger s[i..]} :: 0 <= i <= |s| - |t| && s[i..][..|t|] == t {
        var i :| 0 <= i <= |s| - |t| && s[i..][..|t|] == t;
        if i > 0 {
          assert s[1..][i - 1..] == s[i..];
        }
      }
    }
    assert s[0..] == s;
  }
}
