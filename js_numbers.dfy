/** JavaScript's `parseInt` on a query-string value, and the decimal spelling of an integer
    that a client writes into a query string. */
module JsNumbers {
  import opened Common
  import opened Sql

  predicate IsDigit(c: char)
  {
    '0' <= c <= '9'
  }

  /** Length of the run of decimal digits that starts `s`. */
  function DigitRun(s: string): (n: nat)
    ensures n <= |s| && (forall i :: 0 <= i < n ==> IsDigit(s[i])) && (n < |s| ==> !IsDigit(s[n]))
  {
    if s == [] || !IsDigit(s[0]) then 0 else 1 + DigitRun(s[1..])
  }

  /** The number a string of decimal digits spells, most significant digit first. */
  function DigitsValue(d: string): nat
    requires forall i :: 0 <= i < |d| ==> IsDigit(d[i])
  {
    if d == [] then 0
    else
      assert IsDigit(d[|d| - 1]);
      DigitsValue(d[..|d| - 1]) * 10 + (d[|d| - 1] as int - '0' as int)
  }

  /** The value of the leading decimal digits of `body`, or `None` when it starts with none. */
  function LeadingDigits(body: string): Option<nat>
  {
    var n := DigitRun(body);
    if n == 0 then None else Some(DigitsValue(body[..n]))
  }

  /** `parseInt(s)`: an optional sign, then the leading decimal digits; anything after them is
      ignored, and no digits at all is NaN (`None`). */
  function ParseInt(s: string): Option<int>
  {
    var negative := |s| > 0 && s[0] == '-';
    var body := if |s| > 0 && (s[0] == '-' || s[0] == '+') then s[1..] else s;
    match LeadingDigits(body)
    case None => None
    case Some(v) =>
      var w: int := v;
      Some(if negative then -w else w)
  }

  /** The decimal spelling of a natural number, as `String(n)` writes it. */
  function ShowNat(n: nat): (d: string)
    ensures |d| >= 1 && forall i :: 0 <= i < |d| ==> IsDigit(d[i])
  {
    if n < 10 then [('0' as int + n) as char] else ShowNat(n / 10) + [('0' as int + n % 10) as char]
  }

  /** The decimal spelling of an integer. */
  function Show(n: int): string
  {
    if n < 0 then "-" + ShowNat(-n) else ShowNat(n)
  }

  lemma {:induction false} ShowNatValue(n: nat)
    ensures DigitsValue(ShowNat(n)) == n
  {
    var d := ShowNat(n);
    if n >= 10 {
      ShowNatValue(n / 10);
      assert d[..|d| - 1] == ShowNat(n / 10);
    }
  }

  lemma {:induction false} DigitRunAll(d: string, rest: string)
    requires forall i :: 0 <= i < |d| ==> IsDigit(d[i])
    requires rest == [] || !IsDigit(rest[0])
    ensures DigitRun(d + rest) == |d|
  {
    if d != [] {
      assert (d + rest)[1..] == d[1..] + rest;
      DigitRunAll(d[1..], rest);
    } else {
      assert d + rest == rest;
    }
  }

  /** The leading digits of a run of digits followed by a non-digit are that run. */
  lemma LeadingRun(d: string, rest: string)
    requires |d| >= 1 && forall i :: 0 <= i < |d| ==> IsDigit(d[i])
    requires rest == [] || !IsDigit(rest[0])
    ensures LeadingDigits(d + rest) == Some(DigitsValue(d))
  {
    DigitRunAll(d, rest);
    assert (d + rest)[..|d|] == d;
  }

  /** A run of digits parses to its value; what follows the run is ignored. */
  lemma ParseUnsigned(d: string, rest: string, s: string)
    requires |d| >= 1 && forall i :: 0 <= i < |d| ==> IsDigit(d[i])
    requires rest == [] || !IsDigit(rest[0])
    requires s == d + rest
    ensures ParseInt(s) == Some(DigitsValue(d))
  {
    LeadingRun(d, rest);
    assert s[0] == d[0];
  }

  /** A minus sign and a run of digits parse to the negated value. */
  lemma ParseNegative(d: string, rest: string, s: string)
    requires |d| >= 1 && forall i :: 0 <= i < |d| ==> IsDigit(d[i])
    requires rest == [] || !IsDigit(rest[0])
    requires |s| > 0 && s[0] == '-' && s[1..] == d + rest
    ensures ParseInt(s) == Some(-(DigitsValue(d) as int))
  {
    LeadingRun(d, rest);
    NegativeBody(s, DigitsValue(d));
  }

  lemma NegativeBody(s: string, v: nat)
    requires |s| > 0 && s[0] == '-' && LeadingDigits(s[1..]) == Some(v)
    ensures ParseInt(s) == Some(-(v as int))
  {
  }

  lemma DropSign(d: string, rest: string, s: string)
    requires s == ("-" + d) + rest
    ensures |s| > 0 && s[0] == '-' && s[1..] == d + rest
  {
    assert s[1..] == ("-" + d)[1..] + rest;
  }

  /** `parseInt(String(n) + rest) == n` when `rest` does not continue the digits: a category id
      written into the query string is read back as itself. */
  lemma ParseShow(n: int, rest: string)
    requires rest == [] || !IsDigit(rest[0])
    ensures ParseInt(Show(n) + rest) == Some(n)
  {
    if n < 0 {
      ParseShowNegative(n, rest);
    } else {
      var d := ShowNat(n);
      ShowNatValue(n);
      ParseUnsigned(d, rest, Show(n) + rest);
    }
  }

  lemma ParseShowNegative(n: int, rest: string)
    requires n < 0
    requires rest == [] || !IsDigit(rest[0])
    ensures ParseInt(Show(n) + rest) == Some(n)
  {
    var d, s := ShowNat(-n), Show(n) + rest;
    assert |s| > 0 && s[0] == '-' && s[1..] == d + rest by {
      assert Show(n) == "-" + d;
      DropSign(d, rest, s);
    }
    assert DigitsValue(d) == -n by {
      ShowNatValue(-n);
    }
    ParseNegative(d, rest, s);
  }

  /** The value bound for an integer placeholder: parseInt's result, NaN when there are no digits. */
  function IntParam(text: string): Value
  {
    match ParseInt(text)
    case Some(n) => Int(n)
    case None => NaN
  }
}
