/** Decimal text of integers: Python's `str(n)` and `int(text)` on the text `str` produces. */
module Decimal {
  import opened Wrappers

  predicate IsDigit(c: char) {
    '0' <= c <= '9'
  }

  function Digit(d: nat): (c: char)
    requires d < 10
    ensures IsDigit(c)
  {
    '0' + d as char
  }

  function OfNat(n: nat): (s: string)
    ensures |s| > 0 && forall i :: 0 <= i < |s| ==> IsDigit(s[i])
  {
    if n < 10 then [Digit(n)] else OfNat(n / 10) + [Digit(n % 10)]
  }

  function Of(n: int): (s: string)
    ensures |s| > 0 && (IsDigit(s[0]) || s[0] == '-')
    ensures forall i :: 0 <= i < |s| ==> IsDigit(s[i]) || s[i] == '-'
  {
    if n < 0 then "-" + OfNat(-n) else OfNat(n)
  }

  function ParseNat(s: string): Option<nat> {
    if s == "" || !IsDigit(s[|s| - 1]) then None
    else
      var d := (s[|s| - 1] - '0') as nat;
      if |s| == 1 then Some(d)
      else
        match ParseNat(s[..|s| - 1])
        case None => None
        case Some(n) => Some(10 * n + d)
  }

  function Parse(s: string): Option<int> {
    if s != "" && s[0] == '-' then
      match ParseNat(s[1..])
      case None => None
      case Some(n) => Some(-(n as int))
    else
      match ParseNat(s)
      case None => None
      case Some(n) => Some(n as int)
  }

  lemma {:induction false} ParseNatOfNat(n: nat)
    ensures ParseNat(OfNat(n)) == Some(n)
  {
    if n >= 10 {
      ParseNatOfNat(n / 10);
      var s := OfNat(n);
      assert s[..|s| - 1] == OfNat(n / 10);
    }
  }

  lemma ParseOf(n: int)
    ensures Parse(Of(n)) == Some(n)
  {
    if n < 0 {
      ParseNatOfNat(-n);
      assert Of(n)[1..] == OfNat(-n);
    } else {
      ParseNatOfNat(n);
    }
  }

  lemma OfIsInjective(m: int, n: int)
    requires Of(m) == Of(n)
    ensures m == n
  {
    ParseOf(m);
    ParseOf(n);
  }
}
