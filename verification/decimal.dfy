/** Decimal text of non-negative Java ints, as string concatenation renders
    them, and the "X/Y" shortfall text of a failed shuffle. */
module Decimal {

  predicate IsDigit(c: char) {
    '0' <= c <= '9'
  }

  predicate AllDigits(s: string) {
    forall i :: 0 <= i < |s| ==> IsDigit(s[i])
  }

  function DigitChar(d: nat): (c: char)
    requires d < 10
    ensures IsDigit(c)
  {
    "0123456789"[d]
  }

  function DigitValue(c: char): (d: nat)
    requires IsDigit(c)
    ensures d < 10
  {
    (c as int - '0' as int) as nat
  }

  /** Decimal rendering of `n`: digits only, no leading zero. */
  function NatToString(n: nat): (r: string)
    ensures |r| >= 1 && AllDigits(r)
    ensures |r| > 1 ==> r[0] != '0'
    decreases n
  {
    if n < 10 then [DigitChar(n)]
    else NatToString(n / 10) + [DigitChar(n % 10)]
  }

  /** Reads a string of decimal digits (reference inverse of NatToString). */
  function ParseNat(s: string): nat
    requires AllDigits(s)
    decreases |s|
  {
    if |s| == 0 then 0
    else ParseNat(s[..|s| - 1]) * 10 + DigitValue(s[|s| - 1])
  }

  lemma {:induction false} ParseNatToString(n: nat)
    ensures ParseNat(NatToString(n)) == n
    decreases n
  {
    var r := NatToString(n);
    if n < 10 {
      assert r[..0] == [];
    } else {
      ParseNatToString(n / 10);
      assert r[..|r| - 1] == NatToString(n / 10);
    }
  }

  /** `"X/Y"`: what was obtained over what was required. */
  function ShortfallText(obtained: nat, required: nat): (r: string)
    ensures ParseShortfall(r) == Fraction(obtained, required)
  {
    var x := NatToString(obtained);
    var y := NatToString(required);
    ShortfallRoundTrip(x, y, obtained, required);
    x + "/" + y
  }

  datatype Parsed = Fraction(obtained: nat, required: nat) | Malformed

  /** Position of the first `c` in `s`, or `|s|` when there is none. */
  function IndexOf(s: string, c: char): (i: nat)
    ensures i <= |s|
    ensures i < |s| ==> s[i] == c
    ensures forall k :: 0 <= k < i ==> s[k] != c
    decreases |s|
  {
    if |s| == 0 then 0
    else if s[0] == c then 0
    else 1 + IndexOf(s[1..], c)
  }

  /** Reads an `"X/Y"` text back into its two numbers. */
  function ParseShortfall(s: string): Parsed {
    var i := IndexOf(s, '/');
    if i == |s| then Malformed
    else
      var x := s[..i];
      var y := s[i + 1..];
      if |x| > 0 && |y| > 0 && AllDigits(x) && AllDigits(y)
      then Fraction(ParseNat(x), ParseNat(y))
      else Malformed
  }

  lemma ShortfallRoundTrip(x: string, y: string, obtained: nat, required: nat)
    requires x == NatToString(obtained) && y == NatToString(required)
    ensures ParseShortfall(x + "/" + y) == Fraction(obtained, required)
  {
    var s := x + "/" + y;
    assert forall k :: 0 <= k < |x| ==> s[k] == x[k] && s[k] != '/';
    assert s[|x|] == '/';
    assert IndexOf(s, '/') == |x|;
    assert s[..|x|] == x;
    assert s[|x| + 1..] == y;
    ParseNatToString(obtained);
    ParseNatToString(required);
  }
}
