/** Fixed-width digit strings in base 10 and base 16: what Go's `time`
    package writes for the fields of a date and what `uuid.UUID.String`
    writes for the bytes of an identifier, and the parsers that read them. */
module Digits {
  import opened Common

  function Pow(b: nat, n: nat): (r: nat)
    ensures b > 0 ==> r > 0
  {
    if n == 0 then 1 else Mul(b, Pow(b, n - 1))
  }

  /** The lower-case digit for d (`0`-`9`, `a`-`f`). */
  function DigitChar(d: nat): (c: char)
    requires d < 16
  {
    if d < 10 then ('0' as int + d) as char else ('a' as int + d - 10) as char
  }

  /** A hexadecimal digit in either case, as Go's `xvalues` table reads it. */
  function DigitValue(c: char): Option<nat> {
    if '0' <= c <= '9' then Some(c as int - '0' as int)
    else if 'a' <= c <= 'f' then Some(c as int - 'a' as int + 10)
    else if 'A' <= c <= 'F' then Some(c as int - 'A' as int + 10)
    else None
  }

  predicate IsDecimalDigit(c: char) {
    '0' <= c <= '9'
  }

  lemma DigitValueOfDigitChar(d: nat)
    requires d < 16
    ensures DigitValue(DigitChar(d)) == Some(d)
    ensures d < 10 <==> IsDecimalDigit(DigitChar(d))
  {
  }

  /** Euclidean division, kept behind a function so that the solver meets
      the non-linear facts only where a proof asks for them. */
  function Div(n: nat, b: nat): (q: nat)
    requires b > 0
  {
    n / b
  }

  function Mod(n: nat, b: nat): (r: nat)
    requires b > 0
    ensures r < b
  {
    n % b
  }

  function Mul(a: nat, b: nat): nat {
    a * b
  }

  lemma DivMod(n: nat, b: nat)
    requires b > 0
    ensures n == Mul(Div(n, b), b) + Mod(n, b)
  {
  }

  /** Every character of s is a digit below `base`. */
  predicate AllDigits(base: nat, s: string) {
    forall i :: 0 <= i < |s| ==> DigitValue(s[i]).Some? && DigitValue(s[i]).value < base
  }

  /** The `width` low-order digits of n in `base`, most significant first, zero-padded. */
  function Format(base: nat, n: nat, width: nat): (s: string)
    requires 2 <= base <= 16
    ensures |s| == width
    ensures AllDigits(base, s)
    decreases width
  {
    if width == 0 then ""
    else
      var d := Mod(n, base);
      DigitValueOfDigitChar(d);
      Format(base, Div(n, base), width - 1) + [DigitChar(d)]
  }

  /** The value of a string of digits below `base`; `None` if any character is not one. */
  function Parse(base: nat, s: string): (r: Option<nat>)
    requires 2 <= base <= 16
  {
    if s == [] then Some(0)
    else
      match (Parse(base, s[..|s| - 1]), DigitValue(s[|s| - 1]))
      case (Some(hi), Some(d)) => if d < base then Some(Mul(hi, base) + d) else None
      case _ => None
  }

  lemma MulCancel(q: nat, k: nat, b: nat)
    requires b > 0 && Mul(q, b) < Mul(b, k)
    ensures q < k
  {
  }

  lemma MulStep(hi: nat, p: nat, b: nat)
    requires hi < p
    ensures Mul(hi, b) + b <= Mul(b, p)
  {
    var k := p - hi;
    assert b * p == b * hi + b * k;
    assert b * k == b + b * (k - 1);
  }

  lemma DivBelow(n: nat, b: nat, k: nat)
    requires b > 0 && n < Mul(b, k)
    ensures Div(n, b) < k
  {
    DivMod(n, b);
    MulCancel(Div(n, b), k, b);
  }

  lemma {:induction false} ParseFormat(base: nat, n: nat, width: nat)
    requires 2 <= base <= 16
    requires n < Pow(base, width)
    ensures Parse(base, Format(base, n, width)) == Some(n)
    decreases width
  {
    if width > 0 {
      var q, d := Div(n, base), Mod(n, base);
      var init := Format(base, q, width - 1);
      var s := Format(base, n, width);
      assert s == init + [DigitChar(d)];
      assert s[..|s| - 1] == init;
      DivBelow(n, base, Pow(base, width - 1));
      ParseFormat(base, q, width - 1);
      DigitValueOfDigitChar(d);
      DivMod(n, base);
    }
  }

  /** Parsing never yields a value that needs more digits than it was given. */
  lemma {:induction false} ParseBound(base: nat, s: string)
    requires 2 <= base <= 16
    requires Parse(base, s).Some?
    ensures Parse(base, s).value < Pow(base, |s|)
  {
    if s != [] {
      var init := s[..|s| - 1];
      ParseBound(base, init);
      MulStep(Parse(base, init).value, Pow(base, |init|), base);
    }
  }

  /** A string that parses consists of digits below `base`. */
  lemma {:induction false} ParseAllDigits(base: nat, s: string)
    requires 2 <= base <= 16
    requires Parse(base, s).Some?
    ensures AllDigits(base, s)
  {
    if s != [] {
      var init := s[..|s| - 1];
      ParseAllDigits(base, init);
      assert forall i :: 0 <= i < |init| ==> s[i] == init[i];
    }
  }
}
