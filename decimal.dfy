/**
 * Python's zero-padded integer formatting, `f"{n:0Wd}"`, as used by the
 * batch builder for every numeric field, and the decimal reading of such a
 * field, which is its inverse.
 *
 * The width W is a MINIMUM: a number with more digits than W is written in
 * full, and a negative number is written as "-" followed by zeros and digits
 * so that the whole string is W characters long.
 */
module Decimal {
  import opened Wrappers

  function Pow10(k: nat): (p: nat)
    ensures p >= 1
  {
    if k == 0 then 1 else 10 * Pow10(k - 1)
  }

  function Max(a: int, b: int): int { if a < b then b else a }

  function Min(a: int, b: int): int { if a < b then a else b }

  predicate IsDigit(c: char) { '0' <= c <= '9' }

  predicate AllDigits(s: string) { forall i :: 0 <= i < |s| ==> IsDigit(s[i]) }

  function DigitValue(c: char): (d: nat)
    requires IsDigit(c)
    ensures d < 10
  {
    (c as int) - ('0' as int)
  }

  function DigitChar(d: nat): (c: char)
    requires d < 10
    ensures IsDigit(c) && DigitValue(c) == d
  {
    (('0' as int) + d) as char
  }

  /** The number a string of decimal digits denotes, most significant digit first. */
  function Value(s: string): nat
    requires AllDigits(s)
  {
    if s == [] then 0 else 10 * Value(s[..|s| - 1]) + DigitValue(s[|s| - 1])
  }

  /** Python's `str(n)` for n >= 0: the shortest decimal representation. */
  function Digits(n: nat): (s: string)
    ensures |s| >= 1 && AllDigits(s)
  {
    if n < 10 then [DigitChar(n)] else Digits(n / 10) + [DigitChar(n % 10)]
  }

  function Zeros(k: nat): string
  {
    seq(k, _ => '0')
  }

  /** Left fill with '0' up to width w; never cuts a longer string. */
  function ZeroPad(s: string, w: nat): string
  {
    (if |s| < w then Zeros(w - |s|) else []) + s
  }

  /** `f"{n:0{w}d}"`: sign, then zeros up to width w, then the digits of |n|. */
  function PadInt(n: int, w: nat): string
  {
    if n >= 0 then ZeroPad(Digits(n), w)
    else "-" + ZeroPad(Digits(-n), if w > 0 then w - 1 else 0)
  }

  /** The integer a decimal field denotes: optional '-' then at least one digit. */
  function ParseInt(s: string): Option<int>
  {
    if |s| >= 2 && s[0] == '-' && AllDigits(s[1..]) then Some(-(Value(s[1..]) as int))
    else if |s| >= 1 && AllDigits(s) then Some(Value(s))
    else None
  }

  /** `str(n)` reads back as n. */
  lemma {:induction false} DigitsValue(n: nat)
    ensures Value(Digits(n)) == n
  {
    if n >= 10 {
      DigitsValue(n / 10);
      var s := Digits(n);
      assert s[..|s| - 1] == Digits(n / 10);
    }
  }

  /** `str(n)` has no leading zero, except for n == 0 itself. */
  lemma {:induction false} DigitsNoLeadingZero(n: nat)
    ensures n > 0 ==> Digits(n)[0] != '0'
  {
    if n >= 10 {
      DigitsNoLeadingZero(n / 10);
    }
  }

  /** `str(n)` fits in w characters exactly when n < 10^w. */
  lemma {:induction false} DigitsFit(n: nat, w: nat)
    requires w >= 1
    ensures |Digits(n)| <= w <==> n < Pow10(w)
  {
    if n >= 10 {
      if w == 1 {
        assert Pow10(1) == 10;
      } else {
        DigitsFit(n / 10, w - 1);
        assert n / 10 < Pow10(w - 1) <==> n < 10 * Pow10(w - 1);
      }
    } else {
      PowAtLeastTen(w);
    }
  }

  lemma {:induction false} PowAtLeastTen(w: nat)
    requires w >= 1
    ensures Pow10(w) >= 10
  {
    if w > 1 {
      PowAtLeastTen(w - 1);
    }
  }

  /** Leading zeros do not change the value of a digit string. */
  lemma {:induction false} ZerosValue(k: nat, s: string)
    requires AllDigits(s)
    ensures AllDigits(Zeros(k) + s) && Value(Zeros(k) + s) == Value(s)
  {
    var t := Zeros(k) + s;
    if s == [] {
      assert t == Zeros(k);
      if k > 0 {
        assert t[..|t| - 1] == Zeros(k - 1) + [];
        ZerosValue(k - 1, []);
      }
    } else {
      assert t[..|t| - 1] == Zeros(k) + s[..|s| - 1];
      ZerosValue(k, s[..|s| - 1]);
    }
  }

  /** Zero filling keeps a digit string a digit string of the same value. */
  lemma ZeroPadValue(s: string, k: nat)
    requires AllDigits(s)
    ensures AllDigits(ZeroPad(s, k)) && Value(ZeroPad(s, k)) == Value(s)
  {
    var z := if |s| < k then k - |s| else 0;
    assert ZeroPad(s, k) == Zeros(z) + s;
    ZerosValue(z, s);
  }

  /**
   * `f"{n:0{w}d}"` has at least w characters and ends with all the digits of
   * |n|, never cut; it is exactly w long when it needs no more, and starts
   * with '-' when n is negative.
   */
  lemma PadIntShape(n: int, w: nat)
    ensures var r := PadInt(n, w);
            var d := Digits(if n >= 0 then n else -n);
            && |r| == Max(w, (if n >= 0 then 0 else 1) + |d|)
            && r[|r| - |d|..] == d
            && (n < 0 ==> r[0] == '-')
  {
  }

  /** Everything between the sign and the digits of |n| is a '0'. */
  lemma PadIntZeroFill(n: int, w: nat)
    ensures var r := PadInt(n, w);
            var d := Digits(if n >= 0 then n else -n);
            forall i :: (if n >= 0 then 0 else 1) <= i < |r| - |d| ==> r[i] == '0'
  {
  }

  /** A non-empty digit string reads as its value. */
  lemma ParseDigits(s: string)
    requires |s| >= 1 && AllDigits(s)
    ensures ParseInt(s) == Some(Value(s))
  {
    assert IsDigit(s[0]);
  }

  /** A '-' before a non-empty digit string reads as minus its value. */
  lemma ParseNegative(s: string)
    requires |s| >= 1 && AllDigits(s)
    ensures ParseInt("-" + s) == Some(-(Value(s) as int))
  {
    assert ("-" + s)[1..] == s;
  }

  /** The decimal reading of `f"{n:0{w}d}"` is n, for every n and width. */
  lemma PadIntRoundTrip(n: int, w: nat)
    ensures ParseInt(PadInt(n, w)) == Some(n)
  {
    var m: nat := if n >= 0 then n else -n;
    var k: nat := if n >= 0 then w else if w > 0 then w - 1 else 0;
    var body := ZeroPad(Digits(m), k);
    DigitsValue(m);
    ZeroPadValue(Digits(m), k);
    assert |body| >= 1;
    if n >= 0 {
      assert PadInt(n, w) == body;
      ParseDigits(body);
    } else {
      assert PadInt(n, w) == "-" + body;
      ParseNegative(body);
    }
  }

  /** A non-negative n below 10^w is written with exactly w digits, and they read back as n. */
  lemma PadIntFixedWidth(n: int, w: nat)
    requires w >= 1 && 0 <= n < Pow10(w)
    ensures |PadInt(n, w)| == w && AllDigits(PadInt(n, w)) && Value(PadInt(n, w)) == n
  {
    DigitsFit(n, w);
    PadIntRoundTrip(n, w);
  }

  /**
   * A count written with `f"{n:0{w}d}"` is all digits, at least w of them,
   * exactly w when n < 10^w, and reads back as n.
   */
  lemma PadIntCount(n: nat, w: nat)
    requires w >= 1
    ensures var r := PadInt(n, w);
            && AllDigits(r) && ParseInt(r) == Some(n) && |r| >= w
            && (n < Pow10(w) ==> |r| == w)
  {
    PadIntRoundTrip(n, w);
    ZeroPadValue(Digits(n), w);
    if n < Pow10(w) {
      PadIntFixedWidth(n, w);
    }
  }

  /** A number with more than w digits is written in full: nothing is truncated. */
  lemma PadIntNoTruncation(n: int, w: nat)
    requires w >= 1 && n >= Pow10(w)
    ensures PadInt(n, w) == Digits(n) && |PadInt(n, w)| > w
  {
    DigitsFit(n, w);
  }

  /** `_cents12`. */
  function Cents12(amountCents: int): string
  {
    PadInt(amountCents, 12)
  }

  /** `_cents10`. */
  function Cents10(amountCents: int): string
  {
    PadInt(amountCents, 10)
  }

  /**
   * `_cents12` writes at least 12 characters that read back as the amount:
   * exactly 12 digits for 0 <= n < 10^12, and every digit of a larger amount.
   */
  lemma Cents12Field(amountCents: int)
    ensures var r := Cents12(amountCents);
            && |r| >= 12 && ParseInt(r) == Some(amountCents)
            && (0 <= amountCents < Pow10(12) ==> |r| == 12 && AllDigits(r))
            && (amountCents >= Pow10(12) ==> r == Digits(amountCents) && |r| > 12)
  {
    PadIntRoundTrip(amountCents, 12);
    if 0 <= amountCents < Pow10(12) {
      PadIntFixedWidth(amountCents, 12);
    } else if amountCents >= Pow10(12) {
      PadIntNoTruncation(amountCents, 12);
    }
  }

  /**
   * `_cents10` writes at least 10 characters that read back as the amount:
   * exactly 10 digits for 0 <= n < 10^10, and every digit of a larger amount.
   */
  lemma Cents10Field(amountCents: int)
    ensures var r := Cents10(amountCents);
            && |r| >= 10 && ParseInt(r) == Some(amountCents)
            && (0 <= amountCents < Pow10(10) ==> |r| == 10 && AllDigits(r))
            && (amountCents >= Pow10(10) ==> r == Digits(amountCents) && |r| > 10)
  {
    PadIntRoundTrip(amountCents, 10);
    if 0 <= amountCents < Pow10(10) {
      PadIntFixedWidth(amountCents, 10);
    } else if amountCents >= Pow10(10) {
      PadIntNoTruncation(amountCents, 10);
    }
  }
}
