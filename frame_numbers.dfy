/**
 * The frame number that ImageFileStreamer substitutes into its filename
 * format: the frame index written in decimal (boost::lexical_cast of an
 * unsigned integer), left-padded with '0' up to the zero-fill width when it
 * is shorter.
 */
module FrameNumbers {

  predicate IsDigit(c: char) {
    '0' <= c <= '9'
  }

  predicate AllDigits(s: string) {
    forall k :: 0 <= k < |s| ==> IsDigit(s[k])
  }

  function DigitValue(c: char): nat
    requires IsDigit(c)
  {
    c as int - '0' as int
  }

  function DigitChar(d: nat): (c: char)
    requires d < 10
    ensures IsDigit(c) && DigitValue(c) == d
  {
    ('0' as int + d) as char
  }

  function Max(a: nat, b: nat): nat {
    if a < b then b else a
  }

  /** The decimal text of n: digits only, and no leading zero except for "0" itself. */
  function Decimal(n: nat): (s: string)
    ensures 1 <= |s| && AllDigits(s)
    ensures s[0] == '0' <==> n == 0
    ensures n == 0 ==> s == "0"
    decreases n
  {
    if n < 10 then [DigitChar(n)] else Decimal(n / 10) + [DigitChar(n % 10)]
  }

  /** The number a string of decimal digits denotes (leading zeros allowed). */
  function Value(s: string): (v: nat)
    requires AllDigits(s)
    decreases |s|
  {
    if s == [] then 0 else 10 * Value(s[..|s| - 1]) + DigitValue(s[|s| - 1])
  }

  function Zeros(k: nat): (z: string) {
    seq(k, _ => '0')
  }

  /**
   * The frame number for index n and zero-fill width `width`: the decimal
   * text, preceded by as many '0' as make it `width` long when it is shorter.
   */
  function FrameNumber(n: nat, width: nat): (s: string)
    ensures |s| == Max(|Decimal(n)|, width)
    ensures AllDigits(s)
    ensures s[|s| - |Decimal(n)|..] == Decimal(n)
    ensures forall k :: 0 <= k < |s| - |Decimal(n)| ==> s[k] == '0'
    ensures width == 0 || |Decimal(n)| >= width ==> s == Decimal(n)
  {
    var digits := Decimal(n);
    if width > 0 && |digits| < width then Zeros(width - |digits|) + digits else digits
  }

  lemma {:induction false} ValueOfDecimal(n: nat)
    ensures Value(Decimal(n)) == n
    decreases n
  {
    if n >= 10 {
      var d := Decimal(n / 10);
      assert (d + [DigitChar(n % 10)])[..|d|] == d;
      ValueOfDecimal(n / 10);
    }
  }

  lemma {:induction false} ValueOfZeros(k: nat)
    ensures Value(Zeros(k)) == 0
  {
    if k > 0 {
      assert Zeros(k)[..k - 1] == Zeros(k - 1);
      ValueOfZeros(k - 1);
    }
  }

  /** Leading zeros do not change the value of a digit string. */
  lemma {:induction false} LeadingZerosKeepValue(k: nat, s: string)
    requires AllDigits(s)
    ensures AllDigits(Zeros(k) + s) && Value(Zeros(k) + s) == Value(s)
    decreases |s|
  {
    if s == [] {
      assert Zeros(k) + s == Zeros(k);
      ValueOfZeros(k);
    } else {
      var t := Zeros(k) + s;
      assert t[..|t| - 1] == Zeros(k) + s[..|s| - 1];
      LeadingZerosKeepValue(k, s[..|s| - 1]);
    }
  }

  /** Reading a rendered frame number back gives the index it was made from. */
  lemma FrameNumberValue(n: nat, width: nat)
    ensures Value(FrameNumber(n, width)) == n
  {
    var digits := Decimal(n);
    ValueOfDecimal(n);
    if width > 0 && |digits| < width {
      LeadingZerosKeepValue(width - |digits|, digits);
    }
  }

  /** Distinct frame indices give distinct frame numbers, for any zero-fill width. */
  lemma FrameNumberInjective(n: nat, m: nat, width: nat)
    requires FrameNumber(n, width) == FrameNumber(m, width)
    ensures n == m
  {
    FrameNumberValue(n, width);
    FrameNumberValue(m, width);
  }
}
