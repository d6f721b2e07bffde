/**
 * Decimal and hexadecimal text layouts that fwx produces with printf and
 * strftime conversions: "%d", "%0Nd", "%.Nf", "%02x", and exact fixed-point
 * numbers standing in for the C floats the station values are kept in.
 */
module Fmt {

  /**
   * The fields of a `struct tm` that fwx prints, from localtime or gmtime,
   * with the year and month as strftime prints them (tm_year + 1900 and
   * tm_mon + 1).
   */
  datatype Tm = Tm(year: int, mon: int, mday: int, hour: int, min: int, sec: int)

  datatype Option<T> = None | Some(value: T)

  /** An unsigned byte, as the serial port and the LOOP record deliver it. */
  type Byte = x: int | 0 <= x < 256

  function Pow10(n: nat): (r: nat)
    ensures r >= 1
  {
    if n == 0 then 1 else 10 * Pow10(n - 1)
  }

  /**
   * A station value: `raw / 10^places`.  fwx only ever divides a raw
   * station integer by 10, 100 or 1000, so every float it formats is one
   * of these (up to binary rounding, which the model leaves out).
   */
  datatype Fixed = Fixed(raw: int, places: nat)

  const Zero: Fixed := Fixed(0, 0)

  predicate IsDigit(c: char) { '0' <= c <= '9' }

  predicate AllDigits(s: string) { forall i :: 0 <= i < |s| ==> IsDigit(s[i]) }

  /** What printf puts in a number: digits, a sign and a decimal point. */
  predicate IsNumberChar(c: char) { IsDigit(c) || c == '-' || c == '.' }

  predicate NumberText(s: string) { forall i :: 0 <= i < |s| ==> IsNumberChar(s[i]) }

  function DigitChar(d: int): (c: char)
    requires 0 <= d < 10
    ensures IsDigit(c) && c as int - '0' as int == d
  {
    ('0' as int + d) as char
  }

  /** printf "%d" of a non-negative value: no leading zeros, "0" for zero. */
  function Digits(n: nat): (s: string)
    ensures 1 <= |s| && AllDigits(s)
    ensures |s| == 1 <==> n < 10
  {
    if n < 10 then [DigitChar(n)] else Digits(n / 10) + [DigitChar(n % 10)]
  }

  /** Reads a run of decimal digits back as a number (the inverse of Digits). */
  function ParseDigits(s: string): nat
    requires AllDigits(s)
  {
    if s == [] then 0
    else ParseDigits(s[..|s| - 1]) * 10 + (s[|s| - 1] as int - '0' as int)
  }

  lemma {:induction false} DigitsRoundTrip(n: nat)
    ensures ParseDigits(Digits(n)) == n
  {
    if n >= 10 {
      var s := Digits(n);
      assert s[..|s| - 1] == Digits(n / 10);
      DigitsRoundTrip(n / 10);
    }
  }

  function Zeros(k: nat): (s: string)
    ensures |s| == k && AllDigits(s)
    ensures forall i :: 0 <= i < k ==> s[i] == '0'
  {
    if k == 0 then [] else Zeros(k - 1) + ['0']
  }

  /** Leading zeros do not change the value a digit string reads as. */
  lemma {:induction false} ParseLeadingZeros(k: nat, s: string)
    requires AllDigits(s)
    ensures ParseDigits(Zeros(k) + s) == ParseDigits(s)
    decreases |s|
  {
    if s == [] {
      ParseZeros(k);
      assert Zeros(k) + s == Zeros(k);
    } else {
      var t := Zeros(k) + s;
      assert t[..|t| - 1] == Zeros(k) + s[..|s| - 1];
      ParseLeadingZeros(k, s[..|s| - 1]);
    }
  }

  lemma {:induction false} ParseZeros(k: nat)
    ensures ParseDigits(Zeros(k)) == 0
  {
    if k > 0 {
      assert Zeros(k)[..k - 1] == Zeros(k - 1);
      ParseZeros(k - 1);
    }
  }

  /** printf "%0*d" (zero padded to `w` characters) of a non-negative value. */
  function PadDec(n: nat, w: nat): (s: string)
    ensures AllDigits(s)
    ensures |s| == if |Digits(n)| < w then w else |Digits(n)|
  {
    var d := Digits(n);
    if |d| < w then Zeros(w - |d|) + d else d
  }

  lemma {:induction false} PadDecRoundTrip(n: nat, w: nat)
    ensures ParseDigits(PadDec(n, w)) == n
  {
    var d := Digits(n);
    DigitsRoundTrip(n);
    if |d| < w {
      var z := Zeros(w - |d|);
      ParseLeadingZeros(w - |d|, d);
      assert ParseDigits(z + d) == n;
      assert PadDec(n, w) == z + d;
    }
  }

  /** A value below 10^w fills exactly `w` characters under "%0*d". */
  lemma {:induction false} DigitsLength(n: nat, w: nat)
    requires 1 <= w && n < Pow10(w)
    ensures |Digits(n)| <= w
  {
    if n >= 10 {
      DigitsLength(n / 10, w - 1);
    }
  }

  /** printf "%0*d" of any int: a '-' sign counts towards the width, as in C. */
  function PadInt(n: int, w: nat): (s: string)
    ensures NumberText(s) && |s| >= 1
    ensures n >= 0 ==> s == PadDec(n, w)
    ensures n < 0 ==> |s| >= 1 && s[0] == '-' && s[1..] == PadDec(-n, if w == 0 then 0 else w - 1)
  {
    if n >= 0 then PadDec(n, w) else "-" + PadDec(-n, if w == 0 then 0 else w - 1)
  }

  /** printf "%d" / "%ld". */
  function IntStr(n: int): (s: string)
    ensures NumberText(s) && |s| >= 1
    ensures n >= 0 ==> s == Digits(n)
  {
    PadInt(n, 0)
  }

  /**
   * num/den rounded to the nearest integer, ties to even: the rounding of
   * nearbyintf in the default rounding mode, and of printf's "%.Nf".
   */
  function RoundHalfEven(num: nat, den: nat): nat
    requires den > 0
  {
    var q, rem := num / den, num % den;
    if 2 * rem > den then q + 1
    else if 2 * rem < den then q
    else if q % 2 == 0 then q else q + 1
  }

  /** The rounded value is within half a unit of num/den. */
  lemma RoundHalfEvenNearest(num: nat, den: nat)
    requires den > 0
    ensures var r := RoundHalfEven(num, den);
            2 * (r * den - num) <= den && 2 * (num - r * den) <= den
  {
    var q, rem := num / den, num % den;
    assert num == q * den + rem;
    assert (q + 1) * den == q * den + den;
  }

  /** An exact multiple is not moved by rounding. */
  lemma RoundExact(k: nat, den: nat)
    requires den > 0
    ensures RoundHalfEven(k * den, den) == k
  {
    var q, rem := (k * den) / den, (k * den) % den;
    assert k * den == q * den + rem;
    assert (k - q) * den == rem by {
      assert (k - q) * den == k * den - q * den;
    }
    MulBelowIsZero(k - q, den);
  }

  lemma MulBelowIsZero(a: int, d: int)
    requires d > 0 && 0 <= a * d < d
    ensures a == 0
  {
  }

  /** |raw| / 10^places scaled to `prec` decimals and rounded, as "%.Nf" prints it. */
  function ScaledMagnitude(v: Fixed, prec: nat): nat
  {
    var mag := if v.raw < 0 then -v.raw else v.raw;
    RoundHalfEven(mag * Pow10(prec), Pow10(v.places))
  }

  function Quotient(a: nat, b: nat): nat
    requires b > 0
  {
    a / b
  }

  function Remainder(a: nat, b: nat): (r: nat)
    requires b > 0
    ensures r < b
  {
    a % b
  }

  /** The digits of q / 10^prec with a point before the last `prec` of them. */
  function PointText(q: nat, prec: nat): (s: string)
    ensures NumberText(s) && |s| >= 1
  {
    var p := Pow10(prec);
    var whole, frac := Quotient(q, p), Remainder(q, p);
    Digits(whole) + (if prec == 0 then "" else "." + PadDec(frac, prec))
  }

  /** printf "%.Nf" of the value v (the sign of a negative value is kept, as C keeps it). */
  function FixedStr(v: Fixed, prec: nat): (s: string)
    ensures NumberText(s) && |s| >= 1
  {
    (if v.raw < 0 then "-" else "") + PointText(ScaledMagnitude(v, prec), prec)
  }

  /**
   * At the value's own scale nothing is rounded: the text is the raw
   * integer's digits with a point put in before the last `places` of them.
   */
  lemma FixedStrExact(v: Fixed)
    requires v.raw >= 0
    ensures ScaledMagnitude(v, v.places) == v.raw
    ensures FixedStr(v, v.places) == PointText(v.raw, v.places)
  {
    RoundExact(v.raw, Pow10(v.places));
  }

  /** printf "%02x" (lower-case hexadecimal). */
  function HexDigit(d: int): (c: char)
    requires 0 <= d < 16
  {
    if d < 10 then DigitChar(d) else ('a' as int + d - 10) as char
  }

  function Hex2(b: Byte): (s: string)
    ensures |s| == 2
  {
    [HexDigit(b / 16), HexDigit(b % 16)]
  }

  function HexValue(c: char): int
  {
    if '0' <= c <= '9' then c as int - '0' as int
    else if 'a' <= c <= 'f' then c as int - 'a' as int + 10
    else -1
  }

  /** "%02x" loses nothing: both digits read back as the byte. */
  lemma Hex2RoundTrip(b: Byte)
    ensures 16 * HexValue(Hex2(b)[0]) + HexValue(Hex2(b)[1]) == b
  {
  }

  /**
   * strftime into a buffer of `max` bytes: the text when it fits with its
   * terminating NUL, otherwise None (strftime returns 0 and the buffer is
   * indeterminate).
   */
  function Strftime(text: string, max: int): (r: Option<string>)
    ensures r.Some? <==> |text| < max
    ensures r.Some? ==> r.value == text
  {
    if |text| < max then Some(text) else None
  }

  /** Regrouping a concatenation, for the proofs that build text piece by piece. */
  lemma Associative(a: string, b: string, c: string)
    ensures (a + b) + c == a + (b + c)
  {
  }

  /** Splits a text at every `sep`, the way a reader of the CSV line or of a query string takes it apart. */
  function Split(s: string, sep: char): (r: seq<string>)
    ensures |r| >= 1
  {
    if s == [] then [""]
    else if s[0] == sep then [""] + Split(s[1..], sep)
    else
      var r := Split(s[1..], sep);
      [[s[0]] + r[0]] + r[1..]
  }

  /** A field without the separator, then the separator: the field comes off first. */
  lemma {:induction false} SplitCons(t: string, sep: char, rest: string)
    requires sep !in t
    ensures Split(t + [sep] + rest, sep) == [t] + Split(rest, sep)
    decreases |t|
  {
    if t != [] {
      assert (t + [sep] + rest)[1..] == t[1..] + [sep] + rest;
      SplitCons(t[1..], sep, rest);
      assert [t[0]] + t[1..] == t;
    } else {
      assert t + [sep] + rest == [sep] + rest;
    }
  }

  /** A text without the separator is one field. */
  lemma {:induction false} SplitNone(t: string, sep: char)
    requires sep !in t
    ensures Split(t, sep) == [t]
    decreases |t|
  {
    if t != [] {
      SplitNone(t[1..], sep);
      assert [t[0]] + t[1..] == t;
    }
  }

  /** A separator and a last field: the field is added at the end. */
  lemma {:induction false} SplitSnoc(a: string, sep: char, t: string)
    requires sep !in t
    ensures Split(a + [sep] + t, sep) == Split(a, sep) + [t]
    decreases |a|
  {
    if a == [] {
      assert a + [sep] + t == [sep] + t;
      SplitNone(t, sep);
    } else {
      assert (a + [sep] + t)[1..] == a[1..] + [sep] + t;
      SplitSnoc(a[1..], sep, t);
    }
  }
}
