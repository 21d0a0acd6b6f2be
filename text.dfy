/**
 * The fixed-width text fields of a series-info token: zero-padded numbers
 * (Int32.ToString("0000")), signed numbers, yyyyMMdd dates, and their
 * readers (Int32.Parse, new DateTime(y, m, d)).
 */
module Text {
  import opened Results
  import opened Dates

  function Pow10(n: nat): (r: nat)
    ensures r >= 1
  {
    if n == 0 then 1 else 10 * Pow10(n - 1)
  }

  predicate IsDigit(c: char) {
    '0' <= c <= '9'
  }

  predicate AllDigits(s: string) {
    forall i :: 0 <= i < |s| ==> IsDigit(s[i])
  }

  function DigitChar(v: int): (c: char)
    requires 0 <= v <= 9
    ensures IsDigit(c)
  {
    ('0' as int + v) as char
  }

  /** The decimal value of a string of digits. */
  function DigitsValue(s: string): nat
    requires AllDigits(s)
  {
    if |s| == 0 then 0
    else DigitsValue(s[..|s| - 1]) * 10 + (s[|s| - 1] as int - '0' as int)
  }

  /** n.ToString with a format of `width` zeros, for a value that fits. */
  function PadDigits(n: nat, width: nat): (s: string)
    requires n < Pow10(width)
    ensures |s| == width && AllDigits(s)
  {
    if width == 0 then ""
    else PadDigits(n / 10, width - 1) + [DigitChar(n % 10)]
  }

  /** The white space Int32.Parse skips around a number: tab to carriage return, and space. */
  predicate IsWhite(c: char) {
    c == ' ' || '\t' <= c <= '\r'
  }

  /** The string without its leading white space. */
  function TrimStart(s: string): (t: string)
    ensures |t| <= |s| && (|t| > 0 ==> !IsWhite(t[0]))
  {
    if |s| > 0 && IsWhite(s[0]) then TrimStart(s[1..]) else s
  }

  /** The string without its trailing white space. */
  function TrimEnd(s: string): (t: string)
    ensures |t| <= |s| && (|t| > 0 ==> !IsWhite(t[|t| - 1]))
  {
    if |s| > 0 && IsWhite(s[|s| - 1]) then TrimEnd(s[..|s| - 1]) else s
  }

  /** An optional sign, '+' or '-', followed by at least one digit. */
  function ParseSigned(s: string): Option<int>
  {
    if |s| > 1 && s[0] == '-' && AllDigits(s[1..]) then Some(-(DigitsValue(s[1..]) as int))
    else if |s| > 1 && s[0] == '+' && AllDigits(s[1..]) then Some(DigitsValue(s[1..]))
    else if |s| > 0 && AllDigits(s) then Some(DigitsValue(s))
    else None
  }

  /**
   * Int32.Parse with NumberStyles.Integer: leading and trailing white
   * space, then an optional sign and at least one digit. A field that does
   * not read as a number is None.
   */
  function ParseInt(s: string): (r: Option<int>)
    ensures r.Some? ==> |s| >= 1
  {
    ParseSigned(TrimEnd(TrimStart(s)))
  }

  /**
   * Int32.ToString with a format of `width` zeros, for any value: the digits
   * of its magnitude, zero-padded to at least `width`, after a minus sign
   * when it is negative.
   */
  function FormatInt(n: int, width: nat): (s: string)
    ensures 0 <= n < Pow10(width) ==> s == PadDigits(n, width)
    ensures |s| >= width
  {
    if n < 0 then "-" + FormatNat(-n, width) else FormatNat(n, width)
  }

  /** The digits of n, zero-padded to `width` when it fits and all of them when it does not. */
  function FormatNat(n: nat, width: nat): (s: string)
    ensures AllDigits(s)
    ensures n < Pow10(width) <==> |s| == width
    ensures |s| >= width
  {
    if n < Pow10(width) then PadDigits(n, width)
    else FormatNat(n / 10, width) + [DigitChar(n % 10)]
  }

  /**
   * The adjustment field: ToString("000") when the value is not negative and
   * ToString("00") (a minus sign and at least two digits) when it is, so a
   * value in range fills exactly `width` characters.
   */
  function SignedDigits(n: int, width: nat): (s: string)
    requires 1 <= width
    ensures -(Pow10(width - 1) as int) < n < Pow10(width) ==> |s| == width
  {
    if n < 0 then FormatInt(n, width - 1) else FormatInt(n, width)
  }

  /** A year that DateTime can hold, as its four-digit yyyy field. */
  predicate InYearRange(d: DateTime) {
    1 <= d.year <= 9999
  }

  /** DateTime.ToString("yyyyMMdd"): eight digits for a year DateTime can hold. */
  function FormatDate(d: DateTime): (s: string)
    ensures InYearRange(d) ==> |s| == 8 && AllDigits(s)
  {
    FormatInt(d.year, 4) + PadDigits(d.month, 2) + PadDigits(d.day, 2)
  }

  /**
   * new DateTime(int.Parse(s[0..4]), int.Parse(s[4..6]), int.Parse(s[6..8])):
   * None when a field is not a number or the three do not form a date
   * between the years 1 and 9999.
   */
  function ParseDate(s: string): (r: Option<DateTime>)
    requires |s| == 8
    ensures r.Some? ==> InYearRange(r.value)
  {
    match (ParseInt(s[0..4]), ParseInt(s[4..6]), ParseInt(s[6..8]))
    case (Some(y), Some(m), Some(d)) =>
      if 1 <= y <= 9999 && 1 <= m <= 12 && 1 <= d <= DaysInMonth(y, m)
      then Some(Date(y, m, d)) else None
    case _ => None
  }

  // ---------------------------------------------------------------------
  // Round trips

  /**
   * Int32.Parse reads a field padded with white space or carrying a plus
   * sign as its number.
   */
  lemma ParseIntAccepts()
    ensures ParseInt(" 5 ") == Some(5) && ParseInt("+05") == Some(5) && ParseInt("\t-5") == Some(-5)
  {
    assert TrimStart(" 5 ") == "5 " by { assert TrimStart("5 ") == "5 "; }
    assert TrimEnd("5 ") == "5" by { assert TrimEnd("5") == "5"; }
    assert TrimStart("\t-5") == "-5";
    assert TrimEnd("-5") == "-5";
  }

  /** Int32.Parse rejects a bare sign, white space alone, white space between digits and two signs. */
  lemma ParseIntRejects()
    ensures ParseInt("+") == None && ParseInt("5 5") == None && ParseInt("  ") == None && ParseInt("+-5") == None
  {
    assert TrimStart("  ") == "" by { assert TrimStart(" ") == "" by { assert TrimStart("") == ""; } }
    assert !AllDigits("5 5") by { assert !IsDigit("5 5"[1]); }
    assert !AllDigits("-5") by { assert !IsDigit("-5"[0]); }
    assert "+-5"[1..] == "-5";
  }

  /** A field that neither starts nor ends with white space is read as it stands. */
  lemma Untrimmed(s: string)
    requires |s| > 0 && !IsWhite(s[0]) && !IsWhite(s[|s| - 1])
    ensures ParseInt(s) == ParseSigned(s)
  {
    assert TrimStart(s) == s;
    assert TrimEnd(s) == s;
  }

  /** A string of digits reads as its decimal value. */
  lemma ParseDigits(d: string, v: nat)
    requires |d| > 0 && AllDigits(d) && DigitsValue(d) == v
    ensures ParseInt(d) == Some(v)
  {
    assert IsDigit(d[0]) && IsDigit(d[|d| - 1]);
    Untrimmed(d);
  }

  /** A minus sign before a string of digits reads as the negated value. */
  lemma ParseMinusDigits(d: string, v: nat)
    requires |d| > 0 && AllDigits(d) && DigitsValue(d) == v
    ensures ParseInt("-" + d) == Some(-(v as int))
  {
    var s := "-" + d;
    assert s[0] == '-' && s[1..] == d;
    assert IsDigit(s[|s| - 1]) by { assert s[|s| - 1] == d[|d| - 1]; }
    Untrimmed(s);
  }

  lemma {:induction false} DigitsValueOfPad(n: nat, width: nat)
    requires n < Pow10(width)
    ensures DigitsValue(PadDigits(n, width)) == n
  {
    if width > 0 {
      var s := PadDigits(n, width);
      assert s[..|s| - 1] == PadDigits(n / 10, width - 1);
      DigitsValueOfPad(n / 10, width - 1);
    }
  }

  /** Reading back a zero-padded number gives the number. */
  lemma ParsePadDigits(n: nat, width: nat)
    requires 1 <= width && n < Pow10(width)
    ensures ParseInt(PadDigits(n, width)) == Some(n)
  {
    DigitsValueOfPad(n, width);
    ParseDigits(PadDigits(n, width), n);
  }

  lemma {:induction false} DigitsValueOfFormat(n: nat, width: nat)
    ensures DigitsValue(FormatNat(n, width)) == n
    decreases n
  {
    if n >= Pow10(width) {
      var s := FormatNat(n, width);
      assert s[..|s| - 1] == FormatNat(n / 10, width);
      DigitsValueOfFormat(n / 10, width);
    } else {
      DigitsValueOfPad(n, width);
    }
  }

  /** The digits of a magnitude read back as that magnitude. */
  lemma ParseFormatNat(m: nat, width: nat)
    requires 1 <= width
    ensures ParseInt(FormatNat(m, width)) == Some(m)
  {
    DigitsValueOfFormat(m, width);
    ParseDigits(FormatNat(m, width), m);
  }

  /** A minus sign before the digits of a magnitude reads back as its negation. */
  lemma ParseMinusFormatNat(m: nat, width: nat)
    requires 1 <= width
    ensures ParseInt("-" + FormatNat(m, width)) == Some(-(m as int))
  {
    DigitsValueOfFormat(m, width);
    ParseMinusDigits(FormatNat(m, width), m);
  }

  /** Reading back a formatted number gives the number, whatever its size or sign. */
  lemma ParseFormatInt(n: int, width: nat)
    requires 1 <= width
    ensures ParseInt(FormatInt(n, width)) == Some(n)
  {
    if n < 0 {
      assert FormatInt(n, width) == "-" + FormatNat(-n, width);
      ParseMinusFormatNat(-n, width);
    } else {
      assert FormatInt(n, width) == FormatNat(n, width);
      ParseFormatNat(n, width);
    }
  }

  /** Reading back a signed field gives the number. */
  lemma ParseSignedDigits(n: int, width: nat)
    requires 2 <= width
    ensures ParseInt(SignedDigits(n, width)) == Some(n)
  {
    var w := if n < 0 then width - 1 else width;
    assert SignedDigits(n, width) == FormatInt(n, w);
    ParseFormatInt(n, w);
  }

  /** yyyyMMdd read back is the same date. */
  lemma ParseFormatDate(d: DateTime)
    requires InYearRange(d)
    ensures ParseDate(FormatDate(d)) == Some(d)
  {
    var s := FormatDate(d);
    assert s[0..4] == PadDigits(d.year, 4);
    assert s[4..6] == PadDigits(d.month, 2);
    assert s[6..8] == PadDigits(d.day, 2);
    ParsePadDigits(d.year, 4);
    ParsePadDigits(d.month, 2);
    ParsePadDigits(d.day, 2);
  }

  /** A slice of a slice is a slice of the whole. */
  lemma SliceOfSlice(s: string, lo: nat, hi: nat, i: nat, j: nat)
    requires lo <= hi <= |s| && i <= j <= hi - lo
    ensures s[lo..hi][i..j] == s[lo + i..lo + j]
  {
    var a, b := s[lo..hi][i..j], s[lo + i..lo + j];
    assert |a| == |b|;
    forall k | 0 <= k < |a|
      ensures a[k] == b[k]
    {
      assert a[k] == s[lo + i + k];
    }
  }

  /** The four pieces of a joined string sit at the offsets their lengths give. */
  lemma Pieces(h: string, a: string, b: string, c: string)
    ensures var s := h + (a + (b + c));
      s[0..|h|] == h && s[|h|..|h| + |a|] == a &&
      s[|h| + |a|..|h| + |a| + |b|] == b && s[|h| + |a| + |b|..|s|] == c
  {
    var s := h + (a + (b + c));
    assert s[|h|..|s|] == a + (b + c);
    assert (a + (b + c))[|a|..|a| + |b| + |c|] == b + c;
    SliceOfSlice(s, |h|, |s|, 0, |a|);
    SliceOfSlice(s, |h|, |s|, |a|, |a| + |b|);
    SliceOfSlice(s, |h|, |s|, |a| + |b|, |a| + |b| + |c|);
    SliceOfSlice(a + (b + c), |a|, |a| + |b| + |c|, 0, |b|);
    SliceOfSlice(a + (b + c), |a|, |a| + |b| + |c|, |b|, |b| + |c|);
  }
}
