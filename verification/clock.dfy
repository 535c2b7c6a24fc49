/** The clock page: the decimal digit count used to size roller strings, and
    the 12-hour "hh:mm AM/PM" label of the clock task. */
module Clock {
  import opened Types

  const IntMin: int32 := -0x8000_0000

  /** count_bsearch: the number of decimal digits of |i| by a fixed tree of
      comparisons; -2^31, whose negation does not fit in an int, is answered
      directly. */
  function CountBsearch(i: int32): (n: nat)
    ensures 1 <= n <= 10
  {
    if i == IntMin then 10
    else
      var j := if i < 0 then -(i as int) else i as int;
      if j < 100000 then
        if j < 1000 then
          if j < 10 then 1 else if j < 100 then 2 else 3
        else
          if j < 10000 then 4 else 5
      else
        if j < 10000000 then
          if j < 1000000 then 6 else 7
        else
          if j < 100000000 then 8 else if j < 1000000000 then 9 else 10
  }

  /** The number of decimal digits of n, by repeated division; 0 has one. */
  function DigitCount(n: nat): (d: nat)
    ensures d >= 1
  {
    if n < 10 then 1 else 1 + DigitCount(n / 10)
  }

  function Pow10(k: nat): (p: nat)
    ensures p >= 1
  {
    if k == 0 then 1 else 10 * Pow10(k - 1)
  }

  /** A number has k digits exactly when it lies in [10^(k-1), 10^k) (or is
      below 10 for k = 1). */
  lemma {:induction false} DigitCountRange(n: nat, k: nat)
    requires k >= 1 && n < Pow10(k) && (k > 1 ==> Pow10(k - 1) <= n)
    ensures DigitCount(n) == k
  {
    if k > 1 {
      assert Pow10(k) == 10 * Pow10(k - 1);
      if k > 2 {
        assert Pow10(k - 1) == 10 * Pow10(k - 2);
      }
      DigitCountRange(n / 10, k - 1);
    }
  }

  /** count_bsearch agrees with the digit count of the magnitude, including
      for -2^31, which has ten digits. */
  lemma CountBsearchIsDigitCount(i: int32)
    ensures CountBsearch(i) == DigitCount(if i < 0 then -(i as int) else i as int)
  {
    var j: nat := if i < 0 then -(i as int) else i as int;
    var k := CountBsearch(i);
    assert Pow10(1) == 10 && Pow10(2) == 100 && Pow10(3) == 1000 && Pow10(4) == 10000;
    assert Pow10(5) == 100000 && Pow10(6) == 1000000 && Pow10(7) == 10000000;
    assert Pow10(8) == 100000000 && Pow10(9) == 1000000000 && Pow10(10) == 10000000000;
    DigitCountRange(j, k);
  }

  /** The count does not depend on the sign. */
  lemma CountBsearchSymmetric(i: int32)
    requires i > IntMin
    ensures CountBsearch(-(i as int) as int32) == CountBsearch(i)
  {
  }

  function DigitChar(d: nat): char
    requires d < 10
  {
    ('0' as int + d) as char
  }

  /** The decimal rendering of n without leading zeros (printf %d). */
  function Decimal(n: nat): (s: string)
    ensures |s| == DigitCount(n)
  {
    if n < 10 then [DigitChar(n)] else Decimal(n / 10) + [DigitChar(n % 10)]
  }

  /** printf %02d of a non-negative number: at least two digits, padded with
      a leading zero. */
  function Pad2(n: nat): (s: string)
    ensures |s| == if n < 10 then 2 else DigitCount(n)
  {
    if n < 10 then ['0', DigitChar(n)] else Decimal(n)
  }

  predicate IsDigit(c: char)
  {
    '0' <= c <= '9'
  }

  /** Reading a string of decimal digits back as a number. */
  function ParseDecimal(s: string): nat
    requires forall i :: 0 <= i < |s| ==> IsDigit(s[i])
  {
    if |s| == 0 then 0
    else
      assert IsDigit(s[|s| - 1]);
      10 * ParseDecimal(s[..|s| - 1]) + (s[|s| - 1] as int - '0' as int)
  }

  lemma {:induction false} DecimalRoundTrip(n: nat)
    ensures forall i :: 0 <= i < |Decimal(n)| ==> IsDigit(Decimal(n)[i])
    ensures ParseDecimal(Decimal(n)) == n
  {
    if n >= 10 {
      DecimalRoundTrip(n / 10);
      var s := Decimal(n);
      assert s[..|s| - 1] == Decimal(n / 10);
    }
  }

  /** The padded rendering reads back as the number it renders. */
  lemma Pad2RoundTrip(n: nat)
    ensures forall i :: 0 <= i < |Pad2(n)| ==> IsDigit(Pad2(n)[i])
    ensures ParseDecimal(Pad2(n)) == n
  {
    if n < 10 {
      var s := Pad2(n);
      assert s[..1] == ['0'];
      assert s[..1][..0] == [];
      assert ParseDecimal(s[..1]) == 0;
    } else {
      DecimalRoundTrip(n);
    }
  }

  /** The hour the clock shows and whether it is marked PM. */
  datatype Face = Face(hour: nat, pm: bool)

  /** The 12-hour conversion of the clock task: hours after 12 lose 12 and
      are PM, 12 stays 12 and is PM, earlier hours (0 included, shown as 00)
      are shown unchanged and are AM. */
  function ClockFace(hour: u8): (f: Face)
    ensures f.pm <==> hour >= 12
    ensures hour > 12 ==> f.hour == hour - 12
    ensures hour <= 12 ==> f.hour == hour
  {
    if hour >= 12 then
      if hour > 12 then Face(hour - 12, true) else Face(hour, true)
    else Face(hour, false)
  }

  /** Reading a face back as a 24-hour time. */
  function To24(f: Face): nat
  {
    if f.pm && f.hour != 12 then f.hour + 12 else f.hour
  }

  /** For every valid hour of the day the face determines the hour. */
  lemma ClockFaceInverse(hour: u8)
    requires hour < 24
    ensures To24(ClockFace(hour)) == hour
  {
  }

  /** The label text: "hh:mm AM" or "hh:mm PM": the shown hour and the
      minute, each at least two digits, a colon between them, and the suffix
      of the half of the day. */
  function ClockText(hour: u8, minute: u8): (s: string)
    ensures |s| == |Pad2(ClockFace(hour).hour)| + 1 + |Pad2(minute)| + 3 >= 8
    ensures s[|Pad2(ClockFace(hour).hour)|] == ':'
    ensures s[|s| - 3..] == (if hour >= 12 then " PM" else " AM")
  {
    var h := Pad2(ClockFace(hour).hour);
    var s := h + ":" + Pad2(minute) + (if hour >= 12 then " PM" else " AM");
    assert s[|h|] == ':';
    s
  }

  /** For a valid time the label is eight characters, and its fields read
      back as the shown hour, the minute unchanged and the right suffix. */
  lemma ClockTextLayout(hour: u8, minute: u8)
    requires hour < 24 && minute < 60
    ensures var s := ClockText(hour, minute);
            && |s| == 8
            && s[2] == ':'
            && (forall i :: 0 <= i < 2 ==> IsDigit(s[i]))
            && (forall i :: 3 <= i < 5 ==> IsDigit(s[i]))
            && ParseDecimal(s[..2]) == ClockFace(hour).hour
            && ParseDecimal(s[3..5]) == minute
            && s[5..] == (if hour >= 12 then " PM" else " AM")
  {
    var f := ClockFace(hour);
    var h, m := Pad2(f.hour), Pad2(minute);
    DigitCountRange(f.hour, if f.hour < 10 then 1 else 2);
    DigitCountRange(minute, if minute < 10 then 1 else 2);
    Pad2RoundTrip(f.hour);
    Pad2RoundTrip(minute);
    var s := ClockText(hour, minute);
    assert s == h + ":" + m + (if f.pm then " PM" else " AM");
    assert s[..2] == h;
    assert s[3..5] == m;
  }
}
