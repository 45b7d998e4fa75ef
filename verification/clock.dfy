/**
 * Clock readings and the three `time.Format` layouts the record store uses
 * (models/models.go:47-58): the file-name date "2006-01-02", the record time
 * "2006-01-02 15:04:05.000" and the ID time "20060102150405".
 * Calendar arithmetic is not modelled; a reading is a broken-down local time.
 */
module Clock {
  import opened Decimal

  datatype DateTime = DateTime(
    year: nat, month: nat, day: nat,
    hour: nat, minute: nat, second: nat, nanosecond: nat)

  /**
   * The three clock readings one write takes: `SaveLog` calls `time.Now()`
   * separately for the ID, for the input time and for the partition date, so
   * they may straddle a second or a midnight.
   */
  datatype Readings = Readings(forId: DateTime, forInputTime: DateTime, forPartition: DateTime)

  /** The field ranges of a Go `time.Time` in its broken-down form (no leap second). */
  predicate Valid(t: DateTime) {
    && 1 <= t.month <= 12
    && 1 <= t.day <= 31
    && t.hour < 24
    && t.minute < 60
    && t.second < 60
    && t.nanosecond < 1000000000
  }

  /** Years that the layout "2006" prints as exactly four digits. */
  predicate FourDigitYear(t: DateTime) {
    t.year < 10000
  }

  /** Layout "2006-01-02", the partition name of a day. */
  function FormatDate(t: DateTime): string {
    ZeroPad(t.year, 4) + "-" + ZeroPad(t.month, 2) + "-" + ZeroPad(t.day, 2)
  }

  /** Layout "15:04:05.000": ".000" truncates the fraction to milliseconds. */
  function FormatClockTime(t: DateTime): string {
    ZeroPad(t.hour, 2) + ":" + ZeroPad(t.minute, 2) + ":" + ZeroPad(t.second, 2)
      + "." + ZeroPad(t.nanosecond / 1000000, 3)
  }

  /** Layout "2006-01-02 15:04:05.000", the record's input time. */
  function FormatInputTime(t: DateTime): string {
    FormatDate(t) + " " + FormatClockTime(t)
  }

  /** Layout "20060102150405", the time part of a record ID. */
  function FormatIdTime(t: DateTime): string {
    ZeroPad(t.year, 4) + ZeroPad(t.month, 2) + ZeroPad(t.day, 2)
      + ZeroPad(t.hour, 2) + ZeroPad(t.minute, 2) + ZeroPad(t.second, 2)
  }

  /** Reads a 14-digit ID time back into a reading to the second. */
  function ParseIdTime(s: string): (t: DateTime)
    requires |s| == 14 && IsDigits(s)
  {
    DateTime(Value(s[0..4]), Value(s[4..6]), Value(s[6..8]),
             Value(s[8..10]), Value(s[10..12]), Value(s[12..14]), 0)
  }

  /**
   * The ID time of a valid reading with a four-digit year is exactly 14
   * digits, and it records the reading to the second: parsing it back gives
   * the same reading with the fraction dropped.
   */
  lemma IdTimeRoundTrip(t: DateTime)
    requires Valid(t) && FourDigitYear(t)
    ensures |FormatIdTime(t)| == 14
    ensures IsDigits(FormatIdTime(t))
    ensures ParseIdTime(FormatIdTime(t)) == t.(nanosecond := 0)
  {
    ZeroPadRoundTrip(t.year, 4);
    ZeroPadRoundTrip(t.month, 2);
    ZeroPadRoundTrip(t.day, 2);
    ZeroPadRoundTrip(t.hour, 2);
    ZeroPadRoundTrip(t.minute, 2);
    ZeroPadRoundTrip(t.second, 2);
    var y, mo, d, h, mi, s := ZeroPad(t.year, 4), ZeroPad(t.month, 2), ZeroPad(t.day, 2),
                              ZeroPad(t.hour, 2), ZeroPad(t.minute, 2), ZeroPad(t.second, 2);
    DigitsConcat(y, mo);
    DigitsConcat(y + mo, d);
    DigitsConcat(y + mo + d, h);
    DigitsConcat(y + mo + d + h, mi);
    DigitsConcat(y + mo + d + h + mi, s);
    SixFieldSlices(y, mo, d, h, mi, s);
  }

  /** The fields of a four-two-two-two-two-two concatenation sit at fixed offsets. */
  lemma SixFieldSlices(a: string, b: string, c: string, d: string, e: string, f: string)
    requires |a| == 4 && |b| == 2 && |c| == 2 && |d| == 2 && |e| == 2 && |f| == 2
    ensures var s := a + b + c + d + e + f;
      && |s| == 14
      && s[0..4] == a && s[4..6] == b && s[6..8] == c
      && s[8..10] == d && s[10..12] == e && s[12..14] == f
  {
    var s := a + b + c + d + e + f;
    assert s[0..4] == a;
    assert s[4..6] == b;
    assert s[6..8] == c;
    assert s[8..10] == d;
    assert s[10..12] == e;
    assert s[12..14] == f;
  }

  /** A year of five or more digits makes the ID time longer than 14 characters. */
  lemma LongYearWidensIdTime(t: DateTime)
    requires !FourDigitYear(t)
    ensures |FormatIdTime(t)| > 14
  {
    assert |Digits(t.year)| > 4 by {
      DigitsAtLeast(t.year, 4);
    }
  }

  /** A number of at least 10^w needs more than w digits. */
  lemma {:induction false} DigitsAtLeast(n: nat, w: nat)
    requires n >= Pow10(w)
    ensures |Digits(n)| > w
  {
    if w > 0 {
      DigitsAtLeast(n / 10, w - 1);
    }
  }

  /** Two readings that fall on the same calendar day. */
  predicate SameDay(a: DateTime, b: DateTime) {
    a.year == b.year && a.month == b.month && a.day == b.day
  }

  /** Concatenations of three fields of matching widths are equal exactly when the fields are. */
  lemma ThreeFieldsEqual(a1: string, a2: string, a3: string, b1: string, b2: string, b3: string)
    requires |a1| == |b1| && |a2| == |b2| && |a3| == |b3|
    ensures a1 + a2 + a3 == b1 + b2 + b3 <==> a1 == b1 && a2 == b2 && a3 == b3
  {
    if a1 + a2 + a3 == b1 + b2 + b3 {
      var s, t := a1 + a2 + a3, b1 + b2 + b3;
      assert a1 == s[..|a1|] && b1 == t[..|a1|];
      assert a2 == s[|a1|..|a1| + |a2|] && b2 == t[|a1|..|a1| + |a2|];
      assert a3 == s[|a1| + |a2|..] && b3 == t[|a1| + |a2|..];
    }
  }

  /** The zero-padded date fields of two valid readings agree exactly when the readings share a day. */
  lemma DateFieldsEqual(a: DateTime, b: DateTime)
    requires Valid(a) && FourDigitYear(a) && Valid(b) && FourDigitYear(b)
    ensures |ZeroPad(a.year, 4)| == 4 && |ZeroPad(a.month, 2)| == 2 && |ZeroPad(a.day, 2)| == 2
    ensures (ZeroPad(a.year, 4) == ZeroPad(b.year, 4) && ZeroPad(a.month, 2) == ZeroPad(b.month, 2)
             && ZeroPad(a.day, 2) == ZeroPad(b.day, 2)) <==> SameDay(a, b)
  {
    ZeroPadRoundTrip(a.year, 4);
    ZeroPadRoundTrip(b.year, 4);
    ZeroPadRoundTrip(a.month, 2);
    ZeroPadRoundTrip(b.month, 2);
    ZeroPadRoundTrip(a.day, 2);
    ZeroPadRoundTrip(b.day, 2);
  }

  /** The date layout of a valid reading: four year digits, a dash, two month digits, a dash, two day digits. */
  lemma DateFields(t: DateTime)
    requires Valid(t) && FourDigitYear(t)
    ensures var d := FormatDate(t);
      && |d| == 10
      && d[0..4] == ZeroPad(t.year, 4) && d[5..7] == ZeroPad(t.month, 2) && d[8..10] == ZeroPad(t.day, 2)
  {
    DateFieldsEqual(t, t);
    var d := FormatDate(t);
    assert d[0..4] == ZeroPad(t.year, 4);
    assert d[5..7] == ZeroPad(t.month, 2);
    assert d[8..10] == ZeroPad(t.day, 2);
  }

  /** For valid four-digit-year readings the date layout names the calendar day exactly. */
  lemma FormatDateInjective(a: DateTime, b: DateTime)
    requires Valid(a) && FourDigitYear(a) && Valid(b) && FourDigitYear(b)
    ensures |FormatDate(a)| == 10
    ensures FormatDate(a) == FormatDate(b) <==> SameDay(a, b)
  {
    DateFields(a);
    DateFields(b);
    DateFieldsEqual(a, b);
  }

  /**
   * One write takes three readings. The record's input time begins with the
   * name of the partition it is filed under exactly when the input-time
   * reading and the partition reading fall on the same day, and a generated
   * ID begins with that partition's date digits exactly when the ID reading
   * does; a write straddling midnight breaks both.
   */
  lemma ReadingsAgree(now: Readings)
    requires Valid(now.forId) && FourDigitYear(now.forId)
    requires Valid(now.forInputTime) && FourDigitYear(now.forInputTime)
    requires Valid(now.forPartition) && FourDigitYear(now.forPartition)
    ensures var p := FormatDate(now.forPartition);
      && |p| == 10
      && (FormatInputTime(now.forInputTime)[..10] == p <==> SameDay(now.forInputTime, now.forPartition))
      && (FormatIdTime(now.forId)[..8] == p[0..4] + p[5..7] + p[8..10] <==> SameDay(now.forId, now.forPartition))
  {
    var id, part := now.forId, now.forPartition;
    FormatDateInjective(now.forInputTime, part);
    DateFields(now.forInputTime);
    assert FormatInputTime(now.forInputTime)[..10] == FormatDate(now.forInputTime);
    DateFields(part);
    DateFieldsEqual(id, part);
    var y, m, d := ZeroPad(id.year, 4), ZeroPad(id.month, 2), ZeroPad(id.day, 2);
    assert FormatIdTime(id)[..8] == y + m + d;
    ThreeFieldsEqual(y, m, d, ZeroPad(part.year, 4), ZeroPad(part.month, 2), ZeroPad(part.day, 2));
  }
}
