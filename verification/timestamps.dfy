/** The `indexed_at` stamps: UTC instants printed in Go's `time.RFC3339` layout. */
module Timestamps {
  import opened TextOrder

  datatype Utc = Utc(year: nat, month: nat, day: nat, hour: nat, minute: nat, second: nat)

  predicate IsLeap(year: nat) {
    year % 4 == 0 && (year % 100 != 0 || year % 400 == 0)
  }

  function DaysInMonth(year: nat, month: nat): nat {
    if month == 2 then (if IsLeap(year) then 29 else 28)
    else if month in {4, 6, 9, 11} then 30
    else 31
  }

  /** A calendar instant that the four-digit-year layout can print. */
  predicate Valid(t: Utc) {
    && t.year <= 9999
    && 1 <= t.month <= 12
    && 1 <= t.day <= DaysInMonth(t.year, t.month)
    && t.hour < 24 && t.minute < 60 && t.second < 60
  }

  /** Days of the years and months that precede a given year and month. */
  function DaysBeforeYear(year: nat): nat {
    if year == 0 then 0
    else DaysBeforeYear(year - 1) + (if IsLeap(year - 1) then 366 else 365)
  }

  function DaysBeforeMonth(year: nat, month: nat): nat
    requires month >= 1
  {
    if month == 1 then 0 else DaysBeforeMonth(year, month - 1) + DaysInMonth(year, month - 1)
  }

  function DayNumber(t: Utc): int
    requires t.month >= 1
  {
    DaysBeforeYear(t.year) + DaysBeforeMonth(t.year, t.month) + t.day
  }

  /** Seconds on the proleptic Gregorian time line. */
  function Instant(t: Utc): int
    requires t.month >= 1
  {
    ((DayNumber(t) * 24 + t.hour) * 60 + t.minute) * 60 + t.second
  }

  function Digit(d: nat): char
    requires d < 10
  {
    '0' + d as char
  }

  function Power10(w: nat): nat {
    if w == 0 then 1 else 10 * Power10(w - 1)
  }

  /** `n` in decimal with leading zeros, `w` characters wide. */
  function Pad(n: nat, w: nat): (s: string)
    ensures |s| == w
  {
    if w == 0 then "" else Pad(n / 10, w - 1) + [Digit(n % 10)]
  }

  function Format(t: Utc): string {
    Pad(t.year, 4) + ("-" + (Pad(t.month, 2) + ("-" + (Pad(t.day, 2) +
      ("T" + (Pad(t.hour, 2) + (":" + (Pad(t.minute, 2) + (":" + (Pad(t.second, 2) + "Z"))))))))))
  }

  lemma {:induction false} PadOrder(n: nat, m: nat, w: nat)
    requires n < Power10(w) && m < Power10(w)
    ensures Less(Pad(n, w), Pad(m, w)) <==> n < m
    ensures Pad(n, w) == Pad(m, w) <==> n == m
  {
    if w > 0 {
      PadOrder(n / 10, m / 10, w - 1);
      LessByParts(Pad(n / 10, w - 1), [Digit(n % 10)], Pad(m / 10, w - 1), [Digit(m % 10)]);
      assert Pad(n, w)[..w - 1] == Pad(n / 10, w - 1) && Pad(m, w)[..w - 1] == Pad(m / 10, w - 1);
      assert Pad(n, w)[w - 1] == Digit(n % 10) && Pad(m, w)[w - 1] == Digit(m % 10);
    }
  }

  /** One field of the layout: its number decides first, then what follows it. */
  lemma {:induction false} FieldOrder(n: nat, m: nat, w: nat, x: string, y: string)
    requires n < Power10(w) && m < Power10(w)
    ensures Less(Pad(n, w) + x, Pad(m, w) + y) <==> n < m || (n == m && Less(x, y))
  {
    PadOrder(n, m, w);
    LessByParts(Pad(n, w), x, Pad(m, w), y);
  }

  lemma {:induction false} SeparatorOrder(c: char, x: string, y: string)
    ensures Less([c] + x, [c] + y) <==> Less(x, y)
  {
    LessByParts([c], x, [c], y);
    LessIrreflexive([c]);
  }

  predicate FieldsBefore(a: Utc, b: Utc) {
    a.year < b.year || (a.year == b.year && (
      a.month < b.month || (a.month == b.month && (
        a.day < b.day || (a.day == b.day && (
          a.hour < b.hour || (a.hour == b.hour && (
            a.minute < b.minute || (a.minute == b.minute && a.second < b.second)))))))))
  }

  lemma {:induction false} TimeTextOrder(a: Utc, b: Utc)
    requires Valid(a) && Valid(b)
    ensures
      var x := "T" + (Pad(a.hour, 2) + (":" + (Pad(a.minute, 2) + (":" + (Pad(a.second, 2) + "Z")))));
      var y := "T" + (Pad(b.hour, 2) + (":" + (Pad(b.minute, 2) + (":" + (Pad(b.second, 2) + "Z")))));
      Less(x, y) <==>
      a.hour < b.hour || (a.hour == b.hour && (
        a.minute < b.minute || (a.minute == b.minute && a.second < b.second)))
  {
    assert Power10(2) == 100;
    var sa, sb := Pad(a.second, 2) + "Z", Pad(b.second, 2) + "Z";
    FieldOrder(a.second, b.second, 2, "Z", "Z");
    LessIrreflexive("Z");
    SeparatorOrder(':', sa, sb);
    var ma, mb := Pad(a.minute, 2) + (":" + sa), Pad(b.minute, 2) + (":" + sb);
    FieldOrder(a.minute, b.minute, 2, ":" + sa, ":" + sb);
    SeparatorOrder(':', ma, mb);
    FieldOrder(a.hour, b.hour, 2, ":" + ma, ":" + mb);
    SeparatorOrder('T', Pad(a.hour, 2) + (":" + ma), Pad(b.hour, 2) + (":" + mb));
  }

  lemma {:induction false} FormatFieldOrder(a: Utc, b: Utc)
    requires Valid(a) && Valid(b)
    ensures Less(Format(a), Format(b)) <==> FieldsBefore(a, b)
  {
    assert Power10(2) == 100;
    assert Power10(4) == 100 * Power10(2);
    TimeTextOrder(a, b);
    var x := "T" + (Pad(a.hour, 2) + (":" + (Pad(a.minute, 2) + (":" + (Pad(a.second, 2) + "Z")))));
    var y := "T" + (Pad(b.hour, 2) + (":" + (Pad(b.minute, 2) + (":" + (Pad(b.second, 2) + "Z")))));
    FieldOrder(a.day, b.day, 2, x, y);
    var da, db := Pad(a.day, 2) + x, Pad(b.day, 2) + y;
    SeparatorOrder('-', da, db);
    FieldOrder(a.month, b.month, 2, "-" + da, "-" + db);
    var ma, mb := Pad(a.month, 2) + ("-" + da), Pad(b.month, 2) + ("-" + db);
    SeparatorOrder('-', ma, mb);
    FieldOrder(a.year, b.year, 4, "-" + ma, "-" + mb);
  }

  lemma {:induction false} MonthsGrow(year: nat, m: nat, n: nat)
    requires 1 <= m < n
    ensures DaysBeforeMonth(year, m) + DaysInMonth(year, m) <= DaysBeforeMonth(year, n)
  {
    if m < n - 1 {
      MonthsGrow(year, m, n - 1);
    }
  }

  lemma {:induction false} YearLength(year: nat)
    ensures DaysBeforeMonth(year, 12) + 31 == if IsLeap(year) then 366 else 365
  {
    assert DaysBeforeMonth(year, 2) == 31;
    assert DaysBeforeMonth(year, 4) == DaysBeforeMonth(year, 3) + 31 == 62 + DaysInMonth(year, 2);
    assert DaysBeforeMonth(year, 6) == DaysBeforeMonth(year, 5) + 31 == DaysBeforeMonth(year, 4) + 61;
    assert DaysBeforeMonth(year, 8) == DaysBeforeMonth(year, 7) + 31 == DaysBeforeMonth(year, 6) + 61;
    assert DaysBeforeMonth(year, 10) == DaysBeforeMonth(year, 9) + 30 == DaysBeforeMonth(year, 8) + 61;
    assert DaysBeforeMonth(year, 12) == DaysBeforeMonth(year, 11) + 30 == DaysBeforeMonth(year, 10) + 61;
  }

  lemma {:induction false} YearsGrow(y: nat, z: nat)
    requires y < z
    ensures DaysBeforeYear(y) + (if IsLeap(y) then 366 else 365) <= DaysBeforeYear(z)
  {
    if y < z - 1 {
      YearsGrow(y, z - 1);
    }
  }

  lemma {:induction false} DayNumberWithinYear(t: Utc)
    requires Valid(t)
    ensures DaysBeforeYear(t.year) < DayNumber(t) <= DaysBeforeYear(t.year) + (if IsLeap(t.year) then 366 else 365)
  {
    YearLength(t.year);
    if t.month < 12 {
      MonthsGrow(t.year, t.month, 12);
    }
  }

  lemma {:induction false} FieldsBeforeInTime(a: Utc, b: Utc)
    requires Valid(a) && Valid(b) && FieldsBefore(a, b)
    ensures Instant(a) < Instant(b)
  {
    if a.year < b.year {
      DayNumberWithinYear(a);
      DayNumberWithinYear(b);
      YearsGrow(a.year, b.year);
    } else if a.month < b.month {
      MonthsGrow(a.year, a.month, b.month);
    }
  }

  /** Fixed-width UTC stamps compare as text exactly as they do in time (RFC 3339, section 5.1). */
  lemma {:induction false} TextOrderIsTimeOrder(a: Utc, b: Utc)
    requires Valid(a) && Valid(b)
    ensures Less(Format(a), Format(b)) <==> Instant(a) < Instant(b)
    ensures Format(a) == Format(b) <==> Instant(a) == Instant(b)
  {
    FormatFieldOrder(a, b);
    FormatFieldOrder(b, a);
    LessConnected(Format(a), Format(b));
    LessIrreflexive(Format(a));
    if FieldsBefore(a, b) {
      FieldsBeforeInTime(a, b);
    } else if FieldsBefore(b, a) {
      FieldsBeforeInTime(b, a);
    } else {
      assert a == b;
    }
  }

  predicate AllDigits(s: string) {
    forall i :: 0 <= i < |s| ==> '0' <= s[i] <= '9'
  }

  /** `time-offset` of RFC 3339, section 5.6. */
  predicate IsOffset(s: string) {
    || s == "Z" || s == "z"
    || (|s| == 6 && (s[0] == '+' || s[0] == '-') && AllDigits(s[1..3]) && s[3] == ':' && AllDigits(s[4..6]))
  }

  /** What follows the seconds: an optional fraction and the offset. */
  predicate IsFractionAndOffset(s: string) {
    || IsOffset(s)
    || exists n :: 2 <= n <= |s| && s[0] == '.' && AllDigits(s[1..n]) && IsOffset(s[n..])
  }

  /** Date and time of day, with a letter `d` for each digit. */
  const DATE_AND_TIME := "dddd-dd-ddTdd:dd:dd"

  predicate FitsAt(s: string, pattern: string, i: nat)
    requires i < |s| == |pattern|
  {
    if pattern[i] == 'd' then '0' <= s[i] <= '9' else s[i] == pattern[i] || (s[i] == 't' && pattern[i] == 'T')
  }

  predicate Fits(s: string, pattern: string) {
    |s| == |pattern| && forall i :: 0 <= i < |s| ==> FitsAt(s, pattern, i)
  }

  /** `date-time` of RFC 3339, section 5.6, without the range comments on its fields. */
  predicate IsDateTime(s: string) {
    |s| >= 20 && Fits(s[..19], DATE_AND_TIME) && IsFractionAndOffset(s[19..])
  }

  lemma {:induction false} PadIsDigits(n: nat, w: nat)
    ensures AllDigits(Pad(n, w))
  {
    if w > 0 {
      PadIsDigits(n / 10, w - 1);
    }
  }

  /** A field of two digits with the character before it continues a text that fits. */
  lemma {:induction false} FieldFits(s: string, pattern: string, c: char, n: nat, longer: string)
    requires Fits(s, pattern) && c != 'd' && longer == pattern + [c, 'd', 'd']
    ensures Fits(s + [c] + Pad(n, 2), longer)
  {
    PadIsDigits(n, 2);
    forall i | 0 <= i < |longer|
      ensures FitsAt(s + [c] + Pad(n, 2), longer, i)
    {
      assert i < |s| ==> FitsAt(s, pattern, i);
    }
  }

  /** What the service stores is an RFC 3339 `date-time`. */
  lemma {:induction false} FormatIsDateTime(t: Utc)
    ensures IsDateTime(Format(t))
  {
    var year := Pad(t.year, 4);
    var month := year + "-" + Pad(t.month, 2);
    var day := month + "-" + Pad(t.day, 2);
    var hour := day + "T" + Pad(t.hour, 2);
    var minute := hour + ":" + Pad(t.minute, 2);
    var second := minute + ":" + Pad(t.second, 2);
    PadIsDigits(t.year, 4);
    FieldFits(year, "dddd", '-', t.month, "dddd-dd");
    FieldFits(month, "dddd-dd", '-', t.day, "dddd-dd-dd");
    FieldFits(day, "dddd-dd-dd", 'T', t.hour, "dddd-dd-ddTdd");
    FieldFits(hour, "dddd-dd-ddTdd", ':', t.minute, "dddd-dd-ddTdd:dd");
    FieldFits(minute, "dddd-dd-ddTdd:dd", ':', t.second, DATE_AND_TIME);
    assert Format(t) == second + "Z";
    assert Format(t)[..19] == second && Format(t)[19..] == "Z";
  }
}
