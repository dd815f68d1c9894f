/**
 UTC time stamps as the writer prints them, `YYYYMMDDTHHMMSSZ`, with the proleptic Gregorian calendar they
 rest on. Days are counted from 0000-01-01.
 */
module Civil {
  import opened Wrappers
  import opened Model

  const EPOCH_DAY: int := 719528          // 1970-01-01
  const DAY: int := 86400
  const NANOS: int := 1_000_000_000
  const CYCLE: int := 146097              // days in 400 years

  predicate Leap(y: int) {
    y % 4 == 0 && (y % 100 != 0 || y % 400 == 0)
  }

  function YearLen(y: int): int {
    if Leap(y) then 366 else 365
  }

  /** Day number of January 1 of year `y`. */
  function YearStart(y: int): int {
    365 * y + (y + 3) / 4 - (y + 99) / 100 + (y + 399) / 400
  }

  lemma FourthsStep(y: int)
    ensures (y + 4) / 4 - (y + 3) / 4 == if y % 4 == 0 then 1 else 0
  {
  }

  lemma CenturiesStep(y: int)
    ensures (y + 100) / 100 - (y + 99) / 100 == if y % 100 == 0 then 1 else 0
  {
  }

  lemma CyclesStep(y: int)
    ensures (y + 400) / 400 - (y + 399) / 400 == if y % 400 == 0 then 1 else 0
  {
  }

  lemma ShiftBy4(q: int, z: int)
    ensures (4 * q + z) / 4 == q + z / 4
  {
  }

  lemma ShiftBy100(q: int, z: int)
    ensures (100 * q + z) / 100 == q + z / 100
  {
  }

  lemma ShiftBy400(q: int, z: int)
    ensures (400 * q + z) / 400 == q + z / 400
  {
  }

  lemma LeapRules(y: int)
    ensures y % 400 == 0 ==> y % 100 == 0
    ensures y % 100 == 0 ==> y % 4 == 0
  {
    if y % 400 == 0 {
      ShiftBy100(4 * (y / 400), 0);
    }
    if y % 100 == 0 {
      ShiftBy4(25 * (y / 100), 0);
    }
  }

  lemma YearStep(y: int)
    ensures YearStart(y + 1) == YearStart(y) + YearLen(y)
  {
    FourthsStep(y);
    CenturiesStep(y);
    CyclesStep(y);
    LeapRules(y);
  }

  lemma YearCycle(q: int, y: int)
    ensures YearStart(400 * q + y) == CYCLE * q + YearStart(y)
  {
    ShiftBy4(100 * q, y + 3);
    ShiftBy100(4 * q, y + 99);
    ShiftBy400(q, y + 399);
  }

  /** The year in `[y, 400)` that day `d` of the cycle falls in. */
  function YearFrom(d: int, y: int): (r: int)
    requires 0 <= y < 400 && YearStart(y) <= d < CYCLE
    ensures y <= r < 400 && YearStart(r) <= d < YearStart(r + 1)
    decreases 400 - y
  {
    if d < YearStart(y + 1) then y
    else
      assert y < 399;
      YearFrom(d, y + 1)
  }

  function YearOf(day: int): (y: int)
    ensures YearStart(y) <= day < YearStart(y + 1)
  {
    var q, d := day / CYCLE, day % CYCLE;
    var y := YearFrom(d, 0);
    YearCycle(q, y);
    YearCycle(q, y + 1);
    400 * q + y
  }

  /** Day of the year on which month `m` starts. */
  function MonthStart(leap: bool, m: int): int
    requires 1 <= m <= 13
  {
    var l := if leap then 1 else 0;
    match m
    case 1 => 0
    case 2 => 31
    case 3 => 59 + l
    case 4 => 90 + l
    case 5 => 120 + l
    case 6 => 151 + l
    case 7 => 181 + l
    case 8 => 212 + l
    case 9 => 243 + l
    case 10 => 273 + l
    case 11 => 304 + l
    case 12 => 334 + l
    case _ => 365 + l
  }

  function MonthFrom(leap: bool, n: int, m: int): (r: int)
    requires 1 <= m <= 12 && MonthStart(leap, m) <= n < MonthStart(leap, 13)
    ensures m <= r <= 12 && MonthStart(leap, r) <= n < MonthStart(leap, r + 1)
    decreases 12 - m
  {
    if n < MonthStart(leap, m + 1) then m else MonthFrom(leap, n, m + 1)
  }

  predicate ValidDay(leap: bool, m: int, d: int) {
    1 <= m <= 12 && 1 <= d <= MonthStart(leap, m + 1) - MonthStart(leap, m)
  }

  datatype Fields = Fields(year: int, month: int, day: int, hour: int, minute: int, second: int)

  predicate ValidFields(c: Fields) {
    && ValidDay(Leap(c.year), c.month, c.day)
    && 0 <= c.hour < 24 && 0 <= c.minute < 60 && 0 <= c.second < 60
  }

  /** Whole seconds since the epoch, rounded down as chrono does. */
  function Seconds(t: Instant): int {
    t / NANOS
  }

  /** Month and day of the month of day `n` of a year. */
  function MonthDay(leap: bool, n: int): (int, int)
    requires 0 <= n < MonthStart(leap, 13)
  {
    var m := MonthFrom(leap, n, 1);
    (m, n - MonthStart(leap, m) + 1)
  }

  function FieldsOf(t: Instant): (c: Fields)
    ensures ValidFields(c)
  {
    var s := Seconds(t);
    var day, tod := s / DAY + EPOCH_DAY, s % DAY;
    var y := YearOf(day);
    YearStep(y);
    var md := MonthDay(Leap(y), day - YearStart(y));
    Fields(y, md.0, md.1, tod / 3600, tod % 3600 / 60, tod % 60)
  }

  function DayOf(c: Fields): int
    requires 1 <= c.month <= 12
  {
    YearStart(c.year) + MonthStart(Leap(c.year), c.month) + c.day - 1
  }

  function SecondsOf(c: Fields): int
    requires 1 <= c.month <= 12
  {
    (DayOf(c) - EPOCH_DAY) * DAY + c.hour * 3600 + c.minute * 60 + c.second
  }

  function InstantOf(c: Fields): Instant
    requires 1 <= c.month <= 12
  {
    SecondsOf(c) * NANOS
  }

  lemma TimeParts(tod: int)
    requires 0 <= tod < DAY
    ensures tod / 3600 * 3600 + tod % 3600 / 60 * 60 + tod % 60 == tod
  {
    var m := tod % 3600;
    assert tod == 3600 * (tod / 3600) + m;
    assert m == 60 * (m / 60) + m % 60;
    assert tod % 60 == m % 60;
  }

  lemma SecondsOfParts(c: Fields, s: int)
    requires 1 <= c.month <= 12 && DayOf(c) == s / DAY + EPOCH_DAY
    requires c.hour == s % DAY / 3600 && c.minute == s % DAY % 3600 / 60 && c.second == s % DAY % 60
    ensures SecondsOf(c) == s
  {
    TimeParts(s % DAY);
  }

  /** Calendar fields and instants are inverse, up to the part of a second the fields do not hold. */
  lemma InstantInvertsFields(t: Instant)
    ensures InstantOf(FieldsOf(t)) == Seconds(t) * NANOS
  {
    SecondsOfParts(FieldsOf(t), Seconds(t));
  }

  lemma {:induction false} YearStartMonotone(a: int, b: int)
    requires a <= b
    ensures YearStart(a) + 365 * (b - a) <= YearStart(b)
    decreases b - a
  {
    if a < b {
      YearStartMonotone(a, b - 1);
      YearStep(b - 1);
    }
  }

  lemma MonthStartMonotone(leap: bool, a: int, b: int)
    requires 1 <= a <= b <= 13
    ensures MonthStart(leap, a) <= MonthStart(leap, b)
  {
  }

  lemma MonthsInjective(leap: bool, m: int, d: int, m': int, d': int)
    requires ValidDay(leap, m, d) && ValidDay(leap, m', d')
    requires MonthStart(leap, m) + d == MonthStart(leap, m') + d'
    ensures m == m' && d == d'
  {
    if m < m' {
      MonthStartMonotone(leap, m + 1, m');
    } else if m' < m {
      MonthStartMonotone(leap, m' + 1, m);
    }
  }

  lemma YearsInjective(y: int, n: int, y': int, n': int)
    requires 0 <= n < YearLen(y) && 0 <= n' < YearLen(y') && YearStart(y) + n == YearStart(y') + n'
    ensures y == y'
  {
    YearStep(y);
    YearStep(y');
    if y < y' {
      YearStartMonotone(y + 1, y');
    } else if y' < y {
      YearStartMonotone(y' + 1, y);
    }
  }

  lemma DaysInjective(a: Fields, b: Fields)
    requires ValidFields(a) && ValidFields(b) && DayOf(a) == DayOf(b)
    ensures a.year == b.year && a.month == b.month && a.day == b.day
  {
    MonthStartMonotone(Leap(a.year), 1, a.month);
    MonthStartMonotone(Leap(a.year), a.month + 1, 13);
    MonthStartMonotone(Leap(b.year), 1, b.month);
    MonthStartMonotone(Leap(b.year), b.month + 1, 13);
    YearsInjective(a.year, MonthStart(Leap(a.year), a.month) + a.day - 1,
                   b.year, MonthStart(Leap(b.year), b.month) + b.day - 1);
    MonthsInjective(Leap(a.year), a.month, a.day, b.month, b.day);
  }

  /** Two valid calendar readings of one second are the same reading. */
  lemma SecondsInjective(a: Fields, b: Fields)
    requires ValidFields(a) && ValidFields(b) && SecondsOf(a) == SecondsOf(b)
    ensures a == b
  {
    var x := a.hour * 3600 + a.minute * 60 + a.second;
    var y := b.hour * 3600 + b.minute * 60 + b.second;
    assert (DayOf(a) - DayOf(b)) * DAY == y - x;
    DaysInjective(a, b);
  }

  lemma ReadingUnique(t: Instant, a: Fields, b: Fields)
    requires ValidFields(a) && ValidFields(b)
    requires InstantOf(a) == Seconds(t) * NANOS && InstantOf(b) == t
    ensures a == b
  {
    assert SecondsOf(b) == Seconds(t) == SecondsOf(a);
    SecondsInjective(a, b);
  }

  /** ... and every valid calendar reading is the reading of its instant. */
  lemma FieldsInvertInstant(t: Instant, c: Fields)
    requires ValidFields(c) && InstantOf(c) == t
    ensures FieldsOf(t) == c
  {
    InstantInvertsFields(t);
    ReadingUnique(t, FieldsOf(t), c);
  }

  // ----- digits ---------------------------------------------------------------------

  function DigitChar(d: int): char
    requires 0 <= d < 10
  {
    ('0' as int + d) as char
  }

  predicate IsDigit(c: char) {
    '0' <= c <= '9'
  }

  /** The last `width` decimal digits of `n`. */
  function Padded(n: nat, width: nat): (s: string)
    ensures |s| == width
  {
    if width == 0 then "" else Padded(n / 10, width - 1) + [DigitChar(n % 10)]
  }

  function Decimal(n: nat): (s: string)
    ensures s != ""
  {
    if n < 10 then [DigitChar(n)] else Decimal(n / 10) + [DigitChar(n % 10)]
  }

  function ReadDigits(s: string): Option<nat> {
    if s == "" then Some(0)
    else
      var init, c := ReadDigits(s[..|s| - 1]), s[|s| - 1];
      if init.Some? && IsDigit(c) then Some(10 * init.value + (c as int - '0' as int)) else None
  }

  function ReadNat(s: string): Option<nat> {
    if s == "" then None else ReadDigits(s)
  }

  function Power10(k: nat): nat {
    if k == 0 then 1 else 10 * Power10(k - 1)
  }

  lemma ReadSnoc(s: string, d: int)
    requires 0 <= d < 10
    ensures ReadDigits(s + [DigitChar(d)]) == if ReadDigits(s).Some? then Some(10 * ReadDigits(s).value + d) else None
  {
    assert (s + [DigitChar(d)])[..|s|] == s;
  }

  lemma {:induction false} ReadInvertsPadded(n: nat, width: nat)
    requires n < Power10(width)
    ensures ReadDigits(Padded(n, width)) == Some(n)
  {
    if width > 0 {
      ReadInvertsPadded(n / 10, width - 1);
      ReadSnoc(Padded(n / 10, width - 1), n % 10);
    }
  }

  lemma {:induction false} ReadInvertsDecimal(n: nat)
    ensures ReadNat(Decimal(n)) == Some(n)
  {
    if n < 10 {
      ReadSnoc("", n);
      assert "" + [DigitChar(n)] == [DigitChar(n)];
    } else {
      ReadInvertsDecimal(n / 10);
      ReadSnoc(Decimal(n / 10), n % 10);
    }
  }

  lemma {:induction false} DigitsAreDigits(n: nat, width: nat)
    ensures forall c | c in Padded(n, width) :: IsDigit(c)
    ensures forall c | c in Decimal(n) :: IsDigit(c)
    decreases n + width
  {
    if width > 0 {
      DigitsAreDigits(n / 10, width - 1);
    }
    if n >= 10 {
      DigitsAreDigits(n / 10, width);
    }
  }

  // ----- the stamp ------------------------------------------------------------------

  /** chrono prints years outside 0..9999 with an explicit sign. */
  function YearText(y: int): string {
    if 0 <= y < 10_000 then Padded(y, 4)
    else
      var n: nat := if y < 0 then -y else y;
      [if y < 0 then '-' else '+'] + if n < 10_000 then Padded(n, 4) else Decimal(n)
  }

  function StampText(c: Fields): string
    requires ValidFields(c)
  {
    YearText(c.year) + Padded(c.month, 2) + Padded(c.day, 2)
      + ['T'] + Padded(c.hour, 2) + Padded(c.minute, 2) + Padded(c.second, 2) + ['Z']
  }

  /** `%Y%m%dT%H%M%SZ` */
  function Stamp(t: Instant): string {
    StampText(FieldsOf(t))
  }

  /** Reader for the UTC form of DATE-TIME (section 3.3.5 of RFC 5545): exactly sixteen characters. */
  function ReadStamp(s: string): Option<Instant> {
    if |s| != 16 || s[8] != 'T' || s[15] != 'Z' then None
    else
      var y, mo, d := ReadDigits(s[0..4]), ReadDigits(s[4..6]), ReadDigits(s[6..8]);
      var h, mi, sec := ReadDigits(s[9..11]), ReadDigits(s[11..13]), ReadDigits(s[13..15]);
      if y.None? || mo.None? || d.None? || h.None? || mi.None? || sec.None? then None
      else
        var c := Fields(y.value, mo.value, d.value, h.value, mi.value, sec.value);
        if ValidFields(c) then Some(InstantOf(c)) else None
  }

  /** The year can be written with four digits. */
  predicate FourDigitYear(t: Instant) {
    0 <= FieldsOf(t).year < 10_000
  }

  /** The instants a DATE-TIME can hold: whole seconds of the years 0 to 9999. */
  predicate Stampable(t: Instant) {
    t % NANOS == 0 && FourDigitYear(t)
  }

  /** An instant without its fraction of a second. */
  function WholeSeconds(t: Instant): Instant {
    Seconds(t) * NANOS
  }

  lemma PowersOfTen()
    ensures Power10(2) == 100 && Power10(4) == 10_000
  {
    assert Power10(1) == 10;
    assert Power10(3) == 1000;
  }

  lemma StampParts(c: Fields)
    requires ValidFields(c) && 0 <= c.year < 10_000
    ensures var s := StampText(c);
            && |s| == 16 && s[8] == 'T' && s[15] == 'Z'
            && s[0..4] == Padded(c.year, 4) && s[4..6] == Padded(c.month, 2) && s[6..8] == Padded(c.day, 2)
            && s[9..11] == Padded(c.hour, 2) && s[11..13] == Padded(c.minute, 2) && s[13..15] == Padded(c.second, 2)
  {
    Joints(Padded(c.year, 4), Padded(c.month, 2), Padded(c.day, 2),
           Padded(c.hour, 2), Padded(c.minute, 2), Padded(c.second, 2));
  }

  lemma Joints(a: string, b: string, c: string, d: string, e: string, f: string)
    requires |a| == 4 && |b| == |c| == |d| == |e| == |f| == 2
    ensures var s := a + b + c + ['T'] + d + e + f + ['Z'];
            && |s| == 16 && s[8] == 'T' && s[15] == 'Z'
            && s[0..4] == a && s[4..6] == b && s[6..8] == c && s[9..11] == d && s[11..13] == e && s[13..15] == f
  {
  }

  lemma ReadInvertsText(c: Fields)
    requires ValidFields(c) && 0 <= c.year < 10_000
    ensures ReadStamp(StampText(c)) == Some(InstantOf(c))
  {
    StampParts(c);
    PowersOfTen();
    ReadInvertsPadded(c.year, 4);
    ReadInvertsPadded(c.month, 2);
    ReadInvertsPadded(c.day, 2);
    ReadInvertsPadded(c.hour, 2);
    ReadInvertsPadded(c.minute, 2);
    ReadInvertsPadded(c.second, 2);
  }

  lemma ReadInvertsStamp(t: Instant)
    requires 0 <= FieldsOf(t).year < 10_000
    ensures ReadStamp(Stamp(t)) == Some(Seconds(t) * NANOS)
  {
    ReadInvertsText(FieldsOf(t));
    InstantInvertsFields(t);
  }

  lemma LongYear(y: int)
    requires !(0 <= y < 10_000)
    ensures |YearText(y)| >= 5
  {
    var n: nat := if y < 0 then -y else y;
    if n >= 10_000 {
      assert |Decimal(n)| == |Decimal(n / 10)| + 1;
      assert |Decimal(n / 10)| == |Decimal(n / 10 / 10)| + 1;
      assert |Decimal(n / 10 / 10)| == |Decimal(n / 10 / 10 / 10)| + 1;
    }
  }

  lemma StampLength(t: Instant)
    ensures |Stamp(t)| >= 16
  {
    var y := FieldsOf(t).year;
    if !(0 <= y < 10_000) {
      LongYear(y);
    }
    assert |StampText(FieldsOf(t))| == |YearText(y)| + 12;
  }

  lemma LongTextUnreadable(c: Fields)
    requires ValidFields(c) && !(0 <= c.year < 10_000)
    ensures ReadStamp(StampText(c)) == None
  {
    LongYear(c.year);
    assert |StampText(c)| == |YearText(c.year)| + 12;
  }

  lemma WholeSecond(t: Instant)
    ensures Seconds(t) * NANOS == t <==> t % NANOS == 0
  {
  }

  lemma ReadStampOf(t: Instant, y: int)
    requires FieldsOf(t).year == y
    ensures ReadStamp(Stamp(t)) == if 0 <= y < 10_000 then Some(Seconds(t) * NANOS) else None
  {
    if 0 <= y < 10_000 {
      ReadInvertsStamp(t);
    } else {
      // A longer year leaves no room for the rest in sixteen characters.
      LongTextUnreadable(FieldsOf(t));
    }
  }

  /** A printed instant reads back as itself exactly when it is a whole second of a four-digit year. */
  lemma StampRoundTrip(t: Instant)
    ensures ReadStamp(Stamp(t)) == Some(t) <==> Stampable(t)
  {
    ReadStampOf(t, FieldsOf(t).year);
    WholeSecond(t);
  }

  lemma WholeSecondsAgain(t: Instant)
    ensures Seconds(WholeSeconds(t)) == Seconds(t) && WholeSeconds(t) % NANOS == 0
  {
  }

  lemma SameSecondSameFields(t: Instant, u: Instant)
    requires Seconds(t) == Seconds(u)
    ensures FieldsOf(t) == FieldsOf(u)
  {
    hide Seconds;
    hide MonthDay;
    hide YearOf;
    hide YearStart;
    hide Leap;
    hide ValidFields;
  }

  /** Dropping the fraction keeps the year, and it keeps the instant exactly when there was none. */
  lemma WholeSecondsFit(t: Instant)
    ensures FourDigitYear(WholeSeconds(t)) <==> FourDigitYear(t)
    ensures Stampable(WholeSeconds(t)) <==> FourDigitYear(t)
    ensures WholeSeconds(t) == t && FourDigitYear(t) <==> Stampable(t)
  {
    hide FieldsOf;
    WholeSecondsAgain(t);
    SameSecondSameFields(WholeSeconds(t), t);
    WholeSecond(t);
  }

  /** What a reader makes of a printed instant. */
  lemma StampReads(t: Instant)
    ensures ReadStamp(Stamp(t)) == if FourDigitYear(t) then Some(WholeSeconds(t)) else None
  {
    ReadStampOf(t, FieldsOf(t).year);
  }

  // ----- the calendar, said without its day numbers ---------------------------------

  predicate LeapYear(y: int) {
    y % 400 == 0 || (y % 4 == 0 && y % 100 != 0)
  }

  /** Thirty days hath September, April, June and November. */
  function DaysIn(year: int, month: int): int {
    if month == 2 then if LeapYear(year) then 29 else 28
    else if month in {4, 6, 9, 11} then 30
    else 31
  }

  /** The same time of the day after. */
  function NextDay(c: Fields): Fields {
    if c.day < DaysIn(c.year, c.month) then c.(day := c.day + 1)
    else if c.month < 12 then c.(month := c.month + 1, day := 1)
    else c.(year := c.year + 1, month := 1, day := 1)
  }

  /** The zero of the time line. */
  lemma EpochIsNewYear1970()
    ensures FieldsOf(0) == Fields(1970, 1, 1, 0, 0, 0)
  {
    var c := Fields(1970, 1, 1, 0, 0, 0);
    assert InstantOf(c) == 0;
    FieldsInvertInstant(0, c);
  }

  lemma DaysInMonth(year: int, month: int)
    requires 1 <= month <= 12
    ensures DaysIn(year, month) == MonthStart(Leap(year), month + 1) - MonthStart(Leap(year), month)
  {
  }

  lemma NextDayNumber(c: Fields)
    requires ValidFields(c)
    ensures ValidFields(NextDay(c)) && DayOf(NextDay(c)) == DayOf(c) + 1
  {
    DaysInMonth(c.year, c.month);
    if c.day == DaysIn(c.year, c.month) && c.month == 12 {
      YearStep(c.year);
    }
  }

  lemma NextDayInstant(c: Fields)
    requires ValidFields(c)
    ensures ValidFields(NextDay(c)) && InstantOf(NextDay(c)) == InstantOf(c) + 86400 * 1_000_000_000
  {
    hide DayOf;
    hide DaysIn;
    hide ValidFields;
    NextDayNumber(c);
  }

  lemma DayLater(t: Instant)
    ensures Seconds(t + 86400 * 1_000_000_000) == Seconds(t) + 86400
  {
  }

  /** A day later the calendar shows the next day, at the same time. With the zero this fixes it for all instants. */
  lemma DayAfterDay(t: Instant)
    ensures FieldsOf(t + 86400 * 1_000_000_000) == NextDay(FieldsOf(t))
  {
    hide FieldsOf;
    hide NextDay;
    hide InstantOf;
    hide Seconds;
    var c, u := FieldsOf(t), WholeSeconds(t + 86400 * 1_000_000_000);
    InstantInvertsFields(t);
    NextDayInstant(c);
    DayLater(t);
    assert u == InstantOf(NextDay(c));
    FieldsInvertInstant(u, NextDay(c));
    WholeSecondsAgain(t + 86400 * 1_000_000_000);
    SameSecondSameFields(u, t + 86400 * 1_000_000_000);
  }

  /** Within a day the fields count hours, minutes and seconds. */
  lemma TimeOfDay(t: Instant)
    ensures var c := FieldsOf(t); c.hour * 3600 + c.minute * 60 + c.second == t / 1_000_000_000 % 86400
  {
    hide YearOf;
    hide MonthDay;
    TimeParts(Seconds(t) % DAY);
  }

  /** Years that do not fit four digits are printed with their sign and all their digits. */
  lemma LongYearText(y: int)
    requires !(0 <= y < 10_000)
    ensures var text := YearText(y);
            && text[0] == (if y < 0 then '-' else '+') && ReadNat(text[1..]) == Some(if y < 0 then -y else y)
  {
    hide Decimal;
    hide Padded;
    var n: nat := if y < 0 then -y else y;
    var digits := if n < 10_000 then Padded(n, 4) else Decimal(n);
    assert YearText(y) == [if y < 0 then '-' else '+'] + digits && YearText(y)[1..] == digits;
    if n < 10_000 {
      PowersOfTen();
      ReadInvertsPadded(n, 4);
    } else {
      ReadInvertsDecimal(n);
    }
  }
}
