/** The session list's timestamps: closed-form Gregorian arithmetic against a recursive calendar. */
module CivilDate {
  import opened Wrappers
  import opened Decimal

  const MIN_MS := -62_167_219_200_000
  const MAX_MS := 253_402_300_799_999

  datatype DateTime = DateTime(year: int, month: int, day: int, hour: int, minute: int, second: int, millis: int)

  // ---------------------------------------------------------------- the conversion

  /** The year in a 400-year era that starts in March, from the day in the era. */
  function YearOfEra(doe: int): int {
    (doe - doe / 1460 + doe / 36_524 - doe / 146_096) / 365
  }

  /** First day of that year in the era. */
  function YearStart(yoe: int): int {
    365 * yoe + yoe / 4 - yoe / 100
  }

  function FieldsFrom(z: int, time: int, millis: int): DateTime {
    var era := z / 146_097;
    var doe := z - era * 146_097;
    var yoe := YearOfEra(doe);
    var doy := doe - YearStart(yoe);
    var mp := (5 * doy + 2) / 153;
    var day := doy - (153 * mp + 2) / 5 + 1;
    var month := mp + if mp < 10 then 3 else -9;
    var year := yoe + era * 400 + if month <= 2 then 1 else 0;
    DateTime(year, month, day, time / 3600, time / 60 % 60, time % 60, millis)
  }

  predicate InRange(ms: int) {
    MIN_MS <= ms <= MAX_MS
  }

  /** The fields that the conversion prints: every accepted millisecond becomes a date and time that
      exist, in a year of four digits, and that count back to exactly that millisecond. */
  function Fields(ms: int): (t: DateTime)
    requires InRange(ms)
    ensures Valid(t) && ToMs(t) == ms
  {
    var seconds := ms / 1000;
    var z := seconds / 86_400 + 719_468;
    RangeOfDays(ms);
    DateFound(z, seconds % 86_400, ms % 1000);
    YearInFour(z, seconds % 86_400, ms % 1000);
    ClockIs(z, seconds % 86_400, ms % 1000);
    CountsBack(ms, FieldsFrom(z, seconds % 86_400, ms % 1000));
    FieldsFrom(z, seconds % 86_400, ms % 1000)
  }

  function Format(t: DateTime): string
    requires Valid(t)
  {
    Padded(t.year, 4) + ("-" + (Padded(t.month, 2) + ("-" + (Padded(t.day, 2) + ("T" + (Padded(t.hour, 2) + (":" +
    (Padded(t.minute, 2) + (":" + (Padded(t.second, 2) + ("." + (Padded(t.millis, 3) + "Z"))))))))))))
  }

  /** `utc_date`: an accepted millisecond prints in the wire form, and the text reads back to exactly
      that millisecond under the recursive calendar. Everything else prints nothing. */
  function UtcDate(ms: int): (r: Option<string>)
    ensures r.Some? <==> InRange(ms)
    ensures r.Some? ==> WireForm(r.value) && Valid(Read(r.value)) && ToMs(Read(r.value)) == ms
  {
    if !InRange(ms) then None
    else
      FormatReads(Fields(ms));
      Some(Format(Fields(ms)))
  }

  // ---------------------------------------------------------------- the calendar

  predicate Leap(y: int) {
    y % 4 == 0 && (y % 100 != 0 || y % 400 == 0)
  }

  function YearLength(y: int): int {
    if Leap(y) then 366 else 365
  }

  function MonthLength(y: int, m: int): int {
    if m == 2 then (if Leap(y) then 29 else 28)
    else if m == 4 || m == 6 || m == 9 || m == 11 then 30
    else 31
  }

  function DaysBeforeYear(y: nat): int {
    if y == 0 then 0 else DaysBeforeYear(y - 1) + YearLength(y - 1)
  }

  function DaysBeforeMonth(y: int, m: nat): int {
    if m <= 1 then 0 else DaysBeforeMonth(y, m - 1) + MonthLength(y, m - 1)
  }

  /** A date and time of day that exist, in a year of four digits. */
  predicate Valid(t: DateTime) {
    && 0 <= t.year <= 9999 && 1 <= t.month <= 12 && 1 <= t.day <= MonthLength(t.year, t.month)
    && 0 <= t.hour < 24 && 0 <= t.minute < 60 && 0 <= t.second < 60 && 0 <= t.millis < 1000
  }

  /** Days since the first of January of the year 0. */
  function DayNumber(t: DateTime): int
    requires Valid(t)
  {
    DaysBeforeYear(t.year) + DaysBeforeMonth(t.year, t.month) + t.day - 1
  }

  const EPOCH_DAY := 719_528

  function TimeOfDay(t: DateTime): int {
    ((t.hour * 60 + t.minute) * 60 + t.second) * 1000 + t.millis
  }

  /** Milliseconds since 1970, counted by the calendar. */
  function ToMs(t: DateTime): int
    requires Valid(t)
  {
    (DayNumber(t) - EPOCH_DAY) * 86_400_000 + TimeOfDay(t)
  }

  lemma EpochDay(t: DateTime)
    requires t == DateTime(1970, 1, 1, 0, 0, 0, 0)
    ensures Valid(t) && ToMs(t) == 0
  {
    ClosedForm(t.year);
  }

  // ---------------------------------------------------------------- years

  lemma Ceil4(y: int)
    ensures (y + 3) / 4 == y / 4 + (if y % 4 == 0 then 0 else 1) && (y + 4) / 4 == y / 4 + 1
  {
    var q, r := y / 4, y % 4;
    assert y == 4 * q + r;
  }

  lemma Ceil100(y: int)
    ensures (y + 99) / 100 == y / 100 + (if y % 100 == 0 then 0 else 1) && (y + 100) / 100 == y / 100 + 1
  {
    var q, r := y / 100, y % 100;
    assert y == 100 * q + r;
  }

  lemma Ceil400(y: int)
    ensures (y + 399) / 400 == y / 400 + (if y % 400 == 0 then 0 else 1) && (y + 400) / 400 == y / 400 + 1
  {
    var q, r := y / 400, y % 400;
    assert y == 400 * q + r;
  }

  lemma Multiple100(y: int)
    ensures y % 400 == 0 ==> y % 100 == 0
  {
    var q := y / 400;
    if y == 400 * q { assert y == 100 * (4 * q); }
  }

  lemma Multiple4(y: int)
    ensures y % 100 == 0 ==> y % 4 == 0
  {
    var q := y / 100;
    if y == 100 * q { assert y == 4 * (25 * q); }
  }

  function LeapDays(y: int): int {
    (y + 3) / 4 - (y + 99) / 100 + (y + 399) / 400
  }

  lemma LeapStep(y: nat)
    ensures LeapDays(y + 1) == LeapDays(y) + if Leap(y) then 1 else 0
  {
    Ceil4(y);
    Ceil100(y);
    Ceil400(y);
    Multiple100(y);
    Multiple4(y);
  }

  lemma {:induction false} ClosedForm(y: nat)
    ensures DaysBeforeYear(y) == 365 * y + LeapDays(y)
  {
    hide LeapDays, Leap;
    if y > 0 {
      ClosedForm(y - 1);
      LeapStep(y - 1);
    } else {
      assert DaysBeforeYear(0) == 0;
      NoLeapDays();
    }
  }

  lemma NoLeapDays()
    ensures LeapDays(0) == 0
  {
  }

  /** Days before the first of March of the year `y`, counted from the year 0. */
  function MarchDays(y: int): int {
    365 * y + y / 4 - y / 100 + y / 400
  }

  function Shrunk(doe: int): int {
    doe - doe / 1460 + doe / 36_524 - doe / 146_096
  }

  lemma Quotient36524(s: int, c: int)
    requires 36_524 * c <= s < 36_524 * (c + 1)
    ensures s / 36_524 == c
  {
  }

  lemma Quotient1460(s: int, k: int)
    requires 1460 * k <= s < 1460 * (k + 1)
    ensures s / 1460 == k
  {
  }

  lemma ShrunkAtStart(y: int)
    requires 0 <= y < 400
    ensures Shrunk(MarchDays(y)) == 365 * y
  {
    hide *;
    WithinEra(y);
    Floors(y);
    YearBegin(y, y / 4, y / 100, MarchDays(y));
  }

  lemma YearBegin(y: int, k: int, c: int, s: int)
    requires 0 <= y < 400 && 4 * k <= y < 4 * k + 4 && 100 * c <= y < 100 * c + 100 && s == 365 * y + k - c
    ensures Shrunk(s) == 365 * y
  {
    hide *;
    Quotient1460(s, k);
    Quotient36524(s, c);
    Quotient146096(s);
    ShrunkWith(s, k, c);
  }

  lemma ShrunkAtEnd(y: int)
    requires 0 <= y < 400
    ensures Shrunk(MarchDays(y + 1) - 1) <= 365 * y + 364
  {
    hide *;
    if y == 399 {
      EraEnds();
      ShrunkEnds();
    } else {
      WithinEra(y + 1);
      Floors(y + 1);
      YearEnd(y + 1, (y + 1) / 4, (y + 1) / 100, MarchDays(y + 1) - 1);
    }
  }

  lemma WithinEra(y: int)
    requires 0 <= y < 400
    ensures MarchDays(y) == 365 * y + y / 4 - y / 100 == YearStart(y)
  {
  }

  lemma Floors(n: int)
    ensures 4 * (n / 4) <= n < 4 * (n / 4) + 4 && 100 * (n / 100) <= n < 100 * (n / 100) + 100
  {
  }

  lemma YearEnd(n: int, k: int, c: int, s: int)
    requires 0 < n < 400 && 4 * k <= n < 4 * k + 4 && 100 * c <= n < 100 * c + 100 && s == 365 * n + k - c - 1
    ensures Shrunk(s) <= 365 * n - 1
  {
    hide *;
    Quotient1460(s, k);
    Quotient36524(s, if n == 100 * c then c - 1 else c);
    Quotient146096(s);
    ShrunkWith(s, k, if n == 100 * c then c - 1 else c);
  }

  lemma Quotient146096(s: int)
    requires 0 <= s < 146_096
    ensures s / 146_096 == 0
  {
  }

  lemma ShrunkWith(s: int, k: int, c: int)
    requires s / 1460 == k && s / 36_524 == c && s / 146_096 == 0
    ensures Shrunk(s) == s - k + c
  {
  }

  lemma ShrunkGrows(a: int, b: int)
    requires 0 <= a <= b < 146_097
    ensures Shrunk(a) <= Shrunk(b)
  {
    assert b / 1460 - a / 1460 <= b - a;
    assert b == 146_096 ==> b / 36_524 == 4;
    assert a < 146_096 ==> a / 36_524 <= 3;
  }

  /** The closed form finds the year in which the day lies. */
  lemma YearFound(doe: int)
    requires 0 <= doe < 146_097
    ensures 0 <= YearOfEra(doe) < 400
    ensures MarchDays(YearOfEra(doe)) <= doe < MarchDays(YearOfEra(doe) + 1)
  {
    hide MarchDays, Shrunk;
    var y := YearOfEra(doe);
    ShrunkIs(doe);
    ShrunkEnds();
    EraEnds();
    ShrunkGrows(0, doe);
    ShrunkGrows(doe, 146_096);
    StartsIn(y);
    if doe < MarchDays(y) {
      ShrunkAtEnd(y - 1);
      ShrunkGrows(doe, MarchDays(y) - 1);
    }
    if MarchDays(y + 1) <= doe {
      StartsIn(y + 1);
      ShrunkAtStart(y + 1);
      ShrunkGrows(MarchDays(y + 1), doe);
    }
  }

  lemma ShrunkIs(doe: int)
    ensures YearOfEra(doe) == Shrunk(doe) / 365
  {
  }

  lemma ShrunkEnds()
    ensures Shrunk(0) == 0 && Shrunk(146_096) == 365 * 400 - 1
  {
    hide MarchDays;
  }

  lemma EraEnds()
    ensures MarchDays(0) == 0 && MarchDays(400) == 146_097
  {
    hide Shrunk;
  }

  lemma StartsIn(y: int)
    requires 0 <= y < 400
    ensures 0 <= MarchDays(y) < 146_097
  {
  }

  /** One era is the calendar's period. */
  lemma EraShift(era: int, y: int)
    ensures MarchDays(y + 400 * era) == MarchDays(y) + 146_097 * era
  {
    assert (y + 400 * era) / 4 == y / 4 + 100 * era;
    assert (y + 400 * era) / 100 == y / 100 + 4 * era;
    assert (y + 400 * era) / 400 == y / 400 + era;
  }

  // ---------------------------------------------------------------- months

  lemma MonthSums(y: int, m: nat)
    requires 3 <= m <= 12
    ensures DaysBeforeMonth(y, m) == (if Leap(y) then 60 else 59) + (153 * (m - 3) + 2) / 5
  {
    hide Leap;
    var sums := [DaysBeforeMonth(y, 1), DaysBeforeMonth(y, 2), DaysBeforeMonth(y, 3), DaysBeforeMonth(y, 4),
                 DaysBeforeMonth(y, 5), DaysBeforeMonth(y, 6), DaysBeforeMonth(y, 7), DaysBeforeMonth(y, 8)];
  }

  /** The day of a March-based year falls in the month that the closed form finds. */
  lemma MonthFound(doy: int, next: int)
    requires 0 <= doy <= 365 && (doy == 365 ==> Leap(next))
    ensures var mp := (5 * doy + 2) / 153;
            var day := doy - (153 * mp + 2) / 5 + 1;
            0 <= mp < 12 && 1 <= day <= (if mp < 10 then MonthLength(1, mp + 3) else MonthLength(next, mp - 9))
  {
  }

  // ---------------------------------------------------------------- the inverse

  lemma DaysThroughFebruary(y: nat)
    ensures DaysBeforeYear(y) + (if Leap(y) then 60 else 59) == MarchDays(y) + 60
  {
    ClosedForm(y);
    Ceil4(y);
    Ceil100(y);
    Ceil400(y);
    Multiple100(y);
    Multiple4(y);
    hide DaysBeforeYear;
  }

  lemma MarchYear(y: int)
    ensures MarchDays(y + 1) - MarchDays(y) == YearLength(y + 1)
  {
    assert (y + 1) / 4 == y / 4 + if (y + 1) % 4 == 0 then 1 else 0;
    assert (y + 1) / 100 == y / 100 + if (y + 1) % 100 == 0 then 1 else 0;
    assert (y + 1) / 400 == y / 400 + if (y + 1) % 400 == 0 then 1 else 0;
    assert (y + 1) % 400 == 0 ==> (y + 1) % 100 == 0;
    assert (y + 1) % 100 == 0 ==> (y + 1) % 4 == 0;
  }

  lemma MarchBounds(y: int)
    ensures y <= -1 ==> MarchDays(y) <= -366
    ensures y >= 10_000 ==> MarchDays(y) >= 3_652_425
    ensures MarchDays(-1) == -366 && MarchDays(0) == 0 && MarchDays(9999) == 3_652_059
  {
  }

  /** The March-based year of a day number, and the day in it. */
  lemma YearAndDay(z: int)
    ensures var era := z / 146_097;
            var doe := z - era * 146_097;
            var year := YearOfEra(doe) + era * 400;
            && z == MarchDays(year) + (doe - YearStart(YearOfEra(doe)))
            && 0 <= doe - YearStart(YearOfEra(doe)) < YearLength(year + 1)
  {
    hide MarchDays, YearOfEra, YearLength;
    var era := z / 146_097;
    var doe := z - era * 146_097;
    var yoe := YearOfEra(doe);
    YearFound(doe);
    WithinEra(yoe);
    EraShift(era, yoe);
    EraShift(era, yoe + 1);
    MarchYear(yoe + era * 400);
  }

  lemma JanuaryFirst(y: int)
    requires y >= -1
    ensures DaysBeforeYear(y + 1) == MarchDays(y) + 366
  {
    hide MarchDays, DaysBeforeYear;
    DaysThroughFebruary(y + 1);
    MarchYear(y);
  }

  ghost predicate DateIs(t: DateTime, z: int) {
    && 0 <= t.year && 1 <= t.month <= 12 && 1 <= t.day <= MonthLength(t.year, t.month)
    && DaysBeforeYear(t.year) + DaysBeforeMonth(t.year, t.month) + t.day - 1 == z + 60
  }

  /** The date that the closed form computes is the one with that day number. */
  lemma DateFound(z: int, time: int, millis: int)
    requires -60 <= z
    ensures DateIs(FieldsFrom(z, time, millis), z)
  {
    hide MarchDays, YearOfEra, YearStart, DaysBeforeYear, DaysBeforeMonth;
    var era := z / 146_097;
    var doe := z - era * 146_097;
    var year := YearOfEra(doe) + era * 400;
    var doy := doe - YearStart(YearOfEra(doe));
    YearAndDay(z);
    MarchBounds(year + 1);
    MarchYear(year);
    MarchBounds(year);
    MonthFound(doy, year + 1);
    var mp := (5 * doy + 2) / 153;
    if mp < 10 {
      MonthSums(year, mp + 3);
      DaysThroughFebruary(year);
    } else {
      JanuaryFirst(year);
      EarlyMonths(year + 1);
    }
  }

  lemma EarlyMonths(y: int)
    ensures DaysBeforeMonth(y, 1) == 0 && DaysBeforeMonth(y, 2) == 31
  {
  }

  lemma YearInFour(z: int, time: int, millis: int)
    requires -60 <= z < 3_652_365
    ensures FieldsFrom(z, time, millis).year <= 9999
  {
    hide MarchDays, YearOfEra, YearStart, YearLength;
    var era := z / 146_097;
    var doe := z - era * 146_097;
    var year := YearOfEra(doe) + era * 400;
    YearAndDay(z);
    MarchBounds(year);
    MarchBounds(9999);
  }

  lemma ClockFound(time: int, millis: int, t: DateTime)
    requires 0 <= time < 86_400 && 0 <= millis < 1000
    requires t.hour == time / 3600 && t.minute == time / 60 % 60 && t.second == time % 60 && t.millis == millis
    ensures 0 <= t.hour < 24 && 0 <= t.minute < 60 && 0 <= t.second < 60 && TimeOfDay(t) == time * 1000 + millis
  {
  }

  lemma RangeOfDays(ms: int)
    requires InRange(ms)
    ensures -60 <= ms / 1000 / 86_400 + 719_468 < 3_652_365
  {
  }

  lemma CountsBack(ms: int, t: DateTime)
    requires DateIs(t, ms / 1000 / 86_400 + 719_468) && t.year <= 9999
    requires var time := ms / 1000 % 86_400;
             t.hour == time / 3600 && t.minute == time / 60 % 60 && t.second == time % 60 && t.millis == ms % 1000
    ensures Valid(t) && ToMs(t) == ms
  {
    hide DaysBeforeYear, DaysBeforeMonth, MonthLength;
    ClockFound(ms / 1000 % 86_400, ms % 1000, t);
  }

  lemma ClockIs(z: int, time: int, millis: int)
    ensures var t := FieldsFrom(z, time, millis);
            t.hour == time / 3600 && t.minute == time / 60 % 60 && t.second == time % 60 && t.millis == millis
  {
  }

  // ---------------------------------------------------------------- order

  predicate Earlier(a: DateTime, b: DateTime) {
    || a.year < b.year
    || (a.year == b.year && (
        || a.month < b.month
        || (a.month == b.month && (
            || a.day < b.day
            || (a.day == b.day && (
                || a.hour < b.hour
                || (a.hour == b.hour && (
                    || a.minute < b.minute
                    || (a.minute == b.minute && (
                        || a.second < b.second
                        || (a.second == b.second && a.millis < b.millis)))))))))))
  }

  lemma {:induction false} YearsGrow(a: nat, b: nat)
    requires a <= b
    ensures DaysBeforeYear(a) <= DaysBeforeYear(b)
    decreases b - a
  {
    if a < b { YearsGrow(a, b - 1); }
  }

  lemma {:induction false} MonthsGrow(y: int, a: nat, b: nat)
    requires 1 <= a <= b
    ensures DaysBeforeMonth(y, a) <= DaysBeforeMonth(y, b)
    decreases b - a
  {
    if a < b { MonthsGrow(y, a, b - 1); }
  }

  lemma YearOfMonths(y: int)
    ensures DaysBeforeMonth(y, 13) == YearLength(y)
  {
    MonthSums(y, 12);
    assert DaysBeforeMonth(y, 13) == DaysBeforeMonth(y, 12) + MonthLength(y, 12);
  }

  lemma EarlierYear(a: DateTime, b: DateTime)
    requires Valid(a) && Valid(b) && a.year < b.year
    ensures DayNumber(a) < DayNumber(b)
  {
    MonthsGrow(a.year, a.month + 1, 13);
    YearOfMonths(a.year);
    assert DaysBeforeMonth(a.year, a.month + 1) == DaysBeforeMonth(a.year, a.month) + MonthLength(a.year, a.month);
    YearsGrow(a.year + 1, b.year);
    MonthsGrow(b.year, 1, b.month);
    hide YearLength, MonthLength;
    assert DaysBeforeYear(a.year + 1) == DaysBeforeYear(a.year) + YearLength(a.year);
  }

  lemma EarlierDay(a: DateTime, b: DateTime)
    requires Valid(a) && Valid(b) && a.year == b.year
    requires a.month < b.month || (a.month == b.month && a.day < b.day)
    ensures DayNumber(a) < DayNumber(b)
  {
    if a.month < b.month {
      MonthsGrow(a.year, a.month + 1, b.month);
      hide MonthLength;
      assert DaysBeforeMonth(a.year, a.month + 1) == DaysBeforeMonth(a.year, a.month) + MonthLength(a.year, a.month);
    }
  }

  lemma DayLength(t: DateTime)
    requires Valid(t)
    ensures 0 <= TimeOfDay(t) < 86_400_000
  {
  }

  lemma EarlierIsLess(a: DateTime, b: DateTime)
    requires Valid(a) && Valid(b) && Earlier(a, b)
    ensures ToMs(a) < ToMs(b)
  {
    hide DayNumber;
    DayLength(a);
    DayLength(b);
    if a.year < b.year {
      EarlierYear(a, b);
    } else if a.month < b.month || (a.month == b.month && a.day < b.day) {
      EarlierDay(a, b);
    } else {
      SameDay(a, b);
    }
  }

  lemma SameDay(a: DateTime, b: DateTime)
    requires Valid(a) && Valid(b) && a.year == b.year && a.month == b.month && a.day == b.day
    ensures DayNumber(a) == DayNumber(b)
  {
  }

  /** The calendar order of valid dates is the order of their milliseconds. */
  lemma EarlierIffLess(a: DateTime, b: DateTime)
    requires Valid(a) && Valid(b)
    ensures Earlier(a, b) <==> ToMs(a) < ToMs(b)
    ensures a == b <==> ToMs(a) == ToMs(b)
  {
    hide ToMs;
    if Earlier(a, b) {
      EarlierIsLess(a, b);
    } else if Earlier(b, a) {
      EarlierIsLess(b, a);
    } else {
      assert a == b;
    }
  }

  lemma FirstMs(t: DateTime)
    requires t == DateTime(0, 1, 1, 0, 0, 0, 0)
    ensures Valid(t) && ToMs(t) == MIN_MS
  {
    assert DaysBeforeYear(t.year) == 0 && DaysBeforeMonth(t.year, t.month) == 0;
    hide DaysBeforeYear, DaysBeforeMonth;
  }

  lemma LastMs(t: DateTime)
    requires t == DateTime(9999, 12, 31, 23, 59, 59, 999)
    ensures Valid(t) && ToMs(t) == MAX_MS
  {
    ClosedForm(t.year);
    MonthSums(t.year, t.month);
    hide DaysBeforeYear, DaysBeforeMonth;
    assert LeapDays(t.year) == 2425;
  }

  /** The accepted range is exactly the four-digit years: every valid date comes from one
      accepted millisecond. */
  lemma EveryDateIsReached(t: DateTime)
    requires Valid(t)
    ensures exists ms | InRange(ms) :: Fields(ms) == t
  {
    hide ToMs, Fields, DayNumber;
    var first, last := DateTime(0, 1, 1, 0, 0, 0, 0), DateTime(9999, 12, 31, 23, 59, 59, 999);
    FirstMs(first);
    LastMs(last);
    EarlierIffLess(t, first);
    EarlierIffLess(last, t);
    EarlierIffLess(Fields(ToMs(t)), t);
  }

  // ---------------------------------------------------------------- text

  predicate Less(a: string, b: string) {
    if a == "" || b == "" then a == "" && b != "" else a[0] < b[0] || (a[0] == b[0] && Less(a[1..], b[1..]))
  }

  lemma DigitOrder(n: nat, m: nat)
    requires n < 10 && m < 10
    ensures Less([Digit(n)], [Digit(m)]) <==> n < m
  {
  }

  lemma {:induction false} LessParts(a: string, b: string, x: string, y: string)
    requires |a| == |b|
    ensures Less(a + x, b + y) <==> Less(a, b) || (a == b && Less(x, y))
    ensures a + x == b + y <==> a == b && x == y
    decreases |a|
  {
    if a == "" {
      assert a + x == x && b + y == y;
    } else {
      assert (a + x)[1..] == a[1..] + x && (b + y)[1..] == b[1..] + y;
      LessParts(a[1..], b[1..], x, y);
      assert a == [a[0]] + a[1..] && b == [b[0]] + b[1..];
      assert (a + x)[..|a|] == a && (b + y)[..|b|] == b && (a + x)[|a|..] == x && (b + y)[|b|..] == y;
    }
  }

  lemma {:induction false} PaddedOrder(n: nat, m: nat, w: nat)
    requires n < PowerOfTen(w) && m < PowerOfTen(w)
    ensures Less(Padded(n, w), Padded(m, w)) <==> n < m
    ensures Padded(n, w) == Padded(m, w) <==> n == m
    decreases w
  {
    if w > 0 {
      PaddedOrder(n / 10, m / 10, w - 1);
      PaddedReads(n / 10, w - 1);
      PaddedReads(m / 10, w - 1);
      LessParts(Padded(n / 10, w - 1), Padded(m / 10, w - 1), [Digit(n % 10)], [Digit(m % 10)]);
      DigitOrder(n % 10, m % 10);
      DigitOrder(m % 10, n % 10);
      hide Less, Digit;
    }
  }

  /** One padded field and the fixed text behind it, in front of the rest. */
  lemma FieldOrder(n: nat, m: nat, w: nat, sep: string, x: string, y: string)
    requires n < PowerOfTen(w) && m < PowerOfTen(w)
    ensures Less(Padded(n, w) + (sep + x), Padded(m, w) + (sep + y)) <==> n < m || (n == m && Less(x, y))
  {
    PaddedReads(n, w);
    PaddedReads(m, w);
    PaddedOrder(n, m, w);
    LessParts(Padded(n, w), Padded(m, w), sep + x, sep + y);
    LessParts(sep, sep, x, y);
    NotLess(sep);
  }

  lemma {:induction false} NotLess(s: string)
    ensures !Less(s, s)
  {
    if s != "" { NotLess(s[1..]); }
  }

  lemma Powers()
    ensures PowerOfTen(2) == 100 && PowerOfTen(3) == 1000 && PowerOfTen(4) == 10_000
  {
    assert PowerOfTen(1) == 10;
  }

  lemma FormatOrder(a: DateTime, b: DateTime)
    requires Valid(a) && Valid(b)
    ensures Less(Format(a), Format(b)) <==> Earlier(a, b)
  {
    hide Less, Padded, PowerOfTen;
    Powers();
    var a7, b7 := Padded(a.millis, 3) + "Z", Padded(b.millis, 3) + "Z";
    var a6, b6 := Padded(a.second, 2) + ("." + a7), Padded(b.second, 2) + ("." + b7);
    var a5, b5 := Padded(a.minute, 2) + (":" + a6), Padded(b.minute, 2) + (":" + b6);
    var a4, b4 := Padded(a.hour, 2) + (":" + a5), Padded(b.hour, 2) + (":" + b5);
    var a3, b3 := Padded(a.day, 2) + ("T" + a4), Padded(b.day, 2) + ("T" + b4);
    var a2, b2 := Padded(a.month, 2) + ("-" + a3), Padded(b.month, 2) + ("-" + b3);
    MillisOrder(a.millis, b.millis);
    FieldOrder(a.second, b.second, 2, ".", a7, b7);
    FieldOrder(a.minute, b.minute, 2, ":", a6, b6);
    FieldOrder(a.hour, b.hour, 2, ":", a5, b5);
    FieldOrder(a.day, b.day, 2, "T", a4, b4);
    FieldOrder(a.month, b.month, 2, "-", a3, b3);
    FieldOrder(a.year, b.year, 4, "-", a2, b2);
  }

  lemma MillisOrder(n: nat, m: nat)
    requires n < 1000 && m < 1000
    ensures Less(Padded(n, 3) + "Z", Padded(m, 3) + "Z") <==> n < m
  {
    hide Padded;
    Powers();
    assert "Z" == "Z" + "";
    FieldOrder(n, m, 3, "Z", "", "");
  }

  /** The fixed-width strings sort chronologically, and no two milliseconds share one. */
  lemma DatesSort(a: int, b: int)
    requires InRange(a) && InRange(b)
    ensures Less(UtcDate(a).value, UtcDate(b).value) <==> a < b
    ensures UtcDate(a) == UtcDate(b) <==> a == b
  {
    hide Less, Format, Earlier, Fields, Valid, ToMs;
    FormatOrder(Fields(a), Fields(b));
    FormatOrder(Fields(b), Fields(a));
    EarlierIffLess(Fields(a), Fields(b));
    EarlierIffLess(Fields(b), Fields(a));
    NotLess(UtcDate(a).value);
  }

  // ---------------------------------------------------------------- the wire form

  /** The date-time form with four-digit year, milliseconds and `Z`. */
  predicate WireForm(s: string) {
    && |s| == 24 && s[4] == '-' && s[7] == '-' && s[10] == 'T' && s[13] == ':' && s[16] == ':' && s[19] == '.'
    && s[23] == 'Z'
    && (forall k :: 0 <= k < 23 && k != 4 && k != 7 && k != 10 && k != 13 && k != 16 && k != 19 ==> DigitChar(s[k]))
  }

  /** What a reader of the string takes for the date and time. */
  function Read(s: string): DateTime
    requires WireForm(s)
  {
    DateTime(Number(s[0..4]), Number(s[5..7]), Number(s[8..10]), Number(s[11..13]), Number(s[14..16]),
             Number(s[17..19]), Number(s[20..23]))
  }

  lemma FieldAt(s: string, n: nat, w: nat, rest: string, t: string, at: nat)
    requires n < PowerOfTen(w) && t == Padded(n, w) + rest && at + |t| == |s| && s[at..] == t
    ensures at + w <= |s| && Number(s[at..at + w]) == n && s[at + w..] == rest
    ensures forall k :: at <= k < at + w ==> DigitChar(s[k])
  {
    PaddedReads(n, w);
    hide Number, Padded, PowerOfTen;
    assert t[..w] == Padded(n, w) && t[w..] == rest;
    assert s[at..at + w] == t[..w] && s[at + w..] == t[w..];
    forall k | at <= k < at + w ensures DigitChar(s[k]) {
      assert s[k] == Padded(n, w)[k - at];
    }
  }

  lemma SeparatorAt(s: string, sep: char, rest: string, at: nat)
    requires at <= |s| && s[at..] == [sep] + rest
    ensures at < |s| && s[at] == sep && s[at + 1..] == rest
  {
    assert s[at..][0] == sep && s[at..][1..] == rest;
  }

  lemma FormatReads(t: DateTime)
    requires Valid(t)
    ensures WireForm(Format(t)) && Read(Format(t)) == t
  {
    hide Number, Padded, PowerOfTen;
    Powers();
    var s := Format(t);
    var f7 := Padded(t.millis, 3) + "Z";
    var f6 := Padded(t.second, 2) + ("." + f7);
    var f5 := Padded(t.minute, 2) + (":" + f6);
    var f4 := Padded(t.hour, 2) + (":" + f5);
    var f3 := Padded(t.day, 2) + ("T" + f4);
    var f2 := Padded(t.month, 2) + ("-" + f3);
    assert s[0..] == s == Padded(t.year, 4) + ("-" + f2);
    FieldAt(s, t.year, 4, "-" + f2, s, 0);
    SeparatorAt(s, '-', f2, 4);
    FieldAt(s, t.month, 2, "-" + f3, f2, 5);
    SeparatorAt(s, '-', f3, 7);
    FieldAt(s, t.day, 2, "T" + f4, f3, 8);
    SeparatorAt(s, 'T', f4, 10);
    FieldAt(s, t.hour, 2, ":" + f5, f4, 11);
    SeparatorAt(s, ':', f5, 13);
    FieldAt(s, t.minute, 2, ":" + f6, f5, 14);
    SeparatorAt(s, ':', f6, 16);
    FieldAt(s, t.second, 2, "." + f7, f6, 17);
    SeparatorAt(s, '.', f7, 19);
    FieldAt(s, t.millis, 3, "Z", f7, 20);
    assert "Z" == ['Z'] + "";
    SeparatorAt(s, 'Z', "", 23);
  }
}
