/**
 The proleptic Gregorian calendar and the UTC calendar buckets built on it
 (src/domain/model.rs). Days are numbered from 1970-01-01.
 */
module Calendar {
  import opened Common
  import opened Text
  import opened Staircase

  /** The day holding an instant; division rounds down for instants before the epoch too. */
  function DayOf(t: int): (n: int)
    ensures Midnight(n) <= t < Midnight(n + 1)
  {
    t / 86_400_000_000_000
  }

  function Midnight(day: int): int {
    day * 86_400_000_000_000
  }

  // ----- months, numbered twelve to a year -----

  /** The leap-year rule of Appendix C of RFC 3339. */
  predicate LeapYear(y: int) {
    y % 4 == 0 && (y % 100 != 0 || y % 400 == 0)
  }

  function DaysInMonth(y: int, m: int): (n: nat)
    requires 1 <= m <= 12
    ensures 28 <= n <= 31
  {
    if m == 2 then (if LeapYear(y) then 29 else 28)
    else if m == 4 || m == 6 || m == 9 || m == 11 then 30
    else 31
  }

  function MonthLength(p: int): (n: nat)
    ensures 28 <= n <= 31
  {
    DaysInMonth(p / 12, p % 12 + 1)
  }

  const JANUARY_1970 := 1970 * 12

  /** Lengths of the months counted from January 1970. */
  function LengthFromEpoch(i: int): nat {
    MonthLength(JANUARY_1970 + i)
  }

  lemma MonthsNonempty()
    ensures Positive(LengthFromEpoch)
  {
  }

  /** Day number of the first of month `p`. */
  function MonthDay(p: int): int {
    Begin(LengthFromEpoch, p - JANUARY_1970)
  }

  lemma MonthDayNext(p: int)
    ensures MonthDay(p + 1) == MonthDay(p) + MonthLength(p)
  {
    BeginNext(LengthFromEpoch, p - JANUARY_1970);
  }

  lemma MonthDayIncreases(p: int, q: int)
    requires p < q
    ensures MonthDay(p) < MonthDay(q)
  {
    MonthsNonempty();
    BeginIncreases(LengthFromEpoch, p - JANUARY_1970, q - JANUARY_1970);
  }

  function MonthHolding(day: int): (p: int)
    ensures MonthDay(p) <= day < MonthDay(p + 1)
  {
    MonthsNonempty();
    StepHolding(LengthFromEpoch, day) + JANUARY_1970
  }

  lemma OneMonthHolds(day: int, p: int, q: int)
    requires MonthDay(p) <= day < MonthDay(p + 1)
    ensures p == q <==> MonthDay(q) <= day < MonthDay(q + 1)
  {
    MonthsNonempty();
    OneStepHolds(LengthFromEpoch, p - JANUARY_1970, q - JANUARY_1970, day);
  }

  // ----- dates -----

  datatype Date = Date(year: int, month: int, day: int)

  predicate ValidDate(d: Date) {
    1 <= d.month <= 12 && 1 <= d.day <= DaysInMonth(d.year, d.month)
  }

  function MonthIndex(d: Date): int {
    d.year * 12 + d.month - 1
  }

  lemma MonthIndexParts(d: Date)
    requires 1 <= d.month <= 12
    ensures MonthIndex(d) / 12 == d.year && MonthIndex(d) % 12 == d.month - 1
  {
  }

  function DayNumber(d: Date): int {
    MonthDay(MonthIndex(d)) + d.day - 1
  }

  lemma DateInMonth(d: Date)
    requires ValidDate(d)
    ensures MonthDay(MonthIndex(d)) <= DayNumber(d) < MonthDay(MonthIndex(d) + 1)
  {
    MonthIndexParts(d);
    MonthDayNext(MonthIndex(d));
  }

  /** Different valid dates are different days. */
  lemma DayNumberInjective(a: Date, b: Date)
    requires ValidDate(a) && ValidDate(b) && DayNumber(a) == DayNumber(b)
    ensures a == b
  {
    DateInMonth(a);
    DateInMonth(b);
    OneMonthHolds(DayNumber(a), MonthIndex(b), MonthIndex(a));
    MonthIndexParts(a);
    MonthIndexParts(b);
  }

  function DateIn(p: int, day: int): (d: Date)
    requires MonthDay(p) <= day < MonthDay(p + 1)
    ensures ValidDate(d) && DayNumber(d) == day
  {
    MonthDayNext(p);
    var d := Date(p / 12, p % 12 + 1, day - MonthDay(p) + 1);
    MonthIndexParts(d);
    d
  }

  function DateOf(day: int): (d: Date)
    ensures ValidDate(d) && DayNumber(d) == day
  {
    DateIn(MonthHolding(day), day)
  }

  /** The calendar decomposition is the inverse of day numbering. */
  lemma DateOfInverts(d: Date)
    requires ValidDate(d)
    ensures DateOf(DayNumber(d)) == d
  {
    DayNumberInjective(DateOf(DayNumber(d)), d);
  }

  function DateOfInstant(t: int): (d: Date)
    ensures ValidDate(d) && DayNumber(d) == DayOf(t)
  {
    DateOf(DayOf(t))
  }

  /** Midnight UTC at the start of a date. */
  function UtcDate(d: Date): int {
    Midnight(DayNumber(d))
  }

  /** Adds calendar months, clamping the day to the target month. */
  function AddMonths(d: Date, months: nat): (r: Date)
    requires ValidDate(d)
    ensures ValidDate(r)
    ensures MonthIndex(r) == MonthIndex(d) + months
    ensures d.day <= 28 ==> r.day == d.day
  {
    var total := MonthIndex(d) + months;
    Date(total / 12, total % 12 + 1, Min(d.day, MonthLength(total)))
  }

  // ----- bucket bounds and keys, by date -----

  datatype Strategy = CalendarYearUtc | CalendarMonthUtc | CalendarDayUtc

  function StartDate(strategy: Strategy, d: Date): (r: Date)
    requires ValidDate(d)
    ensures ValidDate(r)
  {
    match strategy
    case CalendarYearUtc => Date(d.year, 1, 1)
    case CalendarMonthUtc => Date(d.year, d.month, 1)
    case CalendarDayUtc => d
  }

  function EndInstant(strategy: Strategy, start: Date): int
    requires ValidDate(start)
  {
    match strategy
    case CalendarYearUtc => UtcDate(AddMonths(start, 12))
    case CalendarMonthUtc => UtcDate(AddMonths(start, 1))
    case CalendarDayUtc => UtcDate(start) + Midnight(1)
  }

  /** Renders a year to at least four characters, the sign included. */
  function YearText(y: int): (s: string)
    ensures s != []
    ensures y < 0 <==> s[0] == '-'
  {
    assert y >= 0 ==> Padded(y, 4)[0] in Padded(y, 4);
    if y >= 0 then Padded(y, 4) else ['-'] + Padded(-y, 3)
  }

  function KeyText(strategy: Strategy, d: Date): string
    requires ValidDate(d)
  {
    match strategy
    case CalendarYearUtc => "year:" + YearText(d.year)
    case CalendarMonthUtc => "month:" + YearText(d.year) + ("-" + Padded(d.month, 2))
    case CalendarDayUtc => "day:" + YearText(d.year) + ("-" + Padded(d.month, 2) + "-" + Padded(d.day, 2))
  }

  // ----- periods: a bucket's ordinal number under its strategy -----

  function PeriodOfDate(strategy: Strategy, d: Date): int {
    match strategy
    case CalendarYearUtc => d.year
    case CalendarMonthUtc => MonthIndex(d)
    case CalendarDayUtc => DayNumber(d)
  }

  function PeriodDay(strategy: Strategy, p: int): int {
    match strategy
    case CalendarYearUtc => MonthDay(p * 12)
    case CalendarMonthUtc => MonthDay(p)
    case CalendarDayUtc => p
  }

  function PeriodStart(strategy: Strategy, p: int): int {
    Midnight(PeriodDay(strategy, p))
  }

  /** The date arithmetic of the bounds yields two consecutive period starts. */
  lemma BoundsArePeriod(strategy: Strategy, d: Date)
    requires ValidDate(d)
    ensures UtcDate(StartDate(strategy, d)) == PeriodStart(strategy, PeriodOfDate(strategy, d))
    ensures EndInstant(strategy, StartDate(strategy, d)) == PeriodStart(strategy, PeriodOfDate(strategy, d) + 1)
  {
    match strategy
    case CalendarYearUtc => MonthIndexParts(Date(d.year, 1, 1));
    case CalendarMonthUtc =>
    case CalendarDayUtc =>
  }

  lemma PeriodDayIncreases(strategy: Strategy, p: int, q: int)
    requires p < q
    ensures PeriodDay(strategy, p) < PeriodDay(strategy, q)
  {
    match strategy
    case CalendarYearUtc => MonthDayIncreases(p * 12, q * 12);
    case CalendarMonthUtc => MonthDayIncreases(p, q);
    case CalendarDayUtc =>
  }

  /** A date lies in its period. */
  lemma DateWithinPeriod(strategy: Strategy, d: Date)
    requires ValidDate(d)
    ensures PeriodDay(strategy, PeriodOfDate(strategy, d)) <= DayNumber(d)
            < PeriodDay(strategy, PeriodOfDate(strategy, d) + 1)
  {
    match strategy
    case CalendarYearUtc =>
      DateInMonth(d);
      if d.month > 1 { MonthDayIncreases(d.year * 12, MonthIndex(d)); }
      if d.month < 12 { MonthDayIncreases(MonthIndex(d) + 1, (d.year + 1) * 12); }
    case CalendarMonthUtc => DateInMonth(d);
    case CalendarDayUtc =>
  }

  lemma PeriodsDisjoint(strategy: Strategy, t: int, p: int, q: int)
    requires PeriodStart(strategy, q) <= t < PeriodStart(strategy, q + 1)
    ensures p == q <==> PeriodStart(strategy, p) <= t < PeriodStart(strategy, p + 1)
  {
    if p < q - 1 { PeriodDayIncreases(strategy, p + 1, q); }
    if q < p - 1 { PeriodDayIncreases(strategy, q + 1, p); }
  }

  lemma PeriodStartInjective(strategy: Strategy, p: int, q: int)
    ensures PeriodStart(strategy, p) == PeriodStart(strategy, q) <==> p == q
    ensures PeriodStart(strategy, p) < PeriodStart(strategy, q) <==> p < q
  {
    if p < q { PeriodDayIncreases(strategy, p, q); }
    if q < p { PeriodDayIncreases(strategy, q, p); }
  }

  // ----- bucket keys identify periods -----

  lemma YearTextInjective(y: int, z: int)
    requires YearText(y) == YearText(z)
    ensures y == z
  {
    if y < 0 {
      assert YearText(y)[1..] == Padded(-y, 3) && YearText(z)[1..] == Padded(-z, 3);
      PaddedInjective(-y, -z, 3);
    } else {
      PaddedInjective(y, z, 4);
    }
  }

  lemma PaddedInjective(m: nat, n: nat, width: nat)
    requires Padded(m, width) == Padded(n, width)
    ensures m == n
  {
    PaddedInverts(m, width);
    PaddedInverts(n, width);
  }

  lemma TwoDigits(n: nat)
    requires n < 100
    ensures |Padded(n, 2)| == 2
  {
    assert Power10(2) == 100 by { assert Power10(1) == 10; }
    DecimalShort(n, 2);
  }

  /** Two dates have the same key exactly when they lie in the same period. */
  lemma SameKeyIffSamePeriod(strategy: Strategy, d: Date, e: Date)
    requires ValidDate(d) && ValidDate(e)
    ensures KeyText(strategy, d) == KeyText(strategy, e) <==> PeriodOfDate(strategy, d) == PeriodOfDate(strategy, e)
  {
    MonthIndexParts(d);
    MonthIndexParts(e);
    if strategy.CalendarDayUtc? && DayNumber(d) == DayNumber(e) { DayNumberInjective(d, e); }
    if KeyText(strategy, d) == KeyText(strategy, e) { SameKeySamePeriod(strategy, d, e); }
  }

  lemma SameKeySamePeriod(strategy: Strategy, d: Date, e: Date)
    requires ValidDate(d) && ValidDate(e) && KeyText(strategy, d) == KeyText(strategy, e)
    ensures PeriodOfDate(strategy, d) == PeriodOfDate(strategy, e)
  {
    match strategy
    case CalendarYearUtc =>
      StripAffixes("year:", YearText(d.year), "", YearText(e.year), "");
      YearTextInjective(d.year, e.year);
    case CalendarMonthUtc =>
      MonthKeyInjective(d, e);
    case CalendarDayUtc =>
      DayKeyInjective(d, e);
  }

  lemma MonthKeyInjective(d: Date, e: Date)
    requires ValidDate(d) && ValidDate(e) && KeyText(CalendarMonthUtc, d) == KeyText(CalendarMonthUtc, e)
    ensures d.year == e.year && d.month == e.month
  {
    TwoDigits(d.month);
    TwoDigits(e.month);
    var (m, n) := (Padded(d.month, 2), Padded(e.month, 2));
    StripAffixes("month:", YearText(d.year), "-" + m, YearText(e.year), "-" + n);
    YearTextInjective(d.year, e.year);
    StripAffixes("-", m, "", n, "");
    PaddedInjective(d.month, e.month, 2);
  }

  lemma DayKeyInjective(d: Date, e: Date)
    requires ValidDate(d) && ValidDate(e) && KeyText(CalendarDayUtc, d) == KeyText(CalendarDayUtc, e)
    ensures d == e
  {
    TwoDigits(d.month);
    TwoDigits(e.month);
    TwoDigits(d.day);
    TwoDigits(e.day);
    var (m, n) := (Padded(d.month, 2), Padded(e.month, 2));
    var (k, l) := (Padded(d.day, 2), Padded(e.day, 2));
    StripAffixes("day:", YearText(d.year), "-" + m + "-" + k, YearText(e.year), "-" + n + "-" + l);
    YearTextInjective(d.year, e.year);
    assert "-" + m + "-" + k == "-" + m + ("-" + k) && "-" + n + "-" + l == "-" + n + ("-" + l);
    StripAffixes("-", m, "-" + k, n, "-" + l);
    StripAffixes("-", k, "", l, "");
    PaddedInjective(d.month, e.month, 2);
    PaddedInjective(d.day, e.day, 2);
  }

  /** Keys of different strategies differ. */
  lemma KeyNamesStrategy(s: Strategy, d: Date, s': Strategy, d': Date)
    requires ValidDate(d) && ValidDate(d') && KeyText(s, d) == KeyText(s', d')
    ensures s == s'
  {
    KeyInitial(s, d);
    KeyInitial(s', d');
  }

  lemma KeyInitial(s: Strategy, d: Date)
    requires ValidDate(d)
    ensures |KeyText(s, d)| > 0
    ensures KeyText(s, d)[0] == if s.CalendarYearUtc? then 'y' else if s.CalendarMonthUtc? then 'm' else 'd'
    ensures '/' !in KeyText(s, d)
  {
    assert '/' !in YearText(d.year);
    assert '/' !in "year:" && '/' !in "month:" && '/' !in "day:" && '/' !in "-";
  }

  // ----- by instant -----

  function BucketStart(strategy: Strategy, t: int): int {
    UtcDate(StartDate(strategy, DateOfInstant(t)))
  }

  function BucketEnd(strategy: Strategy, t: int): int {
    EndInstant(strategy, StartDate(strategy, DateOfInstant(t)))
  }

  function BucketKey(strategy: Strategy, t: int): string {
    KeyText(strategy, DateOfInstant(t))
  }

  function Period(strategy: Strategy, t: int): int {
    PeriodOfDate(strategy, DateOfInstant(t))
  }

  /** Every instant lies in its own bucket, whose bounds are consecutive period starts. */
  lemma BucketContainsInstant(strategy: Strategy, t: int)
    ensures BucketStart(strategy, t) == PeriodStart(strategy, Period(strategy, t))
    ensures BucketEnd(strategy, t) == PeriodStart(strategy, Period(strategy, t) + 1)
    ensures BucketStart(strategy, t) <= t < BucketEnd(strategy, t)
  {
    var d := DateOfInstant(t);
    var p := PeriodOfDate(strategy, d);
    BoundsArePeriod(strategy, d);
    DateWithinPeriod(strategy, d);
    BetweenMidnights(PeriodDay(strategy, p), t, PeriodDay(strategy, p + 1));
  }

  lemma BetweenMidnights(first: int, t: int, last: int)
    requires first <= DayOf(t) < last
    ensures Midnight(first) <= t < Midnight(last)
  {
  }

  /** The instants of one period are exactly those between its start and the next one's. */
  lemma PeriodIff(strategy: Strategy, t: int, p: int)
    ensures Period(strategy, t) == p <==> PeriodStart(strategy, p) <= t < PeriodStart(strategy, p + 1)
  {
    BucketContainsInstant(strategy, t);
    PeriodsDisjoint(strategy, t, p, Period(strategy, t));
  }

  /** Two instants have the same key under a strategy exactly when they have the same bounds. */
  lemma SameKeyIffSameBounds(strategy: Strategy, t: int, u: int)
    ensures BucketKey(strategy, t) == BucketKey(strategy, u) <==>
            BucketStart(strategy, t) == BucketStart(strategy, u) && BucketEnd(strategy, t) == BucketEnd(strategy, u)
  {
    SameKeyIffSamePeriod(strategy, DateOfInstant(t), DateOfInstant(u));
    BucketContainsInstant(strategy, t);
    BucketContainsInstant(strategy, u);
    PeriodStartInjective(strategy, Period(strategy, t), Period(strategy, u));
  }
}
