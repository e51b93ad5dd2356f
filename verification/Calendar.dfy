/** Calendar dates of the proleptic Gregorian calendar, and time ranges relative to today. */
module Calendar {
  import opened Basics

  const MIN_YEAR := 1
  const MAX_YEAR := 9999

  datatype Date = Date(year: int, month: int, day: int)

  predicate Leap(year: int) {
    year % 4 == 0 && (year % 100 != 0 || year % 400 == 0)
  }

  /** `monthrange(year, month)[1]` */
  function DaysInMonth(year: int, month: int): int {
    if month == 2 then (if Leap(year) then 29 else 28)
    else if month == 4 || month == 6 || month == 9 || month == 11 then 30
    else 31
  }

  /** A date of the calendar, in any year. */
  predicate OnCalendar(d: Date) {
    1 <= d.month <= 12 && 1 <= d.day <= DaysInMonth(d.year, d.month)
  }

  /** A date that the date type of the program can hold. */
  predicate Valid(d: Date) {
    OnCalendar(d) && MIN_YEAR <= d.year <= MAX_YEAR
  }

  /** `date(year, month, day)`; None is the exception for a date outside the type. */
  function Checked(d: Date): Option<Date> {
    if Valid(d) then Some(d) else None
  }

  function NextDay(d: Date): Date {
    if d.day < DaysInMonth(d.year, d.month) then d.(day := d.day + 1)
    else if d.month < 12 then Date(d.year, d.month + 1, 1)
    else Date(d.year + 1, 1, 1)
  }

  function PreviousDay(d: Date): Date {
    if d.day > 1 then d.(day := d.day - 1)
    else if d.month > 1 then Date(d.year, d.month - 1, DaysInMonth(d.year, d.month - 1))
    else Date(d.year - 1, 12, 31)
  }

  /** The date `n` days later, or earlier for a negative `n`. */
  function Shift(d: Date, n: int): Date
    decreases if n < 0 then -n else n
  {
    if n == 0 then d
    else if n > 0 then Shift(NextDay(d), n - 1)
    else Shift(PreviousDay(d), n + 1)
  }

  // ---- counting days -------------------------------------------------------------------

  function DaysBeforeYear(year: int): int {
    365 * (year - 1) + (year - 1) / 4 - (year - 1) / 100 + (year - 1) / 400
  }

  function DaysBeforeMonth(year: int, month: int): int
    decreases month
  {
    if month <= 1 then 0 else DaysBeforeMonth(year, month - 1) + DaysInMonth(year, month - 1)
  }

  /** The number of the day, counted from 1 January of year 1. */
  function Ordinal(d: Date): int {
    DaysBeforeYear(d.year) + DaysBeforeMonth(d.year, d.month) + d.day
  }

  predicate Before(a: Date, b: Date) {
    a.year < b.year || (a.year == b.year && (a.month < b.month || (a.month == b.month && a.day < b.day)))
  }

  lemma YearLength(year: int)
    ensures DaysBeforeYear(year + 1) == DaysBeforeYear(year) + (if Leap(year) then 366 else 365)
    ensures DaysBeforeMonth(year, 12) + 31 == if Leap(year) then 366 else 365
  {
    assert DaysBeforeMonth(year, 3) == 31 + DaysInMonth(year, 2);
    assert DaysBeforeMonth(year, 6) == DaysBeforeMonth(year, 3) + 92;
    assert DaysBeforeMonth(year, 9) == DaysBeforeMonth(year, 6) + 92;
    assert DaysBeforeMonth(year, 12) == DaysBeforeMonth(year, 9) + 91;
    QuarterDays(year);
  }

  lemma QuarterDays(year: int)
    ensures year / 4 - (year - 1) / 4 == if year % 4 == 0 then 1 else 0
    ensures year / 100 - (year - 1) / 100 == if year % 100 == 0 then 1 else 0
    ensures year / 400 - (year - 1) / 400 == if year % 400 == 0 then 1 else 0
    ensures year % 400 == 0 ==> year % 100 == 0
    ensures year % 100 == 0 ==> year % 4 == 0
  {
  }

  lemma NextDayCountsOne(d: Date)
    requires OnCalendar(d)
    ensures OnCalendar(NextDay(d)) && Ordinal(NextDay(d)) == Ordinal(d) + 1
    ensures PreviousDay(NextDay(d)) == d
  {
    if d.day == DaysInMonth(d.year, d.month) && d.month == 12 {
      YearLength(d.year);
    }
  }

  lemma PreviousDayCountsOne(d: Date)
    requires OnCalendar(d)
    ensures OnCalendar(PreviousDay(d)) && Ordinal(PreviousDay(d)) == Ordinal(d) - 1
  {
    if d.day == 1 && d.month == 1 {
      YearLength(d.year - 1);
      assert PreviousDay(d) == Date(d.year - 1, 12, 31);
    } else if d.day == 1 {
      assert PreviousDay(d) == Date(d.year, d.month - 1, DaysInMonth(d.year, d.month - 1));
    } else {
      assert PreviousDay(d) == Date(d.year, d.month, d.day - 1);
    }
  }

  /** Shifting by `n` days moves the day count by `n`. */
  lemma {:induction false} ShiftCounts(d: Date, n: int)
    requires OnCalendar(d)
    ensures OnCalendar(Shift(d, n)) && Ordinal(Shift(d, n)) == Ordinal(d) + n
    decreases if n < 0 then -n else n
  {
    if n > 0 {
      NextDayCountsOne(d);
      ShiftCounts(NextDay(d), n - 1);
    } else if n < 0 {
      PreviousDayCountsOne(d);
      ShiftCounts(PreviousDay(d), n + 1);
    }
  }

  lemma {:induction false} MonthsAreOrdered(year: int, m: int, n: int)
    requires 1 <= m < n
    ensures DaysBeforeMonth(year, m) + DaysInMonth(year, m) <= DaysBeforeMonth(year, n)
    decreases n
  {
    if m < n - 1 {
      MonthsAreOrdered(year, m, n - 1);
    }
  }

  lemma {:induction false} YearsAreOrdered(a: int, b: int)
    requires a < b
    ensures DaysBeforeYear(a) + (if Leap(a) then 366 else 365) <= DaysBeforeYear(b)
    decreases b - a
  {
    YearLength(b - 1);
    if a < b - 1 {
      YearsAreOrdered(a, b - 1);
    }
  }

  /** A date lies within its year. */
  lemma WithinYear(d: Date)
    requires OnCalendar(d)
    ensures DaysBeforeYear(d.year) < Ordinal(d) <= DaysBeforeYear(d.year) + (if Leap(d.year) then 366 else 365)
  {
    YearLength(d.year);
    if d.month > 1 { MonthsAreOrdered(d.year, 1, d.month); }
    if d.month < 12 { MonthsAreOrdered(d.year, d.month, 12); }
  }

  /** The day count orders dates exactly as year, month and day do. */
  lemma OrdinalOrders(a: Date, b: Date)
    requires OnCalendar(a) && OnCalendar(b)
    ensures Before(a, b) <==> Ordinal(a) < Ordinal(b)
  {
    BeforeCounts(a, b);
    BeforeCounts(b, a);
  }

  lemma BeforeCounts(a: Date, b: Date)
    requires OnCalendar(a) && OnCalendar(b)
    ensures Before(a, b) ==> Ordinal(a) < Ordinal(b)
  {
    if a.year < b.year {
      WithinYear(a);
      WithinYear(b);
      YearsAreOrdered(a.year, b.year);
    } else if a.year == b.year && a.month < b.month {
      MonthsAreOrdered(a.year, a.month, b.month);
    }
  }

  // ---- relative ranges ---------------------------------------------------------------------

  datatype TimeUnit = Months | Years | Weeks | Days

  /** What a recognised phrase asks for. */
  datatype Phrase =
    | ThisYearFirstHalf | ThisYearSecondHalf | LastYearFirstHalf | LastYearSecondHalf
    | ThisMonth | LastMonth | ThisYear | LastYear
    | Last(amount: nat, timeUnit: TimeUnit)

  /** A start and an end; the end itself does not belong to the range. */
  datatype DateRange = DateRange(start: Date, end: Date)

  function Both(start: Option<Date>, end: Option<Date>): Option<DateRange> {
    if start.Some? && end.Some? then Some(DateRange(start.value, end.value)) else None
  }

  /** Date arithmetic of the program: None when the result leaves the years 1 to 9999. */
  function AddDays(d: Date, n: int): Option<Date> {
    Checked(Shift(d, n))
  }

  function FirstOfMonth(d: Option<Date>): Option<Date> {
    match d case None => None case Some(v) => Checked(v.(day := 1))
  }

  /** `amount` months before today, with the day clamped to the length of that month. */
  function MonthsBack(today: Date, amount: nat): Option<Date> {
    var month := today.month - amount;
    var year := today.year + (month - 1) / 12;
    var wrapped := (month - 1) % 12 + 1;
    Checked(Date(year, wrapped, if today.day < DaysInMonth(year, wrapped) then today.day else DaysInMonth(year, wrapped)))
  }

  function YearsBack(today: Date, amount: nat): Option<Date> {
    var year := today.year - amount;
    Checked(Date(year, today.month, if today.day < DaysInMonth(year, today.month) then today.day else DaysInMonth(year, today.month)))
  }

  /** `resolve_range_value` on a phrase; None is the exception of a date outside the type. */
  function Resolve(p: Phrase, today: Date): Option<DateRange> {
    var y := today.year;
    match p
    case ThisYearFirstHalf => Both(Checked(Date(y, 1, 1)), Checked(Date(y, 7, 1)))
    case ThisYearSecondHalf => Both(Checked(Date(y, 7, 1)), Checked(Date(y + 1, 1, 1)))
    case LastYearFirstHalf => Both(Checked(Date(y - 1, 1, 1)), Checked(Date(y - 1, 7, 1)))
    case LastYearSecondHalf => Both(Checked(Date(y - 1, 7, 1)), Checked(Date(y, 1, 1)))
    case ThisMonth =>
      var start := today.(day := 1);
      Both(Some(start), FirstOfMonth(AddDays(start.(day := 28), 4)))
    case LastMonth =>
      var end := today.(day := 1);
      Both(FirstOfMonth(AddDays(end, -1)), Some(end))
    case ThisYear => Both(Checked(Date(y, 1, 1)), Checked(Date(y + 1, 1, 1)))
    case LastYear => Both(Checked(Date(y - 1, 1, 1)), Checked(Date(y, 1, 1)))
    case Last(n, Months) => Both(MonthsBack(today, n), AddDays(today, 1))
    case Last(n, Years) => Both(YearsBack(today, n), AddDays(today, 1))
    case Last(n, Weeks) => Both(AddDays(today, 0 - 7 * n), AddDays(today, 1))
    case Last(n, Days) => Both(AddDays(today, 0 - n), AddDays(today, 1))
  }

  predicate Contains(r: DateRange, d: Date) {
    !Before(d, r.start) && Before(d, r.end)
  }

  function FirstOfNextMonth(d: Date): Date {
    if d.month == 12 then Date(d.year + 1, 1, 1) else Date(d.year, d.month + 1, 1)
  }

  function FirstOfPreviousMonth(d: Date): Date {
    if d.month == 1 then Date(d.year - 1, 12, 1) else Date(d.year, d.month - 1, 1)
  }

  /** Four days after the 28th is always in the next month. */
  lemma FourDaysAfterThe28th(y: int, m: int)
    requires 1 <= m <= 12
    ensures Shift(Date(y, m, 28), 4).(day := 1) == FirstOfNextMonth(Date(y, m, 28))
  {
    var d1 := NextDay(Date(y, m, 28));
    var d2 := NextDay(d1);
    var d3 := NextDay(d2);
    assert Shift(Date(y, m, 28), 4) == Shift(d1, 3) == Shift(d2, 2) == Shift(d3, 1) == Shift(NextDay(d3), 0);
  }

  /** "This month" runs from its first to the first of the next month, and contains today. */
  lemma ThisMonthIsTheMonth(today: Date)
    requires Valid(today)
    ensures Resolve(ThisMonth, today) == if today.year == MAX_YEAR && today.month == 12 then None
                                         else Some(DateRange(today.(day := 1), FirstOfNextMonth(today)))
    ensures Contains(DateRange(today.(day := 1), FirstOfNextMonth(today)), today)
  {
    FourDaysAfterThe28th(today.year, today.month);
    ShiftCounts(Date(today.year, today.month, 28), 4);
  }

  /** "Last month" runs from the first of the month before to where this month starts. */
  lemma LastMonthEndsWhereThisStarts(today: Date)
    requires Valid(today)
    ensures Resolve(LastMonth, today) == if today.year == MIN_YEAR && today.month == 1 then None
                                         else Some(DateRange(FirstOfPreviousMonth(today), today.(day := 1)))
    ensures FirstOfNextMonth(FirstOfPreviousMonth(today)) == today.(day := 1)
  {
    assert Shift(today.(day := 1), -1) == Shift(PreviousDay(today.(day := 1)), 0);
  }

  /** The two halves tile the year, and last year ends where this year starts. */
  lemma HalvesTileTheYear(today: Date)
    requires Valid(today) && MIN_YEAR < today.year < MAX_YEAR
    ensures var year, first, second := Resolve(ThisYear, today), Resolve(ThisYearFirstHalf, today), Resolve(ThisYearSecondHalf, today);
            && year.Some? && first.Some? && second.Some?
            && year.value.start == Date(today.year, 1, 1)
            && first.value.start == year.value.start && first.value.end == second.value.start && second.value.end == year.value.end
            && (Contains(first.value, today) <==> today.month <= 6)
            && (Contains(year.value, today) && (Contains(first.value, today) <==> !Contains(second.value, today)))
    ensures var year, first, second := Resolve(LastYear, today), Resolve(LastYearFirstHalf, today), Resolve(LastYearSecondHalf, today);
            && year.Some? && first.Some? && second.Some?
            && first.value.start == year.value.start && first.value.end == second.value.start && second.value.end == year.value.end
            && MonthIndex(first.value.start) + 6 == MonthIndex(first.value.end) && first.value.end.day == 1
            && year.value.end == Resolve(ThisYear, today).value.start
  {
  }

  /** A year or its second half cannot be named in the last year there is, the year before not in the first; nothing else raises. */
  lemma YearRangesRaiseAtTheEdges(today: Date)
    requires Valid(today)
    ensures Resolve(ThisYearFirstHalf, today).Some?
    ensures Resolve(ThisYear, today).Some? <==> today.year < 9999
    ensures Resolve(ThisYearSecondHalf, today).Some? <==> today.year < 9999
    ensures forall p | p in {LastYear, LastYearFirstHalf, LastYearSecondHalf} :: Resolve(p, today).Some? <==> today.year > 1
  {
  }

  function MonthIndex(d: Date): int {
    12 * d.year + d.month - 1
  }

  /** "n months": exactly n calendar months back, on the same day or the last day of a shorter month. */
  lemma MonthsBackIsExact(today: Date, n: nat)
    requires Valid(today)
    ensures MonthsBack(today, n).Some? <==> MonthIndex(today) - n >= 12
    ensures MonthsBack(today, n).Some? ==>
              var start := MonthsBack(today, n).value;
              && Valid(start) && MonthIndex(start) == MonthIndex(today) - n
              && (start.day == today.day || (start.day == DaysInMonth(start.year, start.month) && start.day < today.day))
  {
    var k := today.month - n - 1;
    assert k == 12 * (k / 12) + k % 12;
  }

  /** More months never start later, in fact always earlier. */
  lemma MoreMonthsStartEarlier(today: Date, n: nat, k: nat)
    requires Valid(today) && n < k && MonthsBack(today, k).Some?
    ensures MonthsBack(today, n).Some? && Before(MonthsBack(today, k).value, MonthsBack(today, n).value)
  {
    MonthsBackIsExact(today, n);
    MonthsBackIsExact(today, k);
  }

  /** "n years" is "12 n months". */
  lemma YearsAreTwelveMonths(today: Date, n: nat)
    requires Valid(today)
    ensures Resolve(Last(n, Years), today) == Resolve(Last(12 * n, Months), today)
  {
    var k := today.month - 12 * n - 1;
    assert k == 12 * (0 - n) + (today.month - 1);
    assert k / 12 == 0 - n && k % 12 == today.month - 1;
  }

  /** "n days" starts exactly n days ago, if that is not before year 1; "n weeks" is "7 n days". */
  lemma DaysBackIsExact(today: Date, n: nat)
    requires Valid(today)
    ensures AddDays(today, 0 - n).Some? <==> Ordinal(today) - n >= 1
    ensures AddDays(today, 0 - n).Some? ==> Ordinal(AddDays(today, 0 - n).value) == Ordinal(today) - n
    ensures AddDays(today, 0 - n).Some? ==> !Before(today, AddDays(today, 0 - n).value)
    ensures Resolve(Last(n, Weeks), today) == Resolve(Last(7 * n, Days), today)
  {
    var start := Shift(today, 0 - n);
    ShiftCounts(today, 0 - n);
    OrdinalOrders(start, Date(1, 1, 1));
    OrdinalOrders(today, start);
    OrdinalOrders(Date(MAX_YEAR, 12, 31), start);
  }

  /** Every rolling range is valid, contains today, and ends tomorrow. */
  lemma RollingRangesEndTomorrow(today: Date, n: nat, u: TimeUnit)
    requires Valid(today) && Resolve(Last(n, u), today).Some?
    ensures var r := Resolve(Last(n, u), today).value;
            Valid(r.start) && Valid(r.end) && Contains(r, today) && r.end == NextDay(today)
  {
    assert Shift(today, 1) == Shift(NextDay(today), 0);
    match u
    case Months =>
      MonthsBackIsExact(today, n);
    case Years =>
      YearsAreTwelveMonths(today, n);
      MonthsBackIsExact(today, 12 * n);
    case Weeks =>
      DaysBackIsExact(today, n);
      DaysBackIsExact(today, 7 * n);
    case Days =>
      DaysBackIsExact(today, n);
  }
}
