/**
 The calendar page's windows (`_window`, `_shift_month`, src/nidaro/web/routes/calendar.py)
 under Gregorian arithmetic. A month is numbered 12 * year + (month - 1); a day is its
 proleptic ordinal, as `date.toordinal` counts it.
 */
module MonthGrid {
  import opened Recurrence
  import opened CalendarRange

  predicate IsLeap(year: int) {
    year % 4 == 0 && (year % 100 != 0 || year % 400 == 0)
  }

  /** Days in the month with index m (0 for January) of a year. */
  function MonthLength(m: int, leap: bool): int {
    if m == 1 then if leap then 29 else 28
    else if m == 3 || m == 5 || m == 8 || m == 10 then 30
    else 31
  }

  function DaysIn(n: int): (d: int)
    ensures 28 <= d <= 31
  {
    MonthLength(n % 12, IsLeap(n / 12))
  }

  /** The ordinal of the first day of a month: month after month from January of year 1, which is 1. */
  function FirstDay(n: int): int
    decreases if n < 12 then 12 - n else n - 12
  {
    if n == 12 then 1
    else if n > 12 then FirstDay(n - 1) + DaysIn(n - 1)
    else FirstDay(n + 1) - DaysIn(n)
  }

  /** Consecutive months follow each other without gap. */
  lemma NextMonth(n: int)
    ensures FirstDay(n + 1) == FirstDay(n) + DaysIn(n)
  {
  }

  lemma {:induction false} FirstDayMonotone(a: int, b: int)
    requires a <= b
    ensures 28 * (b - a) <= FirstDay(b) - FirstDay(a) <= 31 * (b - a)
    decreases b - a
  {
    if a < b {
      FirstDayMonotone(a, b - 1);
      NextMonth(b - 1);
    }
  }

  predicate InMonth(day: int, n: int) {
    FirstDay(n) <= day < FirstDay(n + 1)
  }

  lemma MonthUnique(day: int, a: int, b: int)
    requires InMonth(day, a) && InMonth(day, b)
    ensures a == b
  {
    if a < b { FirstDayMonotone(a + 1, b); }
    if b < a { FirstDayMonotone(b + 1, a); }
  }

  /** Every day lies in some month, found by walking from a guess. */
  lemma MonthExists(day: int, guess: int) returns (n: int)
    ensures InMonth(day, n)
    decreases if day < FirstDay(guess) then FirstDay(guess) - day else day - FirstDay(guess)
  {
    NextMonth(guess);
    NextMonth(guess - 1);
    if day < FirstDay(guess) {
      if day >= FirstDay(guess - 1) { n := guess - 1; } else { n := MonthExists(day, guess - 1); }
    } else {
      if day < FirstDay(guess + 1) { n := guess; } else { n := MonthExists(day, guess + 1); }
    }
  }

  /** The month of a day. */
  ghost function MonthOf(day: int): (n: int)
    ensures InMonth(day, n)
  {
    assert exists n :: InMonth(day, n) by { var n := MonthExists(day, 12); }
    var n :| InMonth(day, n);
    n
  }

  /** `date.replace(day=1)`. */
  ghost function FirstOfMonth(day: int): int {
    FirstDay(MonthOf(day))
  }

  /** `_shift_month`: stride 32 days per month from the first, then back to the first. */
  ghost function ShiftMonth(anchor: int, o: int): int {
    FirstOfMonth(FirstOfMonth(anchor) + 32 * o)
  }

  // ---------------------------------------------------------------------------
  // Where the stride lands
  // ---------------------------------------------------------------------------

  /** How far the 32-day stride has run past the first day of the o-th month after n. */
  function Drift(n: int, o: int): int {
    FirstDay(n) + 32 * o - FirstDay(n + o)
  }

  lemma LandsIn(day: int, n: int)
    ensures MonthOf(day) == n <==> InMonth(day, n)
  {
    if InMonth(day, n) { MonthUnique(day, MonthOf(day), n); }
  }

  lemma FirstDayInjective(a: int, b: int)
    requires FirstDay(a) == FirstDay(b)
    ensures a == b
  {
    if a < b { FirstDayMonotone(a, b); }
    if b < a { FirstDayMonotone(b, a); }
  }

  /** The shift is right, for any offset, iff the stride lands inside the target month. */
  lemma RightIfItLands(anchor: int, o: int)
    ensures ShiftMonth(anchor, o) == FirstDay(MonthOf(anchor) + o)
       <==> 0 <= Drift(MonthOf(anchor), o) < DaysIn(MonthOf(anchor) + o)
  {
    var n := MonthOf(anchor);
    var landed := FirstDay(n) + 32 * o;
    NextMonth(n + o);
    LandsIn(landed, n + o);
    if ShiftMonth(anchor, o) == FirstDay(n + o) { FirstDayInjective(MonthOf(landed), n + o); }
  }

  /** A negative stride always falls short of its month, a non-negative one never does. */
  lemma DriftSign(n: int, o: int)
    ensures Drift(n, o) >= 0 <==> o >= 0
  {
    if o >= 0 { FirstDayMonotone(n, n + o); } else { FirstDayMonotone(n + o, n); }
  }

  predicate Lands(n: int, o: int) {
    0 <= Drift(n, o) < DaysIn(n + o)
  }

  /** Each further month drifts by at least a day, so the right offsets are the first ones. */
  lemma LandsBefore(n: int, o: nat)
    requires Lands(n, o + 1)
    ensures Lands(n, o)
  {
    DriftSign(n, o);
    NextMonth(n + o);
    assert n + (o + 1) == n + o + 1;
  }

  lemma {:induction false} LandsUpTo(n: int, o: nat, bound: nat)
    requires o <= bound && Lands(n, bound)
    ensures Lands(n, o)
    decreases bound - o
  {
    if o < bound {
      LandsUpTo(n, o + 1, bound);
      LandsBefore(n, o);
    }
  }

  /** Days of a year before its month with index m. */
  function DaysBefore(m: nat, leap: bool): int {
    (if m == 0 then 0 else if m == 1 then 31 else if m == 2 then 59 else if m == 3 then 90
     else if m == 4 then 120 else if m == 5 then 151 else if m == 6 then 181 else if m == 7 then 212
     else if m == 8 then 243 else if m == 9 then 273 else if m == 10 then 304 else 334)
    + if leap && m >= 2 then 1 else 0
  }

  function YearDays(leap: bool): int {
    if leap then 366 else 365
  }

  lemma {:induction false} FirstDayInYear(year: int, m: nat)
    requires m <= 11
    ensures FirstDay(12 * year + m) == FirstDay(12 * year) + DaysBefore(m, IsLeap(year))
  {
    if m > 0 {
      FirstDayInYear(year, m - 1);
      var n := 12 * year + m - 1;
      assert n / 12 == year && n % 12 == m - 1;
      NextMonth(n);
    }
  }

  lemma NextYear(year: int)
    ensures FirstDay(12 * (year + 1)) == FirstDay(12 * year) + YearDays(IsLeap(year))
  {
    FirstDayInYear(year, 11);
    var n := 12 * year + 11;
    assert n / 12 == year && n % 12 == 11;
    NextMonth(n);
  }

  /** `date.toordinal`'s closed form for the days before a year. */
  function DaysBeforeYear(year: int): int {
    (year - 1) * 365 + (year - 1) / 4 - (year - 1) / 100 + (year - 1) / 400
  }

  lemma Quotients(year: int)
    ensures year / 4 - (year - 1) / 4 == if year % 4 == 0 then 1 else 0
    ensures year / 100 - (year - 1) / 100 == if year % 100 == 0 then 1 else 0
    ensures year / 400 - (year - 1) / 400 == if year % 400 == 0 then 1 else 0
  {
  }

  /** A year divisible by 400 is divisible by 100, and one divisible by 100 is divisible by 4. */
  lemma Divisibility(year: int)
    ensures year % 400 == 0 ==> year % 100 == 0
    ensures year % 100 == 0 ==> year % 4 == 0
  {
    if year % 400 == 0 {
      var c := year / 400;
      assert year == (4 * c) * 100;
      HundredTimes(4 * c);
    }
    if year % 100 == 0 {
      var b := year / 100;
      assert year == (25 * b) * 4;
      FourTimes(25 * b);
    }
  }

  lemma FourTimes(k: int)
    ensures (k * 4) % 4 == 0
  {
  }

  lemma HundredTimes(k: int)
    ensures (k * 100) % 100 == 0
  {
  }

  lemma YearLength(year: int)
    ensures DaysBeforeYear(year + 1) - DaysBeforeYear(year) == YearDays(IsLeap(year))
  {
    Quotients(year);
    Divisibility(year);
    assert year + 1 - 1 == year;
  }

  lemma {:induction false} YearStartIsOrdinal(year: int)
    ensures FirstDay(12 * year) == DaysBeforeYear(year) + 1
    decreases if year < 1 then 1 - year else year - 1
  {
    if year > 1 {
      YearStartIsOrdinal(year - 1);
      NextYear(year - 1);
      YearLength(year - 1);
    } else if year < 1 {
      YearStartIsOrdinal(year + 1);
      NextYear(year);
      YearLength(year);
    }
  }

  /** Counting month after month is the closed form of the library's ordinals. */
  lemma FirstDayIsOrdinal(year: int, m: nat)
    requires m <= 11
    ensures FirstDay(12 * year + m) == DaysBeforeYear(year) + DaysBefore(m, IsLeap(year)) + 1
  {
    FirstDayInYear(year, m);
    YearStartIsOrdinal(year);
  }

  /** Days from the start of one year to the start of the month k later, for up to three years. */
  function DaysOver(k: nat, l0: bool, l1: bool, l2: bool): int {
    if k < 12 then DaysBefore(k, l0)
    else if k < 24 then YearDays(l0) + DaysBefore(k - 12, l1)
    else YearDays(l0) + YearDays(l1) + DaysBefore(k - 24, l2)
  }

  function LengthOver(k: nat, l0: bool, l1: bool, l2: bool): int {
    if k < 12 then MonthLength(k, l0) else if k < 24 then MonthLength(k - 12, l1) else MonthLength(k - 24, l2)
  }

  lemma YearAfterNext(year: int)
    ensures FirstDay(12 * (year + 2)) == FirstDay(12 * year) + YearDays(IsLeap(year)) + YearDays(IsLeap(year + 1))
  {
    NextYear(year);
    NextYear(year + 1);
    assert 12 * (year + 1 + 1) == 12 * (year + 2);
  }

  lemma FirstDayOver(year: int, k: nat)
    requires k < 36
    ensures FirstDay(12 * year + k)
         == FirstDay(12 * year) + DaysOver(k, IsLeap(year), IsLeap(year + 1), IsLeap(year + 2))
  {
    if k < 12 {
      FirstDayInYear(year, k);
    } else if k < 24 {
      NextYear(year);
      FirstDayInYear(year + 1, k - 12);
      assert 12 * (year + 1) + (k - 12) == 12 * year + k;
    } else {
      YearAfterNext(year);
      FirstDayInYear(year + 2, k - 24);
      assert 12 * (year + 2) + (k - 24) == 12 * year + k;
    }
  }

  lemma LengthIsOver(year: int, k: nat)
    requires k < 36
    ensures DaysIn(12 * year + k) == LengthOver(k, IsLeap(year), IsLeap(year + 1), IsLeap(year + 2))
  {
    var q := k / 12;
    assert (12 * year + k) / 12 == year + q && (12 * year + k) % 12 == k - 12 * q;
  }

  /** The stride stays inside the target month. */
  predicate Fits(m: nat, o: nat, l0: bool, l1: bool, l2: bool) {
    0 <= DaysBefore(m, l0) + 32 * o - DaysOver(m + o, l0, l1, l2) < LengthOver(m + o, l0, l1, l2)
  }

  /**
   The last right offset from the month with index m of a year, given whether that year and
   the next two are leap years.
   */
  function Bound(m: nat, l0: bool, l1: bool, l2: bool): (b: nat)
    ensures 18 <= b <= 20
  {
    if m == 0 then if l0 || l1 then 19 else 18
    else if m == 2 || m == 3 then if l1 then 20 else 19
    else if m == 4 then 20
    else if m == 5 then 19
    else if m == 1 || m == 8 || m == 10 then 18
    else if l1 || l2 then 19 else 18
  }

  /** Leap years do not follow each other. */
  predicate Apart(l0: bool, l1: bool, l2: bool) {
    !(l0 && l1) && !(l1 && l2) && !(l0 && l2)
  }

  lemma LeapYearsApart(year: int)
    ensures Apart(IsLeap(year), IsLeap(year + 1), IsLeap(year + 2))
  {
  }

  /** The stride fits at the bound and no longer one month further, in the first half of a year. */
  lemma BoundFitsEarly(m: nat, l0: bool, l1: bool, l2: bool)
    requires m < 6 && Apart(l0, l1, l2)
    ensures Fits(m, Bound(m, l0, l1, l2), l0, l1, l2) && !Fits(m, Bound(m, l0, l1, l2) + 1, l0, l1, l2)
  {
  }

  lemma BoundFitsLate(m: nat, l0: bool, l1: bool, l2: bool)
    requires 6 <= m < 12 && Apart(l0, l1, l2)
    ensures Fits(m, Bound(m, l0, l1, l2), l0, l1, l2) && !Fits(m, Bound(m, l0, l1, l2) + 1, l0, l1, l2)
  {
  }

  lemma DriftOver(year: int, m: nat, o: nat)
    requires m < 12 && m + o < 36
    ensures var l0, l1, l2 := IsLeap(year), IsLeap(year + 1), IsLeap(year + 2);
            && Drift(12 * year + m, o) == DaysBefore(m, l0) + 32 * o - DaysOver(m + o, l0, l1, l2)
            && DaysIn(12 * year + m + o) == LengthOver(m + o, l0, l1, l2)
  {
    FirstDayOver(year, m);
    FirstDayOver(year, m + o);
    LengthIsOver(year, m + o);
    assert 12 * year + (m + o) == 12 * year + m + o;
  }

  lemma BoundFits(m: nat, l0: bool, l1: bool, l2: bool)
    requires m < 12 && Apart(l0, l1, l2)
    ensures Fits(m, Bound(m, l0, l1, l2), l0, l1, l2) && !Fits(m, Bound(m, l0, l1, l2) + 1, l0, l1, l2)
  {
    if m < 6 { BoundFitsEarly(m, l0, l1, l2); } else { BoundFitsLate(m, l0, l1, l2); }
  }

  /** The last right offset from a day. */
  ghost function BoundFor(anchor: int): nat {
    var n := MonthOf(anchor);
    var year := n / 12;
    Bound(n % 12, IsLeap(year), IsLeap(year + 1), IsLeap(year + 2))
  }

  lemma LandsIffFits(year: int, m: nat, o: nat)
    requires m < 12 && m + o < 36
    ensures Lands(12 * year + m, o) <==> Fits(m, o, IsLeap(year), IsLeap(year + 1), IsLeap(year + 2))
  {
    DriftOver(year, m, o);
  }

  lemma BoundLands(year: int, m: nat)
    requires m < 12
    ensures var b := Bound(m, IsLeap(year), IsLeap(year + 1), IsLeap(year + 2));
            Lands(12 * year + m, b) && !Lands(12 * year + m, b + 1)
  {
    var l0, l1, l2 := IsLeap(year), IsLeap(year + 1), IsLeap(year + 2);
    var b := Bound(m, l0, l1, l2);
    LeapYearsApart(year);
    BoundFits(m, l0, l1, l2);
    LandsIffFits(year, m, b);
    LandsIffFits(year, m, b + 1);
  }

  lemma BoundIsLast(anchor: int)
    ensures Lands(MonthOf(anchor), BoundFor(anchor)) && !Lands(MonthOf(anchor), BoundFor(anchor) + 1)
  {
    var n := MonthOf(anchor);
    assert 12 * (n / 12) + n % 12 == n;
    BoundLands(n / 12, n % 12);
  }

  /**
   The exact condition, for every date and every offset: the shift is right from the current
   month up to a bound of 18 to 20 months that the month and the leap years decide.
   */
  lemma ShiftMonthExact(anchor: int, o: int)
    ensures ShiftMonth(anchor, o) == FirstDay(MonthOf(anchor) + o) <==> 0 <= o <= BoundFor(anchor)
  {
    var n, bound := MonthOf(anchor), BoundFor(anchor);
    RightIfItLands(anchor, o);
    DriftSign(n, o);
    BoundIsLast(anchor);
    if 0 <= o <= bound {
      LandsUpTo(n, o, bound);
    } else if o > bound && Lands(n, o) {
      LandsUpTo(n, bound + 1, o);
    }
  }

  /** Whatever the date, 18 months ahead are always right. */
  lemma ShiftMonthWithinBound(anchor: int, o: nat)
    requires o <= 18
    ensures ShiftMonth(anchor, o) == FirstDay(MonthOf(anchor) + o)
  {
    ShiftMonthExact(anchor, o);
  }

  /** A day on or after the start of a month is in that month or a later one. */
  lemma MonthNotBefore(day: int, n: int)
    requires FirstDay(n) <= day
    ensures FirstDay(n) <= FirstOfMonth(day)
  {
    var m := MonthOf(day);
    if m < n { FirstDayMonotone(m + 1, n); } else { FirstDayMonotone(n, m); }
  }

  /** Every negative offset, from every date, shows too early a month. */
  lemma NegativeOffsetTooEarly(anchor: int, o: int)
    requires o < 0
    ensures ShiftMonth(anchor, o) < FirstDay(MonthOf(anchor) + o)
  {
    DriftSign(MonthOf(anchor), o);
  }

  /** A stride that drifts out of the target month ends in a later one. */
  lemma DriftedPast(n: int, o: int)
    requires Drift(n, o) >= DaysIn(n + o)
    ensures FirstOfMonth(FirstDay(n) + 32 * o) > FirstDay(n + o)
  {
    NextMonth(n + o);
    MonthNotBefore(FirstDay(n) + 32 * o, n + o + 1);
  }

  /** Every offset past the bound shows too late a month. */
  lemma OffsetPastBoundTooLate(anchor: int, o: int)
    requires o > BoundFor(anchor)
    ensures ShiftMonth(anchor, o) > FirstDay(MonthOf(anchor) + o)
  {
    ShiftMonthExact(anchor, o);
    RightIfItLands(anchor, o);
    DriftSign(MonthOf(anchor), o);
    DriftedPast(MonthOf(anchor), o);
  }

  // ---------------------------------------------------------------------------
  // The visible windows
  // ---------------------------------------------------------------------------

  datatype View = Month | Week | Day

  datatype Window = Window(first: int, last: int)

  /** `_window`. */
  ghost function WindowOf(view: View, today: int, o: int): Window {
    match view
    case Month =>
      var first := ShiftMonth(today, o);
      var last := FirstOfMonth(first + 32) - 1;
      Window(first - Weekday(first), last + (6 - Weekday(last)))
    case Week =>
      var monday := today - Weekday(today) + 7 * o;
      Window(monday, monday + 6)
    case Day => Window(today + o, today + o)
  }

  /** Two days past the longest month is still inside the next one. */
  lemma LastOfMonth(n: int)
    ensures FirstOfMonth(FirstDay(n) + 32) == FirstDay(n + 1)
  {
    NextMonth(n);
    NextMonth(n + 1);
    LandsIn(FirstDay(n) + 32, n + 1);
  }

  /**
   A grid for month n: from a Monday to a Sunday, over the whole month and nothing a week away
   from it, in 28, 35 or 42 days.
   */
  ghost predicate GridFor(w: Window, n: int) {
    && Weekday(w.first) == 0 && Weekday(w.last) == 6
    && w.first <= FirstDay(n) < w.first + 7
    && w.last - 7 < FirstDay(n + 1) - 1 <= w.last
    && w.last - w.first + 1 in {28, 35, 42}
  }

  lemma GridAround(n: int)
    ensures var first, last := FirstDay(n), FirstDay(n + 1) - 1;
            GridFor(Window(first - Weekday(first), last + (6 - Weekday(last))), n)
  {
    NextMonth(n);
    WeekAligned(FirstDay(n), FirstDay(n + 1) - 1);
  }

  lemma MonthWindow(today: int, o: int, n: int)
    requires ShiftMonth(today, o) == FirstDay(n)
    ensures MonthOf(ShiftMonth(today, o)) == n
    ensures var first, last := FirstDay(n), FirstDay(n + 1) - 1;
            WindowOf(Month, today, o) == Window(first - Weekday(first), last + (6 - Weekday(last)))
  {
    NextMonth(n);
    LandsIn(FirstDay(n), n);
    LastOfMonth(n);
  }

  /** For every today and offset, the month window is the grid of the month it is anchored in. */
  lemma MonthGridShape(today: int, o: int)
    ensures GridFor(WindowOf(Month, today, o), MonthOf(ShiftMonth(today, o)))
  {
    var n := MonthOf(FirstOfMonth(today) + 32 * o);
    MonthWindow(today, o, n);
    GridAround(n);
  }

  lemma WeekAligned(first: int, last: int)
    requires 27 <= last - first <= 30
    ensures Weekday(first - Weekday(first)) == 0 && Weekday(last + (6 - Weekday(last))) == 6
    ensures (last + (6 - Weekday(last))) - (first - Weekday(first)) + 1 in {28, 35, 42}
  {
    var a, b := first - Weekday(first), last + (6 - Weekday(last));
    assert (a + 6) % 7 == 0 && (b + 6) % 7 == 6;
    assert (b - a + 1) % 7 == 0;
    assert 28 <= b - a + 1 <= 43;
  }

  /** Every view's padded window passes the service's range check. */
  lemma {:induction false} PaddedWindowIsInRange(view: View, today: int, o: int)
    ensures var w := WindowOf(view, today, o);
            && w.first <= w.last
            && ValidateRange(w.first - PAD_DAYS, w.last + PAD_DAYS).None?
  {
    if view.Month? { MonthGridShape(today, o); }
  }

  /** The week window is the Monday to Sunday week that holds the same day o weeks on. */
  lemma WeekWindow(today: int, o: int)
    ensures var w := WindowOf(Week, today, o);
            && Weekday(w.first) == 0 && Weekday(w.last) == 6 && w.last - w.first == 6
            && w.first <= today + 7 * o <= w.last
  {
  }

  /** The day window is the one day o days on. */
  lemma DayWindow(today: int, o: int, day: int)
    ensures var w := WindowOf(Day, today, o); w.first <= day <= w.last <==> day - today == o
  {
  }

  /** Weekdays go round, from Monday 0 to Sunday 6. */
  lemma WeekdaysGoRound(day: int)
    ensures Weekday(day + 1) == if Weekday(day) == 6 then 0 else Weekday(day) + 1
  {
  }

  /** They are the calendar's: 1 January of year 1 was a Monday and that of 2000 a Saturday. */
  lemma WeekdaysAnchored(year: int)
    ensures year == 1 ==> Weekday(FirstDay(12 * year)) == 0
    ensures year == 2000 ==> Weekday(FirstDay(12 * year)) == 5
  {
    YearStartIsOrdinal(year);
  }

  /** `days[i : i + 7]` in steps of seven. */
  method Weeks(first: int, last: int) returns (weeks: seq<seq<int>>)
    requires first <= last && (last - first + 1) % 7 == 0
    ensures 7 * |weeks| == last - first + 1
    ensures forall i | 0 <= i < |weeks| :: |weeks[i]| == 7
    ensures forall i, j | 0 <= i < |weeks| && 0 <= j < 7 :: weeks[i][j] == first + 7 * i + j
  {
    weeks := [];
    var day := first;
    while day <= last
      invariant day == first + 7 * |weeks|
      invariant day <= last + 1 && (last + 1 - day) % 7 == 0
      invariant forall i | 0 <= i < |weeks| :: |weeks[i]| == 7
      invariant forall i, j | 0 <= i < |weeks| && 0 <= j < 7 :: weeks[i][j] == first + 7 * i + j
    {
      weeks := weeks + [seq(7, j requires 0 <= j < 7 => day + j)];
      day := day + 7;
    }
  }
}
