/**
 Read-time expansion of the calendar (src/nidaro/calendar/recurrence.py): weekly series
 become occurrences by date arithmetic in the household's zone, merged in one sorted list.
 Days are proleptic Gregorian ordinals, as `date.toordinal` counts them.
 */
module Recurrence {
  import opened Wrappers
  import opened Zones
  import Models = ConnectorModels

  const MAX_RANGE_DAYS := 62

  /** `date.weekday`: Monday is 0. */
  function Weekday(day: int): (w: int)
    ensures 0 <= w < 7
  {
    (day + 6) % 7
  }

  datatype Event = Event(
    id: nat,
    title: string,
    location: Option<string>,
    participants: set<nat>,
    isAllDay: bool,
    startsAt: int,
    endsAt: Option<int>,
    recurrenceWeekdays: Option<seq<int>>
  )

  /** One occurrence; `startsAt` and `endsAt` are wall clock readings. */
  datatype OccurrenceView = OccurrenceView(
    eventId: nat,
    date: int,
    title: string,
    location: Option<string>,
    participants: set<nat>,
    isAllDay: bool,
    startsAt: Option<int>,
    endsAt: Option<int>
  )

  // ---------------------------------------------------------------------------
  // When an event occurs, and what is shown
  // ---------------------------------------------------------------------------

  function WeekdaysOf(e: Event): seq<int> {
    if e.recurrenceWeekdays.Some? then e.recurrenceWeekdays.value else []
  }

  function FirstDate(e: Event, z: Zone): int {
    DayOf(Local(z, e.startsAt))
  }

  /** The reference reading: a series occurs on its weekdays from its first date on, any other event once. */
  predicate OccursOn(e: Event, z: Zone, day: int) {
    if WeekdaysOf(e) != [] then day >= FirstDate(e, z) && Weekday(day) in WeekdaysOf(e)
    else day == FirstDate(e, z)
  }

  function ViewOn(e: Event, z: Zone, day: int): OccurrenceView {
    if e.isAllDay then
      OccurrenceView(e.id, day, e.title, e.location, e.participants, true, None, None)
    else
      OccurrenceView(e.id, day, e.title, e.location, e.participants, false,
                     Some(day * DAY + TimeOf(Local(z, e.startsAt))),
                     if e.endsAt.Some? then Some(day * DAY + TimeOf(Local(z, e.endsAt.value))) else None)
  }

  /** A wall clock reading shows another one's time of day on a given date. */
  predicate ShowsClock(shown: int, date: int, reading: int) {
    DayOf(shown) == date && (shown - reading) % DAY == 0
  }

  /** What an occurrence tells of its event: who and what, and on its own date the event's local times. */
  predicate Depicts(e: Event, z: Zone, v: OccurrenceView) {
    && v.eventId == e.id && v.title == e.title && v.location == e.location && v.participants == e.participants
    && v.isAllDay == e.isAllDay
    && (v.isAllDay ==> v.startsAt.None? && v.endsAt.None?)
    && (!v.isAllDay ==>
          && v.startsAt.Some? && ShowsClock(v.startsAt.value, v.date, Local(z, e.startsAt))
          && (v.endsAt.Some? <==> e.endsAt.Some?)
          && (e.endsAt.Some? ==> ShowsClock(v.endsAt.value, v.date, Local(z, e.endsAt.value))))
  }

  lemma ShowsClockIff(shown: int, date: int, reading: int)
    ensures ShowsClock(shown, date, reading) <==> shown == date * DAY + TimeOf(reading)
  {
    var quotient := shown / DAY;
    assert shown == quotient * DAY + TimeOf(shown);
    assert reading == (reading / DAY) * DAY + TimeOf(reading);
    SameTime(shown, reading);
    if shown == date * DAY + TimeOf(reading) { DayUnique(shown, date, TimeOf(reading)); }
  }

  lemma SameTime(a: int, b: int)
    ensures (a - b) % DAY == 0 <==> TimeOf(a) == TimeOf(b)
  {
  }

  lemma DayUnique(a: int, date: int, time: int)
    requires a == date * DAY + time && 0 <= time < DAY
    ensures DayOf(a) == date && TimeOf(a) == time
  {
  }

  /** An occurrence on a date is determined by what it tells. */
  lemma DepictsIff(e: Event, z: Zone, v: OccurrenceView)
    ensures Depicts(e, z, v) <==> v == ViewOn(e, z, v.date)
  {
    if v.startsAt.Some? { ShowsClockIff(v.startsAt.value, v.date, Local(z, e.startsAt)); }
    if v.endsAt.Some? && e.endsAt.Some? { ShowsClockIff(v.endsAt.value, v.date, Local(z, e.endsAt.value)); }
  }

  /** An event within one local day is shown at exactly its local start and end. */
  lemma OneDayEventShownExactly(e: Event, z: Zone, v: OccurrenceView)
    requires Depicts(e, z, v) && !e.isAllDay && e.endsAt.Some?
    requires v.date == DayOf(Local(z, e.startsAt)) == DayOf(Local(z, e.endsAt.value))
    ensures v.startsAt == Some(Local(z, e.startsAt)) && v.endsAt == Some(Local(z, e.endsAt.value))
  {
    ShowsClockIff(v.startsAt.value, v.date, Local(z, e.startsAt));
    ShowsClockIff(v.endsAt.value, v.date, Local(z, e.endsAt.value));
  }

  function ClockOf(v: OccurrenceView): int {
    if v.startsAt.Some? then TimeOf(v.startsAt.value) else 0
  }

  /** `_sort_key` compares date, then wall clock, then event id. */
  predicate Before(a: OccurrenceView, b: OccurrenceView) {
    || a.date < b.date
    || (a.date == b.date && ClockOf(a) < ClockOf(b))
    || (a.date == b.date && ClockOf(a) == ClockOf(b) && a.eventId < b.eventId)
  }

  // ---------------------------------------------------------------------------
  // Expansion as the code computes it
  // ---------------------------------------------------------------------------

  function Max(a: int, b: int): int {
    if a > b then a else b
  }

  /** The days of a window whose weekday is wanted. */
  function DaysOn(fromDay: int, toDay: int, weekdays: seq<int>): seq<int>
    decreases toDay - fromDay + 1
  {
    if fromDay > toDay then []
    else DaysOn(fromDay, toDay - 1, weekdays) + if Weekday(toDay) in weekdays then [toDay] else []
  }

  /** `_daterange` filtered by weekday, a day at a time. */
  method DaysInWindow(fromDay: int, toDay: int, weekdays: seq<int>) returns (days: seq<int>)
    ensures days == DaysOn(fromDay, toDay, weekdays)
  {
    days := [];
    var day := fromDay;
    while day <= toDay
      invariant fromDay <= day && (day <= toDay + 1 || day == fromDay)
      invariant days == DaysOn(fromDay, day - 1, weekdays)
    {
      if Weekday(day) in weekdays {
        days := days + [day];
      }
      day := day + 1;
    }
    if fromDay > toDay {
      assert DaysOn(fromDay, toDay, weekdays) == [];
    }
  }

  function DatesOf(e: Event, z: Zone, fromDay: int, toDay: int): seq<int> {
    if WeekdaysOf(e) != [] then DaysOn(Max(fromDay, FirstDate(e, z)), toDay, WeekdaysOf(e))
    else if fromDay <= FirstDate(e, z) <= toDay then [FirstDate(e, z)]
    else []
  }

  function ExpandEvent(e: Event, z: Zone, fromDay: int, toDay: int): seq<OccurrenceView> {
    var dates := DatesOf(e, z, fromDay, toDay);
    seq(|dates|, i requires 0 <= i < |dates| => ViewOn(e, z, dates[i]))
  }

  function ExpandAll(events: seq<Event>, z: Zone, fromDay: int, toDay: int): seq<OccurrenceView> {
    if events == [] then []
    else ExpandAll(events[..|events| - 1], z, fromDay, toDay)
         + ExpandEvent(events[|events| - 1], z, fromDay, toDay)
  }

  /** Insert behind every view that does not come after it. */
  function Insert(s: seq<OccurrenceView>, v: OccurrenceView): seq<OccurrenceView> {
    if s == [] || !Before(v, s[|s| - 1]) then s + [v]
    else Insert(s[..|s| - 1], v) + [s[|s| - 1]]
  }

  /** `sorted(views, key=_sort_key)`, stable. */
  function Sorted(s: seq<OccurrenceView>): seq<OccurrenceView> {
    if s == [] then [] else Insert(Sorted(s[..|s| - 1]), s[|s| - 1])
  }

  function ExpandEvents(events: seq<Event>, z: Zone, fromDay: int, toDay: int): seq<OccurrenceView> {
    Sorted(ExpandAll(events, z, fromDay, toDay))
  }

  // ---------------------------------------------------------------------------
  // The result is the strictly sorted list of exactly the occurrences
  // ---------------------------------------------------------------------------

  ghost predicate DistinctIds(events: seq<Event>) {
    forall i, j | 0 <= i < j < |events| :: events[i].id != events[j].id
  }

  ghost predicate StrictlySorted(s: seq<OccurrenceView>) {
    forall i, j | 0 <= i < j < |s| :: Before(s[i], s[j])
  }

  /** No event shows twice on one date. */
  ghost predicate OnceEach(s: seq<OccurrenceView>) {
    forall i, j | 0 <= i < j < |s| :: s[i].eventId != s[j].eventId || s[i].date != s[j].date
  }

  ghost predicate Occurrence(events: seq<Event>, z: Zone, fromDay: int, toDay: int, v: OccurrenceView) {
    fromDay <= v.date <= toDay && exists e <- events :: OccursOn(e, z, v.date) && Depicts(e, z, v)
  }

  lemma {:induction false} DaysOnAre(fromDay: int, toDay: int, weekdays: seq<int>, day: int)
    ensures day in DaysOn(fromDay, toDay, weekdays) <==> fromDay <= day <= toDay && Weekday(day) in weekdays
    decreases toDay - fromDay + 1
  {
    if fromDay <= toDay { DaysOnAre(fromDay, toDay - 1, weekdays, day); }
  }

  ghost predicate Ascends(days: seq<int>, lo: int, hi: int) {
    && (forall i, j | 0 <= i < j < |days| :: days[i] < days[j])
    && (forall i | 0 <= i < |days| :: lo <= days[i] <= hi)
  }

  lemma {:induction false} DaysOnAscend(fromDay: int, toDay: int, weekdays: seq<int>)
    ensures Ascends(DaysOn(fromDay, toDay, weekdays), fromDay, toDay)
    decreases toDay - fromDay + 1
  {
    if fromDay <= toDay {
      DaysOnAscend(fromDay, toDay - 1, weekdays);
      var rest := DaysOn(fromDay, toDay - 1, weekdays);
      assert Ascends(rest, fromDay, toDay) && Ascends(rest + [toDay], fromDay, toDay);
      assert rest + [] == rest;
    }
  }

  lemma ExpandEventIs(e: Event, z: Zone, fromDay: int, toDay: int, v: OccurrenceView)
    ensures v in ExpandEvent(e, z, fromDay, toDay)
       <==> fromDay <= v.date <= toDay && OccursOn(e, z, v.date) && Depicts(e, z, v)
  {
    var dates, views := DatesOf(e, z, fromDay, toDay), ExpandEvent(e, z, fromDay, toDay);
    DaysOnAre(Max(fromDay, FirstDate(e, z)), toDay, WeekdaysOf(e), v.date);
    DepictsIff(e, z, v);
    if v in views {
      var i :| 0 <= i < |views| && views[i] == v;
      assert dates[i] in dates && v.date == dates[i];
    }
    if v.date in dates && Depicts(e, z, v) {
      var i :| 0 <= i < |dates| && dates[i] == v.date;
      assert views[i] == v;
    }
  }

  lemma ExpandEventOnce(e: Event, z: Zone, fromDay: int, toDay: int)
    ensures OnceEach(ExpandEvent(e, z, fromDay, toDay))
    ensures forall v <- ExpandEvent(e, z, fromDay, toDay) :: v.eventId == e.id
  {
    DaysOnAscend(Max(fromDay, FirstDate(e, z)), toDay, WeekdaysOf(e));
    var dates, views := DatesOf(e, z, fromDay, toDay), ExpandEvent(e, z, fromDay, toDay);
    assert Ascends(dates, fromDay, toDay) || dates == [FirstDate(e, z)];
    assert forall i | 0 <= i < |views| :: views[i].date == dates[i];
    forall i, j | 0 <= i < j < |views| ensures views[i].date != views[j].date {
      assert dates[i] < dates[j];
    }
  }

  lemma {:induction false} ExpandAllIs(events: seq<Event>, z: Zone, fromDay: int, toDay: int, v: OccurrenceView)
    ensures v in ExpandAll(events, z, fromDay, toDay) <==> Occurrence(events, z, fromDay, toDay, v)
  {
    if events != [] {
      var init, last := events[..|events| - 1], events[|events| - 1];
      ExpandAllIs(init, z, fromDay, toDay, v);
      ExpandEventIs(last, z, fromDay, toDay, v);
      assert events == init + [last];
    }
  }

  lemma {:induction false} ExpandAllOnce(events: seq<Event>, z: Zone, fromDay: int, toDay: int)
    requires DistinctIds(events)
    ensures OnceEach(ExpandAll(events, z, fromDay, toDay))
  {
    if events != [] {
      var init, last := events[..|events| - 1], events[|events| - 1];
      ExpandAllOnce(init, z, fromDay, toDay);
      ExpandEventOnce(last, z, fromDay, toDay);
      var a, b := ExpandAll(init, z, fromDay, toDay), ExpandEvent(last, z, fromDay, toDay);
      forall i, j | 0 <= i < |a| && 0 <= j < |b| ensures a[i].eventId != b[j].eventId {
        assert a[i] in a && b[j] in b;
        ExpandAllIs(init, z, fromDay, toDay, a[i]);
      }
    }
  }

  lemma {:induction false} InsertKeeps(s: seq<OccurrenceView>, v: OccurrenceView)
    ensures multiset(Insert(s, v)) == multiset(s) + multiset{v}
  {
    if s != [] && Before(v, s[|s| - 1]) {
      InsertKeeps(s[..|s| - 1], v);
      assert s == s[..|s| - 1] + [s[|s| - 1]];
    }
  }

  /** Every view of the list compares with `v`. */
  ghost predicate Comparable(s: seq<OccurrenceView>, v: OccurrenceView) {
    forall i | 0 <= i < |s| :: Before(s[i], v) || Before(v, s[i])
  }

  lemma AppendSorts(s: seq<OccurrenceView>, v: OccurrenceView)
    requires StrictlySorted(s) && (s != [] ==> Before(s[|s| - 1], v))
    ensures StrictlySorted(s + [v])
  {
    forall i | 0 <= i < |s| ensures Before(s[i], v) {
      if i < |s| - 1 { assert Before(s[i], s[|s| - 1]); }
    }
  }

  lemma {:induction false} InsertSorts(s: seq<OccurrenceView>, v: OccurrenceView)
    requires StrictlySorted(s) && Comparable(s, v)
    ensures StrictlySorted(Insert(s, v)) && |Insert(s, v)| == |s| + 1
    ensures Insert(s, v)[|s|] == v || (s != [] && Insert(s, v)[|s|] == s[|s| - 1])
  {
    if s != [] && Before(v, s[|s| - 1]) {
      var init, last := s[..|s| - 1], s[|s| - 1];
      InsertSorts(init, v);
      AppendSorts(Insert(init, v), last);
    } else {
      AppendSorts(s, v);
    }
  }

  lemma {:induction false} SortedKeeps(s: seq<OccurrenceView>)
    ensures multiset(Sorted(s)) == multiset(s)
  {
    if s != [] {
      var init, last := s[..|s| - 1], s[|s| - 1];
      SortedKeeps(init);
      InsertKeeps(Sorted(init), last);
      assert s == init + [last];
    }
  }

  lemma SortedMembers(s: seq<OccurrenceView>, v: OccurrenceView)
    ensures v in Sorted(s) <==> v in s
  {
    SortedKeeps(s);
    assert v in Sorted(s) <==> v in multiset(Sorted(s));
  }

  /** Two occurrences of different identity always compare. */
  lemma {:induction false} SortedIs(s: seq<OccurrenceView>)
    requires OnceEach(s)
    ensures StrictlySorted(Sorted(s))
  {
    if s != [] {
      var init, last := s[..|s| - 1], s[|s| - 1];
      SortedIs(init);
      forall i | 0 <= i < |Sorted(init)| ensures Before(Sorted(init)[i], last) || Before(last, Sorted(init)[i]) {
        SortedMembers(init, Sorted(init)[i]);
      }
      InsertSorts(Sorted(init), last);
    }
  }

  /** What `expand_events` returns: exactly the occurrences in the window, strictly by date, time and id. */
  lemma ExpandEventsIs(events: seq<Event>, z: Zone, fromDay: int, toDay: int)
    requires DistinctIds(events)
    ensures StrictlySorted(ExpandEvents(events, z, fromDay, toDay))
    ensures forall v :: v in ExpandEvents(events, z, fromDay, toDay) <==> Occurrence(events, z, fromDay, toDay, v)
  {
    var all := ExpandAll(events, z, fromDay, toDay);
    ExpandAllOnce(events, z, fromDay, toDay);
    SortedIs(all);
    forall v ensures v in Sorted(all) <==> Occurrence(events, z, fromDay, toDay, v) {
      ExpandAllIs(events, z, fromDay, toDay, v);
      SortedMembers(all, v);
    }
  }

  /** The result ascends by date, on one date by clock with all-day events first, and then by id. */
  lemma ExpandEventsAscend(events: seq<Event>, z: Zone, fromDay: int, toDay: int, i: nat, j: nat)
    requires DistinctIds(events) && i < j < |ExpandEvents(events, z, fromDay, toDay)|
    ensures var a, b := ExpandEvents(events, z, fromDay, toDay)[i], ExpandEvents(events, z, fromDay, toDay)[j];
            && a.date <= b.date
            && (a.date == b.date && b.startsAt.None? ==> a.startsAt.None? || TimeOf(a.startsAt.value) == 0)
            && (a.date == b.date && a.startsAt.Some? && b.startsAt.Some? ==> a.startsAt.value <= b.startsAt.value)
            && (a.date == b.date && a.startsAt == b.startsAt ==> a.eventId < b.eventId)
  {
    ExpandEventsIs(events, z, fromDay, toDay);
    var views := ExpandEvents(events, z, fromDay, toDay);
    var a, b := views[i], views[j];
    assert Before(a, b);
    assert a in views && b in views;
    var d :| d in events && Depicts(d, z, a);
    var e :| e in events && Depicts(e, z, b);
  }

  /** A strictly sorted list is determined by its elements. */
  lemma {:induction false} SortedUnique(s: seq<OccurrenceView>, t: seq<OccurrenceView>)
    requires StrictlySorted(s) && StrictlySorted(t)
    requires forall v :: v in s <==> v in t
    ensures s == t
  {
    assert t != [] ==> t[0] in t;
    if s != [] {
      assert s[|s| - 1] in s;
      assert t != [];
      assert t[|t| - 1] in t;
      var a, b := s[|s| - 1], t[|t| - 1];
      var i :| 0 <= i < |t| && t[i] == a;
      var j :| 0 <= j < |s| && s[j] == b;
      assert a == b;
      var s', t' := s[..|s| - 1], t[..|t| - 1];
      forall v ensures v in s' <==> v in t' {
        LastOnce(s, v);
        LastOnce(t, v);
      }
      SortedUnique(s', t');
    }
  }

  lemma LastOnce(s: seq<OccurrenceView>, v: OccurrenceView)
    requires StrictlySorted(s) && s != []
    ensures v in s[..|s| - 1] <==> v in s && v != s[|s| - 1]
  {
    assert s == s[..|s| - 1] + [s[|s| - 1]];
  }

  // ---------------------------------------------------------------------------
  // Laws of expansion
  // ---------------------------------------------------------------------------

  /** Each (event, date) identity appears once. */
  lemma IdentityOnce(events: seq<Event>, z: Zone, fromDay: int, toDay: int)
    requires DistinctIds(events)
    ensures OnceEach(ExpandEvents(events, z, fromDay, toDay))
  {
    ExpandEventsIs(events, z, fromDay, toDay);
    var views := ExpandEvents(events, z, fromDay, toDay);
    forall i, j | 0 <= i < j < |views|
      ensures views[i].eventId != views[j].eventId || views[i].date != views[j].date
    {
      assert views[i] in views && views[j] in views;
      SameIdentitySameView(events, z, fromDay, toDay, views[i], views[j]);
      assert Before(views[i], views[j]);
    }
  }

  lemma SameIdentitySameView(events: seq<Event>, z: Zone, fromDay: int, toDay: int, u: OccurrenceView,
                             v: OccurrenceView)
    requires DistinctIds(events) && Occurrence(events, z, fromDay, toDay, u) && Occurrence(events, z, fromDay, toDay, v)
    ensures u.eventId == v.eventId && u.date == v.date ==> u == v
  {
    var d :| d in events && Depicts(d, z, u);
    var e :| e in events && Depicts(e, z, v);
    DepictsIff(d, z, u);
    DepictsIff(e, z, v);
  }

  /** A window is the concatenation of any two windows it splits into. */
  lemma WindowsConcatenate(events: seq<Event>, z: Zone, a: int, b: int, c: int)
    requires DistinctIds(events) && a - 1 <= b <= c
    ensures ExpandEvents(events, z, a, c) == ExpandEvents(events, z, a, b) + ExpandEvents(events, z, b + 1, c)
  {
    ExpandEventsIs(events, z, a, b);
    ExpandEventsIs(events, z, b + 1, c);
    ExpandEventsIs(events, z, a, c);
    var left, right := ExpandEvents(events, z, a, b), ExpandEvents(events, z, b + 1, c);
    forall i, j | 0 <= i < |left| && 0 <= j < |right| ensures Before(left[i], right[j]) {
      assert left[i] in left && right[j] in right;
    }
    SortedUnique(ExpandEvents(events, z, a, c), left + right);
  }

  /** The result does not depend on the order the events came in. */
  lemma OrderIndependent(events: seq<Event>, shuffled: seq<Event>, z: Zone, fromDay: int, toDay: int)
    requires DistinctIds(events) && DistinctIds(shuffled)
    requires forall e :: e in events <==> e in shuffled
    ensures ExpandEvents(events, z, fromDay, toDay) == ExpandEvents(shuffled, z, fromDay, toDay)
  {
    ExpandEventsIs(events, z, fromDay, toDay);
    ExpandEventsIs(shuffled, z, fromDay, toDay);
    SortedUnique(ExpandEvents(events, z, fromDay, toDay), ExpandEvents(shuffled, z, fromDay, toDay));
  }

  /** A payload's weekdays validate exactly when each is the weekday of some day. */
  lemma ValidWeekdaysAreDays(weekdays: seq<int>)
    ensures Models.ValidWeekdays(Some(weekdays)) <==> forall w <- weekdays :: exists day :: Weekday(day) == w
  {
    forall w | w in weekdays ensures 0 <= w < 7 <==> exists day :: Weekday(day) == w {
      if 0 <= w < 7 { assert Weekday(w + 1) == w; }
    }
  }

  // ---------------------------------------------------------------------------
  // Anchoring a new series
  // ---------------------------------------------------------------------------

  /** `first_weekday_on_or_after`: the first wanted weekday at or after a day, at most six days on. */
  method FirstWeekdayOnOrAfter(day: int, weekdays: seq<int>) returns (anchor: int)
    requires exists w <- weekdays :: 0 <= w < 7
    ensures day <= anchor <= day + 6 && Weekday(anchor) in weekdays
    ensures forall d | day <= d < anchor :: Weekday(d) !in weekdays
  {
    ghost var w :| w in weekdays && 0 <= w < 7;
    ghost var bound := day + (w - Weekday(day) + 7) % 7;
    assert Weekday(bound) == w;
    anchor := day;
    while Weekday(anchor) !in weekdays
      invariant day <= anchor <= bound
      invariant forall d | day <= d < anchor :: Weekday(d) !in weekdays
      decreases bound - anchor
    {
      anchor := anchor + 1;
    }
  }

  /** A series anchored there is first read back on its anchor: writing and reading agree. */
  lemma AnchorIsFirstOccurrence(e: Event, z: Zone, toDay: int)
    requires WeekdaysOf(e) != [] && Weekday(FirstDate(e, z)) in WeekdaysOf(e) && FirstDate(e, z) <= toDay
    ensures forall fromDay | fromDay <= FirstDate(e, z) ::
              var views := ExpandEvent(e, z, fromDay, toDay); views != [] && views[0].date == FirstDate(e, z)
  {
    forall fromDay | fromDay <= FirstDate(e, z)
      ensures var views := ExpandEvent(e, z, fromDay, toDay); views != [] && views[0].date == FirstDate(e, z)
    {
      var dates := DatesOf(e, z, fromDay, toDay);
      DaysOnAre(FirstDate(e, z), toDay, WeekdaysOf(e), FirstDate(e, z));
      DaysOnAscend(FirstDate(e, z), toDay, WeekdaysOf(e));
      var i :| 0 <= i < |dates| && dates[i] == FirstDate(e, z);
      assert dates[0] <= dates[i];
    }
  }
}
