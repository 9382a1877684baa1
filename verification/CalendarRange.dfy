/**
 Reading a window of the calendar: the database prefilter
 (`CalendarRepository.range`, src/nidaro/calendar/repository.py), the service on top of it
 (`CalendarService.range`, src/nidaro/calendar/service.py) and the repeat marker of the page
 (`_repeat_ids`, src/nidaro/web/routes/calendar.py).
 */
module CalendarRange {
  import opened Wrappers
  import opened Zones
  import opened Recurrence

  /** One row of the events table as the range query sees it. */
  datatype Row = Row(household: string, event: Event)

  /** The query's WHERE clause. */
  predicate Keeps(e: Event, z: Zone, fromDay: int, toDay: int) {
    && e.startsAt < Midnight(z, toDay + 1)
    && (e.startsAt >= Midnight(z, fromDay) || |WeekdaysOf(e)| > 0)
  }

  function Household(rows: seq<Row>, household: string): seq<Event> {
    if rows == [] then []
    else Household(rows[..|rows| - 1], household)
         + if rows[|rows| - 1].household == household then [rows[|rows| - 1].event] else []
  }

  function Kept(events: seq<Event>, z: Zone, fromDay: int, toDay: int): seq<Event> {
    if events == [] then []
    else Kept(events[..|events| - 1], z, fromDay, toDay)
         + if Keeps(events[|events| - 1], z, fromDay, toDay) then [events[|events| - 1]] else []
  }

  lemma {:induction false} KeptAre(events: seq<Event>, z: Zone, fromDay: int, toDay: int, e: Event)
    ensures e in Kept(events, z, fromDay, toDay) <==> e in events && Keeps(e, z, fromDay, toDay)
  {
    if events != [] {
      var init, last := events[..|events| - 1], events[|events| - 1];
      assert events == init + [last];
      KeptAre(init, z, fromDay, toDay, e);
    }
  }

  lemma {:induction false} KeptDistinct(events: seq<Event>, z: Zone, fromDay: int, toDay: int)
    requires DistinctIds(events)
    ensures DistinctIds(Kept(events, z, fromDay, toDay))
  {
    if events != [] {
      var init, last := events[..|events| - 1], events[|events| - 1];
      KeptDistinct(init, z, fromDay, toDay);
      var kept := Kept(init, z, fromDay, toDay);
      forall i | 0 <= i < |kept| ensures kept[i].id != last.id {
        KeptAre(init, z, fromDay, toDay, kept[i]);
      }
    }
  }

  // ---------------------------------------------------------------------------
  // The prefilter loses nothing exactly when no transition crosses a midnight
  // ---------------------------------------------------------------------------

  /** Where both window midnights split the instants by date, a row the query drops has no occurrence. */
  lemma DroppedHasNoOccurrence(e: Event, z: Zone, fromDay: int, toDay: int, day: int)
    requires SplitsDay(z, fromDay) && SplitsDay(z, toDay + 1)
    requires !Keeps(e, z, fromDay, toDay) && fromDay <= day <= toDay
    ensures !OccursOn(e, z, day)
  {
    var local := Local(z, e.startsAt);
    assert local < (toDay + 1) * DAY <==> e.startsAt < Utc(z, (toDay + 1) * DAY);
    assert local < fromDay * DAY <==> e.startsAt < Utc(z, fromDay * DAY);
  }

  /** Expanding the kept rows is expanding all of them. */
  ghost predicate LosesNothing(z: Zone, events: seq<Event>, fromDay: int, toDay: int) {
    ExpandEvents(Kept(events, z, fromDay, toDay), z, fromDay, toDay) == ExpandEvents(events, z, fromDay, toDay)
  }

  lemma LosesNothingWhenSplit(z: Zone, events: seq<Event>, fromDay: int, toDay: int)
    requires DistinctIds(events) && SplitsDay(z, fromDay) && SplitsDay(z, toDay + 1)
    ensures LosesNothing(z, events, fromDay, toDay)
  {
    var kept := Kept(events, z, fromDay, toDay);
    KeptDistinct(events, z, fromDay, toDay);
    ExpandEventsIs(events, z, fromDay, toDay);
    ExpandEventsIs(kept, z, fromDay, toDay);
    forall v ensures Occurrence(kept, z, fromDay, toDay, v) <==> Occurrence(events, z, fromDay, toDay, v) {
      if Occurrence(events, z, fromDay, toDay, v) {
        var e :| e in events && OccursOn(e, z, v.date) && Depicts(e, z, v);
        KeptAre(events, z, fromDay, toDay, e);
        if !Keeps(e, z, fromDay, toDay) { DroppedHasNoOccurrence(e, z, fromDay, toDay, v.date); }
      }
      if Occurrence(kept, z, fromDay, toDay, v) {
        var e :| e in kept && OccursOn(e, z, v.date) && Depicts(e, z, v);
        KeptAre(events, z, fromDay, toDay, e);
      }
    }
    SortedUnique(ExpandEvents(kept, z, fromDay, toDay), ExpandEvents(events, z, fromDay, toDay));
  }

  function OneOff(startsAt: int): Event {
    Event(0, "", None, {}, false, startsAt, None, None)
  }

  /** Where a midnight fails to split the instants, some one-off event disappears from some window. */
  lemma LosesWhenUnsplit(z: Zone, day: int) returns (e: Event, fromDay: int, toDay: int)
    requires !SplitsDay(z, day)
    ensures !LosesNothing(z, [e], fromDay, toDay)
  {
    var utc: int :| Local(z, utc) < day * DAY <==> !(utc < Utc(z, day * DAY));
    e := OneOff(utc);
    var first := FirstDate(e, z);
    fromDay, toDay := if first < day then first else day, if first < day then day - 1 else first;
    assert !Keeps(e, z, fromDay, toDay) && OccursOn(e, z, first);
    assert Kept([e], z, fromDay, toDay) == [] by {
      assert [e][..0] == [];
    }
    OccurrenceIsShown([e], z, fromDay, toDay, e, first);
    NothingExpands(z, fromDay, toDay);
  }

  lemma NothingExpands(z: Zone, fromDay: int, toDay: int)
    ensures ExpandEvents([], z, fromDay, toDay) == []
  {
  }

  lemma OccurrenceIsShown(events: seq<Event>, z: Zone, lo: int, hi: int, e: Event, day: int)
    requires DistinctIds(events) && e in events && lo <= day <= hi && OccursOn(e, z, day)
    ensures ViewOn(e, z, day) in ExpandEvents(events, z, lo, hi)
  {
    var v := ViewOn(e, z, day);
    ExpandEventsIs(events, z, lo, hi);
    DepictsIff(e, z, v);
    assert Occurrence(events, z, lo, hi, v);
  }

  /**
   The exact condition: over every set of events and every window, expanding only what the
   query keeps gives the full expansion if and only if no transition of the zone carries the
   clock back over a midnight or jumps past one.
   */
  lemma PrefilterExact(z: Zone)
    requires Ordered(z)
    ensures (forall events, fromDay, toDay :: DistinctIds(events) ==> LosesNothing(z, events, fromDay, toDay))
       <==> NoMidnightCrossing(z)
  {
    MidnightsSplitIff(z);
    if NoMidnightCrossing(z) {
      forall events, fromDay, toDay | DistinctIds(events) ensures LosesNothing(z, events, fromDay, toDay) {
        LosesNothingWhenSplit(z, events, fromDay, toDay);
      }
    } else {
      var day :| !SplitsDay(z, day);
      var e, fromDay, toDay := LosesWhenUnsplit(z, day);
      assert DistinctIds([e]);
    }
  }

  // ---------------------------------------------------------------------------
  // The service
  // ---------------------------------------------------------------------------

  /** The rows come back ordered by start, ties in any order: some arrangement of the kept ones. */
  ghost predicate QueryResult(rows: seq<Row>, household: string, z: Zone, fromDay: int, toDay: int,
                              result: seq<Event>) {
    DistinctIds(result) && forall e :: e in result <==> e in Kept(Household(rows, household), z, fromDay, toDay)
  }

  function ValidateRange(fromDay: int, toDay: int): Option<string> {
    if toDay - fromDay > MAX_RANGE_DAYS then Some("Range too large") else None
  }

  /** `CalendarService.range` over whatever the query returned. */
  function Range(result: seq<Event>, z: Zone, fromDay: int, toDay: int): Result<seq<OccurrenceView>, string> {
    if ValidateRange(fromDay, toDay).Some? then Failure(ValidateRange(fromDay, toDay).value)
    else Success(ExpandEvents(result, z, fromDay, toDay))
  }

  /** Some row of the household occurs on the view's date, and the view tells of it. */
  ghost predicate HouseholdShows(rows: seq<Row>, household: string, z: Zone, fromDay: int, toDay: int,
                                 v: OccurrenceView) {
    fromDay <= v.date <= toDay
    && exists row <- rows :: row.household == household && OccursOn(row.event, z, v.date) && Depicts(row.event, z, v)
  }

  lemma {:induction false} HouseholdHas(rows: seq<Row>, household: string, e: Event)
    ensures e in Household(rows, household) <==> Row(household, e) in rows
  {
    if rows != [] {
      var init, last := rows[..|rows| - 1], rows[|rows| - 1];
      assert rows == init + [last];
      HouseholdHas(init, household, e);
    }
  }

  lemma HouseholdOccurs(rows: seq<Row>, household: string, z: Zone, fromDay: int, toDay: int, v: OccurrenceView)
    ensures HouseholdShows(rows, household, z, fromDay, toDay, v)
       <==> Occurrence(Household(rows, household), z, fromDay, toDay, v)
  {
    if HouseholdShows(rows, household, z, fromDay, toDay, v) {
      var row :| row in rows && row.household == household && OccursOn(row.event, z, v.date)
                 && Depicts(row.event, z, v);
      assert row == Row(household, row.event);
      HouseholdHas(rows, household, row.event);
    }
    if Occurrence(Household(rows, household), z, fromDay, toDay, v) {
      var e :| e in Household(rows, household) && OccursOn(e, z, v.date) && Depicts(e, z, v);
      HouseholdHas(rows, household, e);
      assert Row(household, e).event == e;
    }
  }

  /** What the family reads is every occurrence of the household in the window, and only those. */
  lemma RangeShowsTheHousehold(rows: seq<Row>, household: string, z: Zone, fromDay: int, toDay: int, result: seq<Event>)
    requires Ordered(z) && NoMidnightCrossing(z)
    requires DistinctIds(Household(rows, household)) && QueryResult(rows, household, z, fromDay, toDay, result)
    ensures toDay - fromDay > 62 ==> Range(result, z, fromDay, toDay).Failure?
    ensures toDay - fromDay <= 62 ==>
              && Range(result, z, fromDay, toDay).Success?
              && StrictlySorted(Range(result, z, fromDay, toDay).value)
              && forall v :: v in Range(result, z, fromDay, toDay).value
                             <==> HouseholdShows(rows, household, z, fromDay, toDay, v)
  {
    forall v ensures HouseholdShows(rows, household, z, fromDay, toDay, v)
                <==> Occurrence(Household(rows, household), z, fromDay, toDay, v)
    {
      HouseholdOccurs(rows, household, z, fromDay, toDay, v);
    }
    var events := Household(rows, household);
    var kept := Kept(events, z, fromDay, toDay);
    KeptDistinct(events, z, fromDay, toDay);
    MidnightsSplitIff(z);
    LosesNothingWhenSplit(z, events, fromDay, toDay);
    OrderIndependent(result, kept, z, fromDay, toDay);
    ExpandEventsIs(events, z, fromDay, toDay);
  }

  // ---------------------------------------------------------------------------
  // The repeat marker
  // ---------------------------------------------------------------------------

  const PAD_DAYS := 7

  function Count(views: seq<OccurrenceView>, id: nat): nat {
    if views == [] then 0
    else Count(views[..|views| - 1], id) + if views[|views| - 1].eventId == id then 1 else 0
  }

  /** `_repeat_ids`: the ids seen more than once. */
  method RepeatIds(occurrences: seq<OccurrenceView>) returns (ids: set<nat>)
    ensures forall id: nat :: id in ids <==> Count(occurrences, id) > 1
  {
    var counts: map<nat, nat> := map[];
    for i := 0 to |occurrences|
      invariant forall id: nat :: (if id in counts then counts[id] else 0) == Count(occurrences[..i], id)
    {
      var id := occurrences[i].eventId;
      assert occurrences[..i + 1][..i] == occurrences[..i];
      counts := counts[id := (if id in counts then counts[id] else 0) + 1];
    }
    assert occurrences[..|occurrences|] == occurrences;
    ids := set id | id in counts && counts[id] > 1;
  }

  ghost predicate ShowsTwice(views: seq<OccurrenceView>, id: nat) {
    exists i, j | 0 <= i < j < |views| :: views[i].eventId == id && views[j].eventId == id
  }

  ghost predicate Shows(views: seq<OccurrenceView>, id: nat) {
    exists i | 0 <= i < |views| :: views[i].eventId == id
  }

  lemma ShowsSnoc(views: seq<OccurrenceView>, v: OccurrenceView, id: nat)
    ensures Shows(views + [v], id) <==> Shows(views, id) || v.eventId == id
    ensures ShowsTwice(views + [v], id) <==> ShowsTwice(views, id) || (Shows(views, id) && v.eventId == id)
  {
    var all := views + [v];
    assert forall i | 0 <= i < |views| :: all[i] == views[i];
    assert all[|views|] == v;
  }

  /** An id is counted more than once exactly when two positions show it. */
  lemma {:induction false} CountTwice(views: seq<OccurrenceView>, id: nat)
    ensures Count(views, id) > 0 <==> Shows(views, id)
    ensures Count(views, id) > 1 <==> ShowsTwice(views, id)
  {
    if views != [] {
      var init, last := views[..|views| - 1], views[|views| - 1];
      CountTwice(init, id);
      ShowsSnoc(init, last, id);
      assert views == init + [last];
    }
  }

  /** An occurrence in the window has a position in the expansion. */
  lemma ShownAt(events: seq<Event>, z: Zone, lo: int, hi: int, e: Event, day: int) returns (i: nat)
    requires DistinctIds(events) && e in events && lo <= day <= hi && OccursOn(e, z, day)
    ensures var views := ExpandEvents(events, z, lo, hi);
            i < |views| && views[i].eventId == e.id && views[i].date == day
  {
    var views := ExpandEvents(events, z, lo, hi);
    OccurrenceIsShown(events, z, lo, hi, e, day);
    var v := ViewOn(e, z, day);
    i :| 0 <= i < |views| && views[i] == v;
  }

  lemma SeriesShowsTwice(events: seq<Event>, z: Zone, lo: int, hi: int, e: Event, day: int)
    requires DistinctIds(events) && e in events && WeekdaysOf(e) != []
    requires lo <= day && day + 7 <= hi && OccursOn(e, z, day)
    ensures ShowsTwice(ExpandEvents(events, z, lo, hi), e.id)
  {
    assert Weekday(day + 7) == Weekday(day);
    var i := ShownAt(events, z, lo, hi, e, day);
    var j := ShownAt(events, z, lo, hi, e, day + 7);
    PairShowsTwice(ExpandEvents(events, z, lo, hi), e.id, i, j);
  }

  lemma PairShowsTwice(views: seq<OccurrenceView>, id: nat, i: nat, j: nat)
    requires i < |views| && j < |views| && i != j && views[i].eventId == id && views[j].eventId == id
    ensures ShowsTwice(views, id)
  {
    var lo, hi := if i < j then i else j, if i < j then j else i;
    assert lo < hi && views[lo].eventId == id && views[hi].eventId == id;
  }

  lemma OneOffShowsOnce(events: seq<Event>, z: Zone, lo: int, hi: int, e: Event)
    requires DistinctIds(events) && e in events && WeekdaysOf(e) == []
    ensures !ShowsTwice(ExpandEvents(events, z, lo, hi), e.id)
  {
    var views := ExpandEvents(events, z, lo, hi);
    ExpandEventsIs(events, z, lo, hi);
    if i, j :| 0 <= i < j < |views| && views[i].eventId == e.id && views[j].eventId == e.id {
      assert views[i] in views && views[j] in views;
      OnlyView(events, z, lo, hi, e, views[i]);
      OnlyView(events, z, lo, hi, e, views[j]);
      assert false;
    }
  }

  /**
   The marker is exact: of the events visible in a window, those marked as repeating, by
   counting over the window padded with a week on both sides, are the ones with weekdays.
   */
  lemma RepeatMarkerExact(events: seq<Event>, z: Zone, first: int, last: int, e: Event, day: int)
    requires DistinctIds(events) && e in events
    requires first <= day <= last && OccursOn(e, z, day)
    ensures Count(ExpandEvents(events, z, first - PAD_DAYS, last + PAD_DAYS), e.id) > 1 <==> WeekdaysOf(e) != []
    ensures PAD_DAYS == 7
  {
    var lo, hi := first - PAD_DAYS, last + PAD_DAYS;
    CountTwice(ExpandEvents(events, z, lo, hi), e.id);
    if WeekdaysOf(e) != [] {
      SeriesShowsTwice(events, z, lo, hi, e, day);
    } else {
      OneOffShowsOnce(events, z, lo, hi, e);
    }
  }

  lemma OnlyView(events: seq<Event>, z: Zone, lo: int, hi: int, e: Event, v: OccurrenceView)
    requires DistinctIds(events) && e in events && WeekdaysOf(e) == []
    requires Occurrence(events, z, lo, hi, v) && v.eventId == e.id
    ensures v == ViewOn(e, z, FirstDate(e, z))
  {
    var d :| d in events && OccursOn(d, z, v.date) && Depicts(d, z, v);
    DepictsIff(e, z, v);
  }
}
