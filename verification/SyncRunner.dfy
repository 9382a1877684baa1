/**
 The runner's routing of a sync's records to the calendar by record type
 (`sync_connector`, src/nidaro/connectors/runner.py): group the batch, land the calendar
 group, count the rest as skipped.
 */
module SyncRunner {
  import opened Wrappers
  import opened ConnectorModels
  import opened MirrorFold
  import opened CalendarStore

  /** The records of one type, in batch order. */
  function OfType(rs: seq<ExternalRecord>, t: string): (r: seq<ExternalRecord>)
    ensures |r| <= |rs|
  {
    if rs == [] then []
    else OfType(rs[..|rs| - 1], t) + if rs[|rs| - 1].externalType == t then [rs[|rs| - 1]] else []
  }

  /** `order` and `byType` are the insertion-ordered dictionary of the records' types. */
  ghost predicate Grouped(order: seq<string>, byType: map<string, seq<ExternalRecord>>, rs: seq<ExternalRecord>) {
    && (forall t <- order :: t in byType && byType[t] == OfType(rs, t))
    && (forall r <- rs :: r.externalType in order)
    && (forall i, j | 0 <= i < j < |order| :: order[i] != order[j])
    && Counted(order, byType, |order|) == |rs|
  }

  lemma OfTypeSnoc(rs: seq<ExternalRecord>, r: ExternalRecord, t: string)
    ensures OfType(rs + [r], t) == OfType(rs, t) + if r.externalType == t then [r] else []
  {
    assert (rs + [r])[..|rs|] == rs;
  }

  lemma {:induction false} AbsentTypeHasNoRecords(order: seq<string>, rs: seq<ExternalRecord>, t: string)
    requires (forall r <- rs :: r.externalType in order) && t !in order
    ensures OfType(rs, t) == []
  {
    if rs != [] {
      assert rs[|rs| - 1] in rs;
      assert forall r <- rs[..|rs| - 1] :: r in rs;
      AbsentTypeHasNoRecords(order, rs[..|rs| - 1], t);
    }
  }

  /** One turn of the grouping loop, for a type not seen before. */
  lemma GroupedNewType(order: seq<string>, byType: map<string, seq<ExternalRecord>>, rs: seq<ExternalRecord>,
                       r: ExternalRecord)
    requires Grouped(order, byType, rs) && r.externalType !in order
    ensures Grouped(order + [r.externalType], byType[r.externalType := [r]], rs + [r])
  {
    var t, groups := r.externalType, byType[r.externalType := [r]];
    AbsentTypeHasNoRecords(order, rs, t);
    forall u ensures OfType(rs + [r], u) == OfType(rs, u) + if t == u then [r] else [] {
      OfTypeSnoc(rs, r, u);
    }
    CountedFrame(order, byType, groups, |order|);
    CountedPrefix(order, order + [t], groups, |order|);
  }

  /** One turn of the grouping loop, for a type already seen. */
  lemma GroupedKnownType(order: seq<string>, byType: map<string, seq<ExternalRecord>>, rs: seq<ExternalRecord>,
                         r: ExternalRecord)
    requires Grouped(order, byType, rs) && r.externalType in order
    ensures Grouped(order, byType[r.externalType := byType[r.externalType] + [r]], rs + [r])
  {
    var t := r.externalType;
    forall u ensures OfType(rs + [r], u) == OfType(rs, u) + if t == u then [r] else [] {
      OfTypeSnoc(rs, r, u);
    }
    var k :| 0 <= k < |order| && order[k] == t;
    CountedUpdate(order, byType, k, byType[t] + [r], |order|);
  }

  /** The dictionary `by_type`, filled record by record. */
  method GroupByType(records: seq<ExternalRecord>)
    returns (order: seq<string>, byType: map<string, seq<ExternalRecord>>)
    ensures Grouped(order, byType, records)
  {
    order, byType := [], map[];
    for i := 0 to |records|
      invariant Grouped(order, byType, records[..i])
    {
      var record := records[i];
      assert records[..i + 1] == records[..i] + [record];
      if record.externalType !in order {
        GroupedNewType(order, byType, records[..i], record);
        order, byType := order + [record.externalType], byType[record.externalType := [record]];
      } else {
        GroupedKnownType(order, byType, records[..i], record);
        byType := byType[record.externalType := byType[record.externalType] + [record]];
      }
    }
    assert records[..|records|] == records;
  }

  /** How many records the first n groups hold together. */
  ghost function Counted(order: seq<string>, byType: map<string, seq<ExternalRecord>>, n: nat): nat
    requires n <= |order| && forall t <- order :: t in byType
  {
    if n == 0 then 0 else Counted(order, byType, n - 1) + |byType[order[n - 1]]|
  }

  lemma {:induction false} CountedFrame(order: seq<string>, a: map<string, seq<ExternalRecord>>,
                                        b: map<string, seq<ExternalRecord>>, n: nat)
    requires n <= |order| && forall t <- order :: t in a && t in b && a[t] == b[t]
    ensures Counted(order, a, n) == Counted(order, b, n)
  {
    if n > 0 { CountedFrame(order, a, b, n - 1); }
  }

  lemma {:induction false} CountedPrefix(order: seq<string>, longer: seq<string>,
                                         byType: map<string, seq<ExternalRecord>>, n: nat)
    requires n <= |order| && order <= longer
    requires (forall t <- order :: t in byType) && (forall t <- longer :: t in byType)
    ensures Counted(order, byType, n) == Counted(longer, byType, n)
  {
    if n > 0 { CountedPrefix(order, longer, byType, n - 1); }
  }

  lemma {:induction false} CountedUpdate(order: seq<string>, byType: map<string, seq<ExternalRecord>>,
                                         k: nat, rs: seq<ExternalRecord>, n: nat)
    requires n <= |order| && forall t <- order :: t in byType
    requires k < |order| && forall i, j | 0 <= i < j < |order| :: order[i] != order[j]
    ensures Counted(order, byType[order[k] := rs], n)
         == Counted(order, byType, n) + if k < n then |rs| - |byType[order[k]]| else 0
  {
    if n > 0 { CountedUpdate(order, byType, k, rs, n - 1); }
  }

  /** What routing by type lands: the calendar group alone, everything else skipped. */
  function Routed(m: Mirrors, rs: seq<ExternalRecord>): Landing {
    var events := OfType(rs, CALENDAR_EVENT);
    var landing := Fold(m, events);
    landing.(report := landing.report.Plus(Report(0, 0, |rs| - |events|)))
  }

  /** Where the routing loop stands after n groups. */
  ghost predicate RoutedSoFar(before: Mirrors, events: seq<ExternalRecord>, landed: bool, counted: nat,
                              mirrors: Mirrors, report: Report)
  {
    var landing := Fold(before, events);
    if landed then
      && !landing.aborted && |events| <= counted && mirrors == landing.mirrors
      && report == landing.report.Plus(Report(0, 0, counted - |events|))
    else
      mirrors == before && report == Report(0, 0, counted)
  }

  /** The landing half of `sync_connector`. */
  method LandByType(calendar: CalendarService, household: string, records: seq<ExternalRecord>)
    returns (r: Result<Report, string>)
    requires calendar.repository.Valid()
    modifies calendar.repository
    ensures calendar.repository.Valid()
    ensures var routed := Routed(old(MirrorsOf(calendar.repository.rows, household)), records);
            && MirrorsOf(calendar.repository.rows, household) == routed.mirrors
            && r.Failure? == routed.aborted
            && (r.Success? ==> r.value == routed.report)
    ensures OnlyMirrorsOf(household, old(calendar.repository.rows), calendar.repository.rows)
  {
    var order, byType := GroupByType(records);
    var report := Report(0, 0, 0);
    ghost var before := MirrorsOf(calendar.repository.rows, household);
    ghost var events := OfType(records, CALENDAR_EVENT);
    ghost var landed := false;
    for i := 0 to |order|
      invariant calendar.repository.Valid()
      invariant landed <==> CALENDAR_EVENT in order[..i]
      invariant RoutedSoFar(before, events, landed, Counted(order, byType, i),
                            MirrorsOf(calendar.repository.rows, household), report)
      invariant OnlyMirrorsOf(household, old(calendar.repository.rows), calendar.repository.rows)
    {
      assert order[..i + 1] == order[..i] + [order[i]];
      var records' := byType[order[i]];
      if order[i] != CALENDAR_EVENT {
        report := report.(skipped := report.skipped + |records'|);
        continue;
      }
      var applied := calendar.ApplyExternalRecords(household, records');
      if applied.Failure? {
        return applied;
      }
      landed := true;
      report := report.Plus(applied.value);
    }
    assert order[..|order|] == order;
    if !landed {
      AbsentTypeHasNoRecords(order, records, CALENDAR_EVENT);
    }
    r := Success(report);
  }

  predicate OnlyCalendarTombstones(rs: seq<ExternalRecord>) {
    forall r <- rs :: r.deleted ==> r.externalType == CALENDAR_EVENT
  }

  /** A record of another type that is no tombstone moves nothing but the skip count. */
  lemma RoutedSnoc(m: Mirrors, rs: seq<ExternalRecord>, r: ExternalRecord)
    requires r.deleted ==> r.externalType == CALENDAR_EVENT
    requires !Routed(m, rs).aborted
    ensures Routed(m, rs + [r]) == Step(Routed(m, rs), r)
  {
    var events := OfType(rs, CALENDAR_EVENT);
    OfTypeSnoc(rs, r, CALENDAR_EVENT);
    if r.externalType == CALENDAR_EVENT {
      FoldSnoc(m, events, r);
      StepKeepsShift(Routed(m, rs), Report(0, 0, |rs| - |events|), Fold(m, events), r);
    } else {
      assert OfType(rs + [r], CALENDAR_EVENT) == events;
    }
  }

  lemma RoutedAbortedSnoc(m: Mirrors, rs: seq<ExternalRecord>, r: ExternalRecord)
    requires Routed(m, rs).aborted
    ensures Routed(m, rs + [r]).aborted && Routed(m, rs + [r]).mirrors == Routed(m, rs).mirrors
  {
    var events := OfType(rs, CALENDAR_EVENT);
    OfTypeSnoc(rs, r, CALENDAR_EVENT);
    FoldSnoc(m, events, r);
    assert events + [] == events;
  }

  /** Routing ends like landing record by record; the totals matter only when neither raises. */
  predicate SameLanding(routed: Landing, direct: Landing) {
    && routed.mirrors == direct.mirrors
    && routed.aborted == direct.aborted
    && (!direct.aborted ==> routed.report == direct.report)
  }

  lemma RoutedNothing(m: Mirrors)
    ensures Routed(m, []) == Fold(m, [])
  {
  }

  lemma SameLandingSnoc(m: Mirrors, rs: seq<ExternalRecord>, r: ExternalRecord)
    requires SameLanding(Routed(m, rs), Fold(m, rs))
    requires r.deleted ==> r.externalType == CALENDAR_EVENT
    ensures SameLanding(Routed(m, rs + [r]), Fold(m, rs + [r]))
  {
    FoldSnoc(m, rs, r);
    if !Fold(m, rs).aborted {
      RoutedSnoc(m, rs, r);
      assert Routed(m, rs) == Fold(m, rs);
    } else {
      RoutedAbortedSnoc(m, rs, r);
    }
  }

  /**
   Grouping by type is invisible: when every tombstone is a calendar event, routing leaves
   the mirrors, the outcome and the totals of landing the batch record by record.
   */
  lemma {:induction false} RoutingIsTransparent(m: Mirrors, rs: seq<ExternalRecord>)
    requires OnlyCalendarTombstones(rs)
    ensures SameLanding(Routed(m, rs), Fold(m, rs))
  {
    if rs == [] {
      RoutedNothing(m);
    } else {
      var init, last := rs[..|rs| - 1], rs[|rs| - 1];
      assert last in rs && forall r <- init :: r in rs;
      RoutingIsTransparent(m, init);
      SameLandingSnoc(m, init, last);
      assert init + [last] == rs;
    }
  }

  /**
   The tombstone condition is needed: a tombstone of another type that meets a mirror removes
   it when records are landed one by one, and is skipped when they are routed by type.
   */
  lemma ForeignTombstoneSurvivesRouting(m: Mirrors, rs: seq<ExternalRecord>, t: ExternalRecord)
    requires WellFormed(rs + [t]) && t.deleted && t.externalType != CALENDAR_EVENT
    requires IdentityOf(t) in Routed(m, rs).mirrors
    ensures IdentityOf(t) in Routed(m, rs + [t]).mirrors && IdentityOf(t) !in Land(m, rs + [t])
  {
    OfTypeSnoc(rs, t, CALENDAR_EVENT);
    assert OfType(rs + [t], CALENDAR_EVENT) == OfType(rs, CALENDAR_EVENT);
    LastRecordWins(m, rs + [t], IdentityOf(t));
  }

  // ---------------------------------------------------------------------------
  // Exactly when routing is transparent
  // ---------------------------------------------------------------------------

  /**
   How far routing has strayed from landing record by record: the identities whose mirror a
   tombstone of another type met and no calendar record has touched since, and how many such
   mirrors a live record has overwritten meanwhile.
   */
  datatype Divergence = Divergence(stale: set<Identity>, overwritten: nat)

  function DivergeStep(before: Divergence, direct: Landing, r: ExternalRecord): Divergence {
    var id := IdentityOf(r);
    if Step(direct, r).aborted then before
    else if r.externalType != CALENDAR_EVENT then
      if r.deleted && id in direct.mirrors then before.(stale := before.stale + {id}) else before
    else
      Divergence(before.stale - {id},
                 before.overwritten + if !r.deleted && id in before.stale then 1 else 0)
  }

  function Diverge(m: Mirrors, rs: seq<ExternalRecord>): Divergence {
    if rs == [] then Divergence({}, 0)
    else
      var init := rs[..|rs| - 1];
      DivergeStep(Diverge(m, init), Fold(m, init), rs[|rs| - 1])
  }

  /** The routed mirrors are the direct ones and the stale ones. */
  ghost predicate MirrorsDiffer(routed: Mirrors, direct: Mirrors, stale: set<Identity>) {
    && stale !! direct.Keys
    && routed.Keys == direct.Keys + stale
    && forall id <- direct :: routed[id] == direct[id]
  }

  /** Every stale or overwritten mirror is one removal that routing counts as a skip. */
  ghost predicate CountsDiffer(routed: Report, direct: Report, d: Divergence) {
    && routed.applied == direct.applied
    && routed.removed + |d.stale| + d.overwritten == direct.removed
    && routed.skipped == direct.skipped + |d.stale| + d.overwritten
  }

  ghost predicate DiffersBy(routed: Landing, direct: Landing, d: Divergence) {
    && routed.aborted == direct.aborted
    && MirrorsDiffer(routed.mirrors, direct.mirrors, d.stale)
    && (!direct.aborted ==> CountsDiffer(routed.report, direct.report, d))
  }

  /** A record of another type only adds to the routed skip count. */
  lemma RoutedForeign(m: Mirrors, rs: seq<ExternalRecord>, r: ExternalRecord)
    requires r.externalType != CALENDAR_EVENT
    ensures var routed := Routed(m, rs);
            Routed(m, rs + [r]) == routed.(report := routed.report.(skipped := routed.report.skipped + 1))
  {
    OfTypeSnoc(rs, r, CALENDAR_EVENT);
    assert OfType(rs + [r], CALENDAR_EVENT) == OfType(rs, CALENDAR_EVENT);
  }

  lemma DropBoth(routed: Mirrors, direct: Mirrors, stale: set<Identity>, id: Identity)
    requires MirrorsDiffer(routed, direct, stale)
    ensures MirrorsDiffer(routed - {id}, direct - {id}, stale - {id})
  {
    assert (routed - {id}).Keys == routed.Keys - {id};
    assert (direct - {id}).Keys == direct.Keys - {id};
  }

  lemma PutBoth(routed: Mirrors, direct: Mirrors, stale: set<Identity>, id: Identity, fields: EventFields)
    requires MirrorsDiffer(routed, direct, stale)
    ensures MirrorsDiffer(routed[id := fields], direct[id := fields], stale - {id})
  {
    assert routed[id := fields].Keys == routed.Keys + {id};
    assert direct[id := fields].Keys == direct.Keys + {id};
  }

  lemma DropDirect(routed: Mirrors, direct: Mirrors, stale: set<Identity>, id: Identity)
    requires MirrorsDiffer(routed, direct, stale) && id in direct
    ensures MirrorsDiffer(routed, direct - {id}, stale + {id}) && |stale + {id}| == |stale| + 1
  {
    assert (direct - {id}).Keys == direct.Keys - {id};
  }

  lemma ForeignStepDiffers(routed: Landing, direct: Landing, r: ExternalRecord, d: Divergence)
    requires DiffersBy(routed, direct, d) && r.externalType != CALENDAR_EVENT
    ensures DiffersBy(routed.(report := routed.report.(skipped := routed.report.skipped + 1)), Step(direct, r),
                      DivergeStep(d, direct, r))
  {
    if !direct.aborted && r.deleted && IdentityOf(r) in direct.mirrors {
      DropDirect(routed.mirrors, direct.mirrors, d.stale, IdentityOf(r));
    }
  }

  lemma ForeignDiffers(m: Mirrors, rs: seq<ExternalRecord>, r: ExternalRecord, d: Divergence)
    requires DiffersBy(Routed(m, rs), Fold(m, rs), d) && r.externalType != CALENDAR_EVENT
    ensures DiffersBy(Routed(m, rs + [r]), Step(Fold(m, rs), r), DivergeStep(d, Fold(m, rs), r))
  {
    RoutedForeign(m, rs, r);
    ForeignStepDiffers(Routed(m, rs), Fold(m, rs), r, d);
  }

  lemma WithoutOne(stale: set<Identity>, id: Identity)
    ensures |stale - {id}| + (if id in stale then 1 else 0) == |stale|
  {
    if id in stale { assert stale == (stale - {id}) + {id}; } else { assert stale - {id} == stale; }
  }

  lemma TombstoneStepDiffers(routed: Landing, direct: Landing, r: ExternalRecord, d: Divergence)
    requires DiffersBy(routed, direct, d) && !direct.aborted && r.externalType == CALENDAR_EVENT && r.deleted
    ensures DiffersBy(Step(routed, r), Step(direct, r), DivergeStep(d, direct, r))
  {
    var id := IdentityOf(r);
    WithoutOne(d.stale, id);
    DropBoth(routed.mirrors, direct.mirrors, d.stale, id);
    TombstoneStepIs(routed, r);
    TombstoneStepIs(direct, r);
    assert DivergeStep(d, direct, r) == Divergence(d.stale - {id}, d.overwritten);
  }

  lemma TombstoneStepIs(l: Landing, r: ExternalRecord)
    requires !l.aborted && r.deleted
    ensures var there := IdentityOf(r) in l.mirrors;
            Step(l, r) == Landing(l.mirrors - {IdentityOf(r)},
                                  Report(l.report.applied, l.report.removed + if there then 1 else 0,
                                         l.report.skipped + if there then 0 else 1), false)
  {
    if IdentityOf(r) !in l.mirrors { assert l.mirrors - {IdentityOf(r)} == l.mirrors; }
  }

  lemma LiveStepDiffers(routed: Landing, direct: Landing, r: ExternalRecord, d: Divergence)
    requires DiffersBy(routed, direct, d) && !direct.aborted && r.externalType == CALENDAR_EVENT && !r.deleted
    ensures DiffersBy(Step(routed, r), Step(direct, r), DivergeStep(d, direct, r))
  {
    var id := IdentityOf(r);
    WithoutOne(d.stale, id);
    if Validate(r.payload).Success? {
      PutBoth(routed.mirrors, direct.mirrors, d.stale, id, Validate(r.payload).value);
    }
  }

  lemma CalendarDiffers(m: Mirrors, rs: seq<ExternalRecord>, r: ExternalRecord, d: Divergence)
    requires DiffersBy(Routed(m, rs), Fold(m, rs), d) && r.externalType == CALENDAR_EVENT
    ensures DiffersBy(Routed(m, rs + [r]), Step(Fold(m, rs), r), DivergeStep(d, Fold(m, rs), r))
  {
    if Fold(m, rs).aborted {
      RoutedAbortedSnoc(m, rs, r);
    } else {
      RoutedSnoc(m, rs, r);
      if r.deleted {
        TombstoneStepDiffers(Routed(m, rs), Fold(m, rs), r, d);
      } else {
        LiveStepDiffers(Routed(m, rs), Fold(m, rs), r, d);
      }
    }
  }

  lemma RecordDiffers(m: Mirrors, rs: seq<ExternalRecord>, r: ExternalRecord, d: Divergence)
    requires DiffersBy(Routed(m, rs), Fold(m, rs), d)
    ensures DiffersBy(Routed(m, rs + [r]), Step(Fold(m, rs), r), DivergeStep(d, Fold(m, rs), r))
  {
    if r.externalType == CALENDAR_EVENT { CalendarDiffers(m, rs, r, d); } else { ForeignDiffers(m, rs, r, d); }
  }

  lemma SameDiffersByNothing(l: Landing)
    ensures DiffersBy(l, l, Divergence({}, 0))
  {
  }

  lemma NothingDiffers(m: Mirrors, rs: seq<ExternalRecord>)
    requires rs == []
    ensures DiffersBy(Routed(m, rs), Fold(m, rs), Diverge(m, rs))
  {
    RoutedNothing(m);
    SameDiffersByNothing(Fold(m, rs));
    assert Diverge(m, rs) == Divergence({}, 0);
  }

  lemma RoutingDivergesSnoc(m: Mirrors, rs: seq<ExternalRecord>, r: ExternalRecord)
    requires DiffersBy(Routed(m, rs), Fold(m, rs), Diverge(m, rs))
    ensures DiffersBy(Routed(m, rs + [r]), Fold(m, rs + [r]), Diverge(m, rs + [r]))
  {
    RecordDiffers(m, rs, r, Diverge(m, rs));
    DivergeSnoc(m, rs, r);
    FoldSnoc(m, rs, r);
  }

  lemma DivergeSnoc(m: Mirrors, rs: seq<ExternalRecord>, r: ExternalRecord)
    ensures Diverge(m, rs + [r]) == DivergeStep(Diverge(m, rs), Fold(m, rs), r)
  {
    assert (rs + [r])[..|rs|] == rs;
  }

  lemma {:induction false} RoutingDivergesBy(m: Mirrors, rs: seq<ExternalRecord>)
    ensures DiffersBy(Routed(m, rs), Fold(m, rs), Diverge(m, rs))
  {
    if rs == [] {
      NothingDiffers(m, rs);
    } else {
      var init, last := rs[..|rs| - 1], rs[|rs| - 1];
      RoutingDivergesBy(m, init);
      RoutingDivergesSnoc(m, init, last);
      assert rs == init + [last];
    }
  }

  lemma SameLandingIff(routed: Landing, direct: Landing, d: Divergence)
    requires DiffersBy(routed, direct, d)
    ensures SameLanding(routed, direct) <==> d.stale == {} && (direct.aborted || d.overwritten == 0)
  {
    if d.stale == {} {
      assert routed.mirrors.Keys == direct.mirrors.Keys;
      assert routed.mirrors == direct.mirrors;
    } else {
      var id :| id in d.stale;
      assert id in routed.mirrors.Keys && id !in direct.mirrors.Keys;
    }
  }

  /**
   The exact condition: routing is transparent if and only if every mirror that a tombstone of
   another type met is removed by a calendar tombstone before a live record overwrites it,
   where the overwriting only matters for the totals of a batch that completes.
   */
  lemma RoutingTransparentIff(m: Mirrors, rs: seq<ExternalRecord>)
    ensures SameLanding(Routed(m, rs), Fold(m, rs))
       <==> Diverge(m, rs).stale == {} && (Fold(m, rs).aborted || Diverge(m, rs).overwritten == 0)
  {
    RoutingDivergesBy(m, rs);
    SameLandingIff(Routed(m, rs), Fold(m, rs), Diverge(m, rs));
  }

  /** A tombstone of another type may meet a mirror and leave no trace: a calendar one catches up with it. */
  lemma CaughtUpTombstoneLeavesNoTrace(m: Mirrors, foreign: ExternalRecord, caught: ExternalRecord)
    requires foreign.deleted && foreign.externalType != CALENDAR_EVENT && IdentityOf(foreign) in m
    requires caught.deleted && caught.externalType == CALENDAR_EVENT && IdentityOf(caught) == IdentityOf(foreign)
    ensures SameLanding(Routed(m, [foreign] + [caught]), Fold(m, [foreign] + [caught]))
    ensures IdentityOf(foreign) !in Land(m, [foreign])
  {
    var first := [] + [foreign];
    assert first == [foreign] && first[..0] == [] && ([foreign] + [caught])[..1] == [foreign];
    FoldSnoc(m, [], foreign);
    FoldSnoc(m, [foreign], caught);
    var id := IdentityOf(foreign);
    assert Diverge(m, [foreign]) == Divergence({id}, 0);
    assert {id} - {id} == {};
    RoutingTransparentIff(m, [foreign] + [caught]);
  }
}
