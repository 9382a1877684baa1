/**
 The sweep over due connector configs (`sync_due`, `sync_connector`,
 src/nidaro/connectors/runner.py; `due`, `sync`, src/nidaro/connectors/service.py).
 How long each run takes and how its source answers is given; what it returns is landed.
 */
module SyncSweep {
  import opened Wrappers
  import opened ConnectorModels
  import opened MirrorFold
  import opened CalendarStore
  import opened SyncRunner
  import opened CursorRules

  const SECOND: int := 1_000_000

  /** A household's connector. */
  datatype ConfigKey = ConfigKey(household: string, connector: string)

  datatype Config = Config(enabled: bool, pollSeconds: nat, lastSynced: Option<Instant>)

  datatype Store = Store(configs: map<ConfigKey, Config>, cursors: map<ConfigKey, string>, clock: Instant)

  /** One run: how long it takes, whether its credentials can be read, and what the connector makes of it. */
  datatype Attempt = Attempt(takes: nat, credentialsFail: bool, outcome: Outcome<string, ExternalRecord>)

  type Plan = ConfigKey -> Attempt

  /** `due` for one config. */
  predicate DueAt(c: Config, now: Instant) {
    c.enabled && (c.lastSynced.None? || c.lastSynced.value + c.pollSeconds * SECOND <= now)
  }

  /** The connector itself ran to the end, so its cursor is saved and its config stamped. */
  predicate Completes(a: Attempt) {
    !a.credentialsFail && a.outcome.Success?
  }

  predicate Runs(s: Store, key: ConfigKey) {
    key in s.configs && s.configs[key].enabled
  }

  function CursorOf(cursors: map<ConfigKey, string>, key: ConfigKey): Option<string> {
    if key in cursors then Some(cursors[key]) else None
  }

  function WithCursor(cursors: map<ConfigKey, string>, key: ConfigKey, cursor: Option<string>): map<ConfigKey, string> {
    if cursor.Some? then cursors[key := cursor.value] else cursors - {key}
  }

  /** `sync_connector`: a config that is gone or disabled, or unreadable credentials, raise before the sync. */
  function RunOne(s: Store, key: ConfigKey, a: Attempt): Store {
    if !Runs(s, key) then s
    else
      var clock := s.clock + a.takes;
      if a.credentialsFail then s.(clock := clock)
      else
        Store(if a.outcome.Success? then s.configs[key := s.configs[key].(lastSynced := Some(clock))] else s.configs,
              WithCursor(s.cursors, key, CursorAfter(CursorOf(s.cursors, key), a.outcome)),
              clock)
  }

  /** The run's calendar records validate, so landing them does not raise. */
  predicate Lands(a: Attempt) {
    a.outcome.Success? && WellFormed(OfType(a.outcome.value.records, CALENDAR_EVENT))
  }

  predicate Succeeds(s: Store, key: ConfigKey, a: Attempt) {
    Runs(s, key) && Completes(a) && Lands(a)
  }

  /** What a run leaves of its household's mirrors: its records, routed by type, once it has completed. */
  function RunMirrors(m: Mirrors, ran: bool, a: Attempt): Mirrors {
    if ran && Completes(a) then Routed(m, a.outcome.value.records).mirrors else m
  }

  predicate Wanted(key: ConfigKey, filter: Option<string>) {
    filter.None? || key.connector == filter.value
  }

  /** The sweep over the listed configs. */
  function SweepOver(s: Store, listed: seq<ConfigKey>, filter: Option<string>, plan: Plan): Store {
    if listed == [] then s
    else
      var before, key := SweepOver(s, listed[..|listed| - 1], filter, plan), listed[|listed| - 1];
      if Wanted(key, filter) then RunOne(before, key, plan(key)) else before
  }

  /** What the sweep leaves of one household's mirrors. */
  function SweepMirrors(m: Mirrors, household: string, listed: seq<ConfigKey>, filter: Option<string>,
                        plan: Plan): Mirrors {
    if listed == [] then m
    else
      var before, key := SweepMirrors(m, household, listed[..|listed| - 1], filter, plan), listed[|listed| - 1];
      RunMirrors(before, Wanted(key, filter) && key.household == household, plan(key))
  }

  datatype SweepReport = SweepReport(outcomes: seq<ConfigKey>, errors: seq<ConfigKey>)

  function ReportOver(listed: seq<ConfigKey>, filter: Option<string>, plan: Plan): SweepReport {
    if listed == [] then SweepReport([], [])
    else
      var before, key := ReportOver(listed[..|listed| - 1], filter, plan), listed[|listed| - 1];
      if !Wanted(key, filter) then before
      else if Completes(plan(key)) && Lands(plan(key)) then before.(outcomes := before.outcomes + [key])
      else before.(errors := before.errors + [key])
  }

  /** Every due config once. */
  ghost predicate Listing(s: Store, listed: seq<ConfigKey>) {
    && (forall key :: key in listed <==> key in s.configs && DueAt(s.configs[key], s.clock))
    && forall i, j | 0 <= i < j < |listed| :: listed[i] != listed[j]
  }

  class ConnectorSyncServices {
    var configs: map<ConfigKey, Config>
    var cursors: map<ConfigKey, string>
    var clock: Instant
    const calendar: CalendarService

    function State(): Store reads this { Store(configs, cursors, clock) }

    function MirrorsFor(household: string): Mirrors reads calendar.repository {
      MirrorsOf(calendar.repository.rows, household)
    }

    constructor (s: Store, calendar: CalendarService)
      ensures State() == s && this.calendar == calendar
    {
      configs, cursors, clock := s.configs, s.cursors, s.clock;
      this.calendar := calendar;
    }

    /** `sync_connector`: run one config's connector, then land what it returned. */
    method SyncConnector(key: ConfigKey, a: Attempt) returns (ok: bool)
      requires calendar.repository.Valid()
      modifies this, calendar.repository
      ensures calendar.repository.Valid()
      ensures State() == RunOne(old(State()), key, a)
      ensures ok == Succeeds(old(State()), key, a)
      ensures MirrorsFor(key.household) == RunMirrors(old(MirrorsFor(key.household)), Runs(old(State()), key), a)
      ensures OnlyMirrorsOf(key.household, old(calendar.repository.rows), calendar.repository.rows)
    {
      if key !in configs || !configs[key].enabled { return false; }
      clock := clock + a.takes;
      if a.credentialsFail { return false; }
      ok := Sync(key, a.outcome);
      if ok { ok := Land(key.household, a); }
    }

    method Land(household: string, a: Attempt) returns (ok: bool)
      requires calendar.repository.Valid() && a.outcome.Success?
      modifies calendar.repository
      ensures calendar.repository.Valid() && ok == Lands(a)
      ensures MirrorsFor(household) == Routed(old(MirrorsFor(household)), a.outcome.value.records).mirrors
      ensures OnlyMirrorsOf(household, old(calendar.repository.rows), calendar.repository.rows)
    {
      var records := a.outcome.value.records;
      AbortsIffMalformed(MirrorsFor(household), OfType(records, CALENDAR_EVENT));
      var report := LandByType(calendar, household, records);
      ok := report.Success?;
    }

    /** `ConnectorService.sync`: persist the cursor, then stamp a config there is; clear a rejected cursor. */
    method Sync(key: ConfigKey, outcome: Outcome<string, ExternalRecord>) returns (ok: bool)
      modifies this`configs, this`cursors
      ensures ok == outcome.Success?
      ensures cursors == WithCursor(old(cursors), key, CursorAfter(CursorOf(old(cursors), key), outcome))
      ensures configs == if ok && key in old(configs)
                         then old(configs)[key := old(configs)[key].(lastSynced := Some(clock))] else old(configs)
    {
      if outcome.Failure? {
        if outcome.error.StaleCursor? { cursors := cursors - {key}; }
        assert outcome.error.OtherFailure? ==> cursors == WithCursor(cursors, key, CursorOf(cursors, key));
        return false;
      }
      if outcome.value.nextCursor.Some? { cursors := cursors[key := outcome.value.nextCursor.value]; }
      if key in configs { configs := configs[key := configs[key].(lastSynced := Some(clock))]; }
      ok := true;
    }

    method Due() returns (listed: seq<ConfigKey>)
      ensures Listing(State(), listed)
    {
      listed := [];
      var left := configs.Keys;
      while left != {}
        invariant left <= configs.Keys
        invariant forall key <- listed :: key in configs && key !in left && DueAt(configs[key], clock)
        invariant forall key <- configs :: key in left || key in listed || !DueAt(configs[key], clock)
        invariant forall i, j | 0 <= i < j < |listed| :: listed[i] != listed[j]
        decreases left
      {
        var key :| key in left;
        assert key !in listed;
        if DueAt(configs[key], clock) { listed := listed + [key]; }
        left := left - {key};
      }
    }

    /** `sync_due`: one config's failure is reported and the sweep moves on. */
    method SyncDue(filter: Option<string>, plan: Plan) returns (report: SweepReport, ghost listed: seq<ConfigKey>)
      requires calendar.repository.Valid()
      modifies this, calendar.repository
      ensures calendar.repository.Valid()
      ensures Listing(old(State()), listed)
      ensures State() == SweepOver(old(State()), listed, filter, plan)
      ensures report == ReportOver(listed, filter, plan)
      ensures LandedSweep(old(calendar.repository.rows), calendar.repository.rows, listed, filter, plan)
    {
      report := SweepReport([], []);
      var due := Due();
      listed := due;
      ghost var start, rows := State(), calendar.repository.rows;
      for i := 0 to |due|
        invariant calendar.repository.Valid()
        invariant State() == SweepOver(start, due[..i], filter, plan)
        invariant report == ReportOver(due[..i], filter, plan)
        invariant LandedSweep(rows, calendar.repository.rows, due[..i], filter, plan)
      {
        var key := due[i];
        assert due[..i + 1] == due[..i] + [key];
        assert key in due;
        SweepKeepsEnabled(start, due[..i], filter, plan, key);
        SweepSnoc(start, due[..i], key, filter, plan);
        ghost var before := calendar.repository.rows;
        if !Wanted(key, filter) {
          LandedSkip(rows, before, due[..i], key, filter, plan);
          continue;
        }
        var ok := SyncConnector(key, plan(key));
        LandedOne(rows, before, calendar.repository.rows, due[..i], key, filter, plan);
        if !ok {
          report := report.(errors := report.errors + [key]);
          continue;
        }
        report := report.(outcomes := report.outcomes + [key]);
      }
      assert due[..|due|] == due;
    }
  }

  /** Every household's mirrors are what its own runs made of them; human events are untouched. */
  ghost predicate LandedSweep(before: seq<EventRow>, after: seq<EventRow>, listed: seq<ConfigKey>,
                              filter: Option<string>, plan: Plan) {
    && HumanRows(after) == HumanRows(before)
    && forall h :: MirrorsOf(after, h) == SweepMirrors(MirrorsOf(before, h), h, listed, filter, plan)
  }

  lemma SweepSnoc(s: Store, listed: seq<ConfigKey>, key: ConfigKey, filter: Option<string>, plan: Plan)
    ensures var before := SweepOver(s, listed, filter, plan);
            SweepOver(s, listed + [key], filter, plan)
                == if Wanted(key, filter) then RunOne(before, key, plan(key)) else before
    ensures var before := ReportOver(listed, filter, plan);
            ReportOver(listed + [key], filter, plan)
            == if !Wanted(key, filter) then before
               else if Completes(plan(key)) && Lands(plan(key)) then before.(outcomes := before.outcomes + [key])
               else before.(errors := before.errors + [key])
  {
    assert (listed + [key])[..|listed|] == listed;
  }

  lemma SweepMirrorsSnoc(m: Mirrors, household: string, listed: seq<ConfigKey>, key: ConfigKey,
                         filter: Option<string>, plan: Plan)
    ensures SweepMirrors(m, household, listed + [key], filter, plan)
         == RunMirrors(SweepMirrors(m, household, listed, filter, plan),
                       Wanted(key, filter) && key.household == household, plan(key))
  {
    assert (listed + [key])[..|listed|] == listed;
  }

  lemma LandedSkip(rows: seq<EventRow>, before: seq<EventRow>, listed: seq<ConfigKey>, key: ConfigKey,
                   filter: Option<string>, plan: Plan)
    requires LandedSweep(rows, before, listed, filter, plan) && !Wanted(key, filter)
    ensures LandedSweep(rows, before, listed + [key], filter, plan)
  {
    forall h ensures MirrorsOf(before, h) == SweepMirrors(MirrorsOf(rows, h), h, listed + [key], filter, plan) {
      SweepMirrorsSnoc(MirrorsOf(rows, h), h, listed, key, filter, plan);
    }
  }

  lemma LandedOne(rows: seq<EventRow>, before: seq<EventRow>, after: seq<EventRow>, listed: seq<ConfigKey>,
                  key: ConfigKey, filter: Option<string>, plan: Plan)
    requires LandedSweep(rows, before, listed, filter, plan) && Wanted(key, filter)
    requires OnlyMirrorsOf(key.household, before, after)
    requires MirrorsOf(after, key.household) == RunMirrors(MirrorsOf(before, key.household), true, plan(key))
    ensures LandedSweep(rows, after, listed + [key], filter, plan)
  {
    forall h ensures MirrorsOf(after, h) == SweepMirrors(MirrorsOf(rows, h), h, listed + [key], filter, plan) {
      SweepMirrorsSnoc(MirrorsOf(rows, h), h, listed, key, filter, plan);
    }
  }

  lemma {:induction false} SweepKeepsEnabled(s: Store, listed: seq<ConfigKey>, filter: Option<string>, plan: Plan,
                                             key: ConfigKey)
    ensures Runs(SweepOver(s, listed, filter, plan), key) <==> Runs(s, key)
    ensures SweepOver(s, listed, filter, plan).configs.Keys == s.configs.Keys
  {
    if listed != [] { SweepKeepsEnabled(s, listed[..|listed| - 1], filter, plan, key); }
  }

  /**
   A batch that aborts is not asked for again: the run is reported as an error, yet its next
   cursor is stored, its config stamped and no longer due, and a part of its records landed.
   */
  lemma AbortedLandingIsNotRetried(s: Store, m: Mirrors, key: ConfigKey, a: Attempt)
    requires Runs(s, key) && Completes(a) && !Lands(a) && s.configs[key].pollSeconds >= 1
    ensures var after := RunOne(s, key, a);
            && !Succeeds(s, key, a) && !DueAt(after.configs[key], after.clock)
            && (a.outcome.value.nextCursor.Some? ==> CursorOf(after.cursors, key) == a.outcome.value.nextCursor)
            && RunMirrors(m, true, a) == Land(m, Committed(OfType(a.outcome.value.records, CALENDAR_EVENT)))
  {
    AbortLandsCommittedPrefix(m, OfType(a.outcome.value.records, CALENDAR_EVENT));
  }

  /**
   Which runs succeed: those of a config that exists and is enabled, whose credentials can be
   read, whose connector returns, and all of whose live calendar records validate.
   */
  lemma SucceedsIff(s: Store, key: ConfigKey, a: Attempt)
    ensures Succeeds(s, key, a)
       <==> && key in s.configs && s.configs[key].enabled && !a.credentialsFail && a.outcome.Success?
            && forall r <- a.outcome.value.records ::
                 !r.deleted && r.externalType == CALENDAR_EVENT ==> Validate(r.payload).Success?
  {
    if a.outcome.Success? { TypedWellFormed(a.outcome.value.records); }
  }

  lemma {:induction false} TypedWellFormed(rs: seq<ExternalRecord>)
    ensures WellFormed(OfType(rs, CALENDAR_EVENT)) <==> WellFormed(rs)
  {
    if rs != [] {
      var init, last := rs[..|rs| - 1], rs[|rs| - 1];
      assert rs == init + [last];
      TypedWellFormed(init);
    }
  }

  /** A config that is gone or disabled is left alone, whatever its run would have brought. */
  lemma DisabledNeverRuns(s: Store, m: Mirrors, key: ConfigKey, a: Attempt)
    requires key in s.configs ==> !s.configs[key].enabled
    ensures RunOne(s, key, a) == s && RunMirrors(m, Runs(s, key), a) == m
  {
  }

  // ---------------------------------------------------------------------------
  // Isolation
  // ---------------------------------------------------------------------------

  /** What a sweep leaves for a config is what its own run leaves: nobody else's failure touches it. */
  ghost predicate AsIfAlone(s: Store, after: Store, ran: bool, key: ConfigKey, a: Attempt) {
    && after.clock >= s.clock
    && CursorOf(after.cursors, key)
       == (if ran && !a.credentialsFail then CursorAfter(CursorOf(s.cursors, key), a.outcome)
           else CursorOf(s.cursors, key))
    && (key in after.configs <==> key in s.configs)
    && (key in s.configs ==>
          after.configs[key] == s.configs[key].(lastSynced := after.configs[key].lastSynced)
          && if ran && !a.credentialsFail && a.outcome.Success?
             then after.configs[key].lastSynced.Some? && s.clock <= after.configs[key].lastSynced.value <= after.clock
             else after.configs[key].lastSynced == s.configs[key].lastSynced)
  }

  lemma OneMoreRun(s: Store, before: Store, ran: bool, key: ConfigKey, a: Attempt, last: ConfigKey, b: Attempt)
    requires AsIfAlone(s, before, ran, key, a) && (Runs(before, key) <==> Runs(s, key))
    requires last == key ==> !ran && a == b
    ensures AsIfAlone(s, RunOne(before, last, b), ran || (last == key && Runs(s, key)), key, a)
  {
  }

  /** Each config of a sweep fares as if it were swept alone, and the configs outside it not at all. */
  lemma {:induction false} SweepIsolates(s: Store, listed: seq<ConfigKey>, filter: Option<string>, plan: Plan,
                                         key: ConfigKey)
    requires forall i, j | 0 <= i < j < |listed| :: listed[i] != listed[j]
    ensures AsIfAlone(s, SweepOver(s, listed, filter, plan),
                      key in listed && Wanted(key, filter) && Runs(s, key), key, plan(key))
  {
    if listed != [] {
      var init, last := listed[..|listed| - 1], listed[|listed| - 1];
      SweepIsolates(s, init, filter, plan, key);
      SweepKeepsEnabled(s, init, filter, plan, key);
      var ran := key in init && Wanted(key, filter) && Runs(s, key);
      assert last !in init;
      if Wanted(last, filter) {
        OneMoreRun(s, SweepOver(s, init, filter, plan), ran, key, plan(key), last, plan(last));
      }
      assert listed == init + [last];
    }
  }

  /** A household's mirrors depend on its own runs only: whatever happens to the others, they are the same. */
  lemma {:induction false} SweepMirrorsIsolated(m: Mirrors, household: string, listed: seq<ConfigKey>,
                                                filter: Option<string>, plan: Plan, other: Plan)
    requires forall key <- listed :: key.household == household ==> plan(key) == other(key)
    ensures SweepMirrors(m, household, listed, filter, plan) == SweepMirrors(m, household, listed, filter, other)
  {
    if listed != [] {
      var init, last := listed[..|listed| - 1], listed[|listed| - 1];
      assert last in listed && forall key <- init :: key in listed;
      SweepMirrorsIsolated(m, household, init, filter, plan, other);
    }
  }

  /** How often a config is listed. */
  function Times(listed: seq<ConfigKey>, key: ConfigKey): nat {
    if listed == [] then 0 else Times(listed[..|listed| - 1], key) + if listed[|listed| - 1] == key then 1 else 0
  }

  lemma TimesSnoc(listed: seq<ConfigKey>, last: ConfigKey, key: ConfigKey)
    ensures Times(listed + [last], key) == Times(listed, key) + if last == key then 1 else 0
  {
    assert (listed + [last])[..|listed|] == listed;
  }

  /** The config's run completed and what it returned landed. */
  predicate Done(plan: Plan, key: ConfigKey) {
    Completes(plan(key)) && Lands(plan(key))
  }

  /** The report counts a config as it should. */
  predicate Reports(r: SweepReport, listed: seq<ConfigKey>, filter: Option<string>, plan: Plan, key: ConfigKey) {
    var n := if filter.None? || key.connector == filter.value then Times(listed, key) else 0;
    && Times(r.outcomes, key) == (if Done(plan, key) then n else 0)
    && Times(r.errors, key) == (if Done(plan, key) then 0 else n)
  }

  lemma ReportsOneMore(r: SweepReport, listed: seq<ConfigKey>, last: ConfigKey, filter: Option<string>, plan: Plan,
                       key: ConfigKey)
    requires Reports(r, listed, filter, plan, key)
    ensures !Wanted(last, filter) ==> Reports(r, listed + [last], filter, plan, key)
    ensures Wanted(last, filter) && Done(plan, last) ==>
              Reports(r.(outcomes := r.outcomes + [last]), listed + [last], filter, plan, key)
    ensures Wanted(last, filter) && !Done(plan, last) ==>
              Reports(r.(errors := r.errors + [last]), listed + [last], filter, plan, key)
  {
    TimesSnoc(listed, last, key);
    TimesSnoc(r.outcomes, last, key);
    TimesSnoc(r.errors, last, key);
  }

  /**
   Every wanted config of the sweep is reported as often as it was listed, as an outcome exactly
   when its run completed and landed and as an error otherwise; the others not at all.
   */
  lemma {:induction false} ReportCountsAll(listed: seq<ConfigKey>, filter: Option<string>, plan: Plan, key: ConfigKey)
    ensures Reports(ReportOver(listed, filter, plan), listed, filter, plan, key)
  {
    if listed != [] {
      var init, last := listed[..|listed| - 1], listed[|listed| - 1];
      ReportCountsAll(init, filter, plan, key);
      ReportsOneMore(ReportOver(init, filter, plan), init, last, filter, plan, key);
      assert listed == init + [last];
    }
  }
}
