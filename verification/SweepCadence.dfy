/**
 Cadence over whole histories: sweeps, runs started by hand, reconfigurations and waiting. The
 clock never runs backwards: it only moves by waiting and by the time runs take.
 */
module SweepCadence {
  import opened Wrappers
  import opened ConnectorModels
  import opened SyncSweep

  /** A completed run: when it was stamped, the cadence in force, and whether a sweep started it. */
  datatype Stamp = Stamp(key: ConfigKey, at: Instant, pollSeconds: nat, swept: bool)

  datatype World = World(store: Store, log: seq<Stamp>)

  datatype Step =
    | Wait(time: nat)
    | Sweep(listed: seq<ConfigKey>, filter: Option<string>, plan: Plan)
    | Manual(key: ConfigKey, attempt: Attempt)
    | Configure(key: ConfigKey, enabled: bool, pollSeconds: nat)

  /** One config's run, logged when it completes. */
  function Ran(w: World, key: ConfigKey, a: Attempt, swept: bool): World {
    var store := RunOne(w.store, key, a);
    World(store,
          if Runs(w.store, key) && Completes(a)
          then w.log + [Stamp(key, store.clock, w.store.configs[key].pollSeconds, swept)] else w.log)
  }

  function Sweeping(w: World, listed: seq<ConfigKey>, filter: Option<string>, plan: Plan): World {
    if listed == [] then w
    else
      var before, key := Sweeping(w, listed[..|listed| - 1], filter, plan), listed[|listed| - 1];
      if Wanted(key, filter) then Ran(before, key, plan(key), true) else before
  }

  /** `enable` or `disable`: the intake is overwritten, the stamp stays. */
  function Configured(s: Store, key: ConfigKey, enabled: bool, pollSeconds: nat): Store {
    s.(configs := s.configs[key := Config(enabled, pollSeconds,
                                          if key in s.configs then s.configs[key].lastSynced else None)])
  }

  function Next(w: World, step: Step): World {
    match step
    case Wait(time) => w.(store := w.store.(clock := w.store.clock + time))
    case Sweep(listed, filter, plan) => Sweeping(w, listed, filter, plan)
    case Manual(key, attempt) => Ran(w, key, attempt, false)
    case Configure(key, enabled, pollSeconds) => w.(store := Configured(w.store, key, enabled, pollSeconds))
  }

  /** A sweep runs what was due when it began. */
  ghost predicate ValidStep(w: World, step: Step) {
    step.Sweep? ==> Listing(w.store, step.listed)
  }

  function RunWorld(w: World, steps: seq<Step>): World {
    if steps == [] then w else Next(RunWorld(w, steps[..|steps| - 1]), steps[|steps| - 1])
  }

  ghost predicate ValidRun(w: World, steps: seq<Step>) {
    steps != [] ==>
      && ValidRun(w, steps[..|steps| - 1])
      && ValidStep(RunWorld(w, steps[..|steps| - 1]), steps[|steps| - 1])
  }

  // ---------------------------------------------------------------------------
  // Spacing
  // ---------------------------------------------------------------------------

  /** A stamp a sweep caused is a full cadence after any earlier one of its config. */
  ghost predicate Apart(a: Stamp, b: Stamp) {
    a.key == b.key && b.swept ==> a.at + b.pollSeconds * SECOND <= b.at
  }

  ghost predicate Spaced(log: seq<Stamp>) {
    forall i, j | 0 <= i < j < |log| :: Apart(log[i], log[j])
  }

  /** The config's last stamp is no earlier than this one. */
  ghost predicate Recorded(s: Store, stamp: Stamp) {
    stamp.key in s.configs && s.configs[stamp.key].lastSynced.Some?
    && stamp.at <= s.configs[stamp.key].lastSynced.value
  }

  ghost predicate StampsPast(s: Store) {
    forall key <- s.configs :: s.configs[key].lastSynced.Some? ==> s.configs[key].lastSynced.value <= s.clock
  }

  ghost predicate Inv(w: World) {
    StampsPast(w.store) && Spaced(w.log) && forall stamp <- w.log :: Recorded(w.store, stamp)
  }

  lemma RunOneRecords(s: Store, log: seq<Stamp>, key: ConfigKey, a: Attempt)
    requires StampsPast(s) && forall stamp <- log :: Recorded(s, stamp)
    ensures StampsPast(RunOne(s, key, a)) && forall stamp <- log :: Recorded(RunOne(s, key, a), stamp)
  {
    forall stamp | stamp in log ensures Recorded(RunOne(s, key, a), stamp) {
      assert Recorded(s, stamp);
    }
  }

  /** A run keeps the spacing if it is none a sweep started, or was due when that began. */
  lemma RanKeeps(w: World, key: ConfigKey, a: Attempt, swept: bool, since: Instant)
    requires Inv(w) && since <= w.store.clock
    requires swept && Runs(w.store, key) ==> DueAt(w.store.configs[key], since)
    ensures Inv(Ran(w, key, a, swept))
  {
    RunOneRecords(w.store, w.log, key, a);
    if Runs(w.store, key) && Completes(a) {
      var after := RunOne(w.store, key, a);
      var stamp := Stamp(key, after.clock, w.store.configs[key].pollSeconds, swept);
      forall earlier | earlier in w.log ensures Apart(earlier, stamp) {
        assert Recorded(w.store, earlier);
      }
      AppendSpaced(w.log, stamp);
      assert Recorded(after, stamp);
    }
  }

  lemma AppendSpaced(log: seq<Stamp>, stamp: Stamp)
    requires Spaced(log) && forall earlier <- log :: Apart(earlier, stamp)
    ensures Spaced(log + [stamp])
  {
  }

  /** While a sweep runs, the configs it has not reached are as it found them. */
  lemma {:induction false} SweepingKeeps(w: World, listed: seq<ConfigKey>, filter: Option<string>, plan: Plan)
    requires Inv(w)
    requires forall key <- listed :: key in w.store.configs && DueAt(w.store.configs[key], w.store.clock)
    requires forall i, j | 0 <= i < j < |listed| :: listed[i] != listed[j]
    ensures Inv(Sweeping(w, listed, filter, plan))
  {
    if listed != [] {
      var init, last := listed[..|listed| - 1], listed[|listed| - 1];
      assert forall key <- init :: key in listed;
      assert last in listed && last !in init;
      SweepingKeeps(w, init, filter, plan);
      SweepingIsSweep(w, init, filter, plan);
      SweepIsolates(w.store, init, filter, plan, last);
      if Wanted(last, filter) {
        RanKeeps(Sweeping(w, init, filter, plan), last, plan(last), true, w.store.clock);
      }
    }
  }

  lemma {:induction false} SweepingIsSweep(w: World, listed: seq<ConfigKey>, filter: Option<string>, plan: Plan)
    ensures Sweeping(w, listed, filter, plan).store == SweepOver(w.store, listed, filter, plan)
  {
    if listed != [] { SweepingIsSweep(w, listed[..|listed| - 1], filter, plan); }
  }

  lemma ConfiguredKeeps(w: World, key: ConfigKey, enabled: bool, pollSeconds: nat)
    requires Inv(w)
    ensures Inv(w.(store := Configured(w.store, key, enabled, pollSeconds)))
  {
    forall stamp | stamp in w.log ensures Recorded(Configured(w.store, key, enabled, pollSeconds), stamp) {
      assert Recorded(w.store, stamp);
    }
  }

  lemma StepKeepsInv(w: World, step: Step)
    requires Inv(w) && ValidStep(w, step)
    ensures Inv(Next(w, step))
  {
    match step
    case Wait(time) =>
      forall stamp | stamp in w.log ensures Recorded(Next(w, step).store, stamp) {
        assert Recorded(w.store, stamp);
      }
    case Sweep(listed, filter, plan) => SweepingKeeps(w, listed, filter, plan);
    case Manual(key, attempt) => RanKeeps(w, key, attempt, false, w.store.clock);
    case Configure(key, enabled, pollSeconds) => ConfiguredKeeps(w, key, enabled, pollSeconds);
  }

  lemma {:induction false} RunKeepsInv(w: World, steps: seq<Step>)
    requires Inv(w) && ValidRun(w, steps)
    ensures Inv(RunWorld(w, steps))
  {
    if steps != [] {
      RunKeepsInv(w, steps[..|steps| - 1]);
      StepKeepsInv(RunWorld(w, steps[..|steps| - 1]), steps[|steps| - 1]);
    }
  }

  // ---------------------------------------------------------------------------
  // Main results
  // ---------------------------------------------------------------------------

  /**
   Over every history, a completed run that a sweep started is stamped at least the cadence
   then in force after every earlier completed run of its config, whatever started that one.
   */
  lemma StampsAreACadenceApart(s: Store, steps: seq<Step>, i: nat, j: nat)
    requires StampsPast(s) && ValidRun(World(s, []), steps)
    requires i < j < |RunWorld(World(s, []), steps).log|
    ensures var log := RunWorld(World(s, []), steps).log;
            log[i].key == log[j].key && log[j].swept ==> log[i].at + log[j].pollSeconds * 1_000_000 <= log[j].at
  {
    RunKeepsInv(World(s, []), steps);
    var log := RunWorld(World(s, []), steps).log;
    assert Apart(log[i], log[j]);
  }

  /** The step completes no run of this config and leaves its intake alone. */
  ghost predicate Unanswered(step: Step, key: ConfigKey) {
    match step
    case Wait(_) => true
    case Sweep(listed, filter, plan) => key !in listed || !Wanted(key, filter) || !Completes(plan(key))
    case Manual(k, attempt) => k != key || !Completes(attempt)
    case Configure(k, _, _) => k != key
  }

  /**
   A config that is due, in particular one whose run has just raised, stays due, and so is
   listed by every sweep, until a run of it completes or it is reconfigured.
   */
  lemma {:induction false} StaysDue(w: World, steps: seq<Step>, key: ConfigKey)
    requires ValidRun(w, steps) && key in w.store.configs && DueAt(w.store.configs[key], w.store.clock)
    requires forall step <- steps :: Unanswered(step, key)
    ensures var after := RunWorld(w, steps).store;
            && key in after.configs && after.configs[key] == w.store.configs[key]
            && w.store.clock <= after.clock && DueAt(after.configs[key], after.clock)
  {
    if steps != [] {
      var init, last := steps[..|steps| - 1], steps[|steps| - 1];
      assert forall step <- init :: step in steps;
      assert Unanswered(last, key) by { assert last in steps; }
      StaysDue(w, init, key);
      var before := RunWorld(w, init);
      if last.Sweep? {
        SweepingIsSweep(before, last.listed, last.filter, last.plan);
        SweepIsolates(before.store, last.listed, last.filter, last.plan, key);
      }
    }
  }

  /** A run that raises leaves its own config as due as it was. */
  lemma FailureKeepsDue(w: World, listed: seq<ConfigKey>, filter: Option<string>, plan: Plan, key: ConfigKey)
    requires Listing(w.store, listed) && key in listed && !Completes(plan(key))
    ensures var after := Sweeping(w, listed, filter, plan).store;
            key in after.configs && DueAt(after.configs[key], after.clock)
  {
    SweepingIsSweep(w, listed, filter, plan);
    SweepIsolates(w.store, listed, filter, plan, key);
  }

  // ---------------------------------------------------------------------------
  // What a sweep lists
  // ---------------------------------------------------------------------------

  /** What a history has configured last for this key: whether enabled, and the cadence. */
  function Intake(steps: seq<Step>, key: ConfigKey): Option<(bool, nat)> {
    if steps == [] then None
    else match steps[|steps| - 1]
      case Configure(k, enabled, pollSeconds) =>
        if k == key then Some((enabled, pollSeconds)) else Intake(steps[..|steps| - 1], key)
      case _ => Intake(steps[..|steps| - 1], key)
  }

  /** A household before anything is connected. */
  function Unconnected(cursors: map<ConfigKey, string>, clock: Instant): World {
    World(Store(map[], cursors, clock), [])
  }

  /** The config is as last configured. */
  ghost predicate AsConfigured(s: Store, intake: Option<(bool, nat)>, key: ConfigKey) {
    && (key in s.configs <==> intake.Some?)
    && (intake.Some? ==> s.configs[key].enabled == intake.value.0 && s.configs[key].pollSeconds == intake.value.1)
  }

  lemma SweepKeepsIntake(w: World, listed: seq<ConfigKey>, filter: Option<string>, plan: Plan, key: ConfigKey,
                         intake: Option<(bool, nat)>)
    requires AsConfigured(w.store, intake, key) && Listing(w.store, listed)
    ensures AsConfigured(Sweeping(w, listed, filter, plan).store, intake, key)
  {
    SweepingIsSweep(w, listed, filter, plan);
    SweepIsolates(w.store, listed, filter, plan, key);
  }

  lemma {:induction false} IntakeIs(cursors: map<ConfigKey, string>, clock: Instant, steps: seq<Step>, key: ConfigKey)
    requires ValidRun(Unconnected(cursors, clock), steps)
    ensures AsConfigured(RunWorld(Unconnected(cursors, clock), steps).store, Intake(steps, key), key)
  {
    if steps != [] {
      var init, last := steps[..|steps| - 1], steps[|steps| - 1];
      IntakeIs(cursors, clock, init, key);
      if last.Sweep? {
        SweepKeepsIntake(RunWorld(Unconnected(cursors, clock), init), last.listed, last.filter, last.plan, key,
                         Intake(init, key));
      }
    }
  }

  /** A config's stamp is that of one of its logged runs. */
  ghost predicate Logged(w: World, key: ConfigKey) {
    key in w.store.configs && w.store.configs[key].lastSynced.Some? ==>
      exists stamp <- w.log :: stamp.key == key && stamp.at == w.store.configs[key].lastSynced.value
  }

  lemma RanLogs(w: World, k: ConfigKey, a: Attempt, swept: bool, key: ConfigKey)
    requires Logged(w, key)
    ensures Logged(Ran(w, k, a, swept), key)
  {
    var after := Ran(w, k, a, swept);
    if Runs(w.store, k) && Completes(a) && k == key {
      assert after.log[|w.log|] in after.log;
    } else if key in w.store.configs && w.store.configs[key].lastSynced.Some? {
      var stamp :| stamp in w.log && stamp.key == key && stamp.at == w.store.configs[key].lastSynced.value;
      assert stamp in after.log;
    }
  }

  lemma {:induction false} SweepingLogs(w: World, listed: seq<ConfigKey>, filter: Option<string>, plan: Plan,
                                        key: ConfigKey)
    requires Logged(w, key)
    ensures Logged(Sweeping(w, listed, filter, plan), key)
  {
    if listed != [] {
      var init, last := listed[..|listed| - 1], listed[|listed| - 1];
      SweepingLogs(w, init, filter, plan, key);
      RanLogs(Sweeping(w, init, filter, plan), last, plan(last), true, key);
    }
  }

  lemma {:induction false} RunLogs(cursors: map<ConfigKey, string>, clock: Instant, steps: seq<Step>, key: ConfigKey)
    ensures Logged(RunWorld(Unconnected(cursors, clock), steps), key)
  {
    if steps != [] {
      var init, last := steps[..|steps| - 1], steps[|steps| - 1];
      var before := RunWorld(Unconnected(cursors, clock), init);
      RunLogs(cursors, clock, init, key);
      match last
      case Sweep(listed, filter, plan) => SweepingLogs(before, listed, filter, plan, key);
      case Manual(k, attempt) => RanLogs(before, k, attempt, false, key);
      case Wait(_) =>
      case Configure(_, _, _) =>
    }
  }

  /** No run of the config has completed within its last cadence. */
  ghost predicate Rested(w: World, key: ConfigKey, pollSeconds: nat) {
    forall stamp <- w.log :: stamp.key == key ==> stamp.at + pollSeconds * 1_000_000 <= w.store.clock
  }

  /**
   Over every history, a sweep lists a config if and only if it was last configured enabled and
   no run of it has completed within its last pollSeconds seconds.
   */
  lemma SweepListsIff(cursors: map<ConfigKey, string>, clock: Instant, steps: seq<Step>, listed: seq<ConfigKey>,
                      key: ConfigKey)
    requires ValidRun(Unconnected(cursors, clock), steps)
    requires Listing(RunWorld(Unconnected(cursors, clock), steps).store, listed)
    ensures var w, intake := RunWorld(Unconnected(cursors, clock), steps), Intake(steps, key);
            key in listed <==> intake.Some? && intake.value.0 && Rested(w, key, intake.value.1)
  {
    var start := Unconnected(cursors, clock);
    var w := RunWorld(start, steps);
    IntakeIs(cursors, clock, steps, key);
    RunKeepsInv(start, steps);
    RunLogs(cursors, clock, steps, key);
    if key in w.store.configs {
      var c := w.store.configs[key];
      if Rested(w, key, c.pollSeconds) && c.lastSynced.Some? {
        var stamp :| stamp in w.log && stamp.key == key && stamp.at == c.lastSynced.value;
      }
      forall stamp | stamp in w.log && stamp.key == key ensures c.lastSynced.Some? && stamp.at <= c.lastSynced.value {
        assert Recorded(w.store, stamp);
      }
    }
  }

  /** A newly connected config is listed by the next sweep. */
  lemma NewConfigIsListed(cursors: map<ConfigKey, string>, clock: Instant, steps: seq<Step>, key: ConfigKey,
                          pollSeconds: nat, listed: seq<ConfigKey>)
    requires ValidRun(Unconnected(cursors, clock), steps) && Intake(steps, key).None?
    requires Listing(RunWorld(Unconnected(cursors, clock), steps + [Configure(key, true, pollSeconds)]).store, listed)
    ensures key in listed
  {
    var start, after := Unconnected(cursors, clock), steps + [Configure(key, true, pollSeconds)];
    assert after[..|steps|] == steps;
    IntakeIs(cursors, clock, steps, key);
    RunKeepsInv(start, steps);
    forall stamp | stamp in RunWorld(start, steps).log ensures stamp.key != key {
      assert Recorded(RunWorld(start, steps).store, stamp);
    }
    SweepListsIff(cursors, clock, after, listed, key);
  }
}
