/**
 Whole histories of the Google connector: edits on the server and sync runs in any
 interleaving. The batch of every completed run is applied before the next run starts.
 */
module GoogleWorld {
  import opened Wrappers
  import opened ConnectorModels
  import opened MirrorFold
  import opened CursorRules
  import opened ExternalIds
  import opened Zones
  import opened GoogleEvents
  import opened GoogleSync
  import opened GoogleRuns

  /** An entry of another account survives one account's turn. */
  lemma TurnKeepsOthers(hist: History, m: Mirrors, bases: map<Account, Base>, email: string, entry: CursorEntry,
                        state: Cursor, call: Call, tz: Zone)
    requires EntryKept(hist, m, bases, email, entry, tz) && call.account.email != email
    requires HonestTurn(hist, state, call, tz)
    requires TakeTurn(call.account, TokenFor(state, call.account), call.script, tz).Synced?
    ensures var turn := TakeTurn(call.account, TokenFor(state, call.account), call.script, tz);
            EntryKept(hist, Land(m, turn.records), BasesStep(bases, state, call, tz), email, entry, tz)
  {
    var a := call.account;
    UsedWithinScript(a, call.script, tz);
    var first := PageThrough(a, call.script, tz);
    var script := if first.Stale? then call.script[first.used..] else call.script;
    UsedWithinScript(a, script, tz);
    OthersKept(hist, m, bases, email, entry, a, script, tz);
  }

  /** The last call of a run and the calls before it. */
  lemma CallsSnoc(calls: seq<Call>)
    requires calls != []
    ensures var init, call := calls[..|calls| - 1], calls[|calls| - 1];
            call in calls && (forall c <- init :: c in calls)
  {
  }

  lemma SyncedStepKeeps(hist: History, m: Mirrors, state: Cursor, calls: seq<Call>, before: Run,
                        bases: map<Account, Base>, tz: Zone)
    requires calls != []
    requires RunKeeps(hist, state, calls[..|calls| - 1], before, m, bases, tz) && before.Running?
    requires HonestCalls(hist, state, calls, tz)
    requires TakeTurn(calls[|calls| - 1].account, TokenFor(state, calls[|calls| - 1].account),
                      calls[|calls| - 1].script, tz).Synced?
    ensures var call := calls[|calls| - 1];
            RunKeeps(hist, state, calls, RunStep(before, state, call, tz), m, BasesStep(bases, state, call, tz), tz)
  {
    var call := calls[|calls| - 1];
    var a := call.account;
    var turn := TakeTurn(a, TokenFor(state, a), call.script, tz);
    var bases' := BasesStep(bases, state, call, tz);
    var held := Land(m, before.records);
    TurnKeeps(hist, held, bases, state, call, tz);
    LandAppends(m, before.records, turn.records);
    CallsSnoc(calls);
    var after := RunStep(before, state, call, tz);
    forall email | email in after.entries
      ensures EntryKept(hist, Land(m, after.records), bases', email, after.entries[email], tz)
    {
      if email != a.email {
        TurnKeepsOthers(hist, held, bases, email, before.entries[email], state, call, tz);
      }
    }
    forall email | email in state && email !in after.entries
      ensures EntryKept(hist, Land(m, after.records), bases', email, state[email], tz)
    {
      TurnKeepsOthers(hist, held, bases, email, state[email], state, call, tz);
    }
  }

  /** A skipped or raising turn adds nothing. */
  lemma OtherStepKeeps(hist: History, m: Mirrors, state: Cursor, calls: seq<Call>, before: Run,
                       bases: map<Account, Base>, tz: Zone)
    requires calls != []
    requires RunKeeps(hist, state, calls[..|calls| - 1], before, m, bases, tz)
    requires before.Running? ==> !TakeTurn(calls[|calls| - 1].account, TokenFor(state, calls[|calls| - 1].account),
                                           calls[|calls| - 1].script, tz).Synced?
    ensures var call := calls[|calls| - 1];
            RunKeeps(hist, state, calls, RunStep(before, state, call, tz), m, BasesStep(bases, state, call, tz), tz)
  {
    CallsSnoc(calls);
  }

  lemma {:induction false} RunOverKeeps(hist: History, m: Mirrors, state: Cursor, calls: seq<Call>,
                                        bases: map<Account, Base>, tz: Zone)
    requires HonestCalls(hist, state, calls, tz)
    requires forall email <- state :: EntryKept(hist, m, bases, email, state[email], tz)
    ensures RunKeeps(hist, state, calls, RunOver(state, calls, tz), m, BasesAfter(bases, state, calls, tz), tz)
  {
    if calls != [] {
      var init, call := calls[..|calls| - 1], calls[|calls| - 1];
      RunOverKeeps(hist, m, state, init, bases, tz);
      var before, bases0 := RunOver(state, init, tz), BasesAfter(bases, state, init, tz);
      if before.Running? && TakeTurn(call.account, TokenFor(state, call.account), call.script, tz).Synced? {
        SyncedStepKeeps(hist, m, state, calls, before, bases0, tz);
      } else {
        OtherStepKeeps(hist, m, state, calls, before, bases0, tz);
      }
    }
  }

  // ---------------------------------------------------------------------------
  // Histories
  // ---------------------------------------------------------------------------

  datatype World = World(hist: History, cursor: Option<Cursor>, mirrors: Mirrors, bases: map<Account, Base>)

  /** The server is edited, or one run syncs the household while `during` happens on the server. */
  datatype WorldStep = Edited(edit: Edit) | Polled(calls: seq<Call>, during: History)

  function RunOutcome(w: World, calls: seq<Call>, tz: Zone): Outcome<Cursor, ExternalRecord> {
    OutcomeOf(RunOver(StateOf(w.cursor), calls, tz))
  }

  function Next(w: World, step: WorldStep, tz: Zone): World
  {
    match step
    case Edited(edit) => w.(hist := w.hist + [edit])
    case Polled(calls, during) =>
      var outcome := RunOutcome(w, calls, tz);
      World(w.hist + during,
            CursorAfter(w.cursor, outcome),
            Land(w.mirrors, Delivered(outcome)),
            if outcome.Success? then BasesAfter(w.bases, StateOf(w.cursor), calls, tz) else w.bases)
  }

  ghost predicate ValidStep(w: World, step: WorldStep, tz: Zone) {
    step.Polled? ==> HonestCalls(w.hist + step.during, StateOf(w.cursor), step.calls, tz)
  }

  function RunWorld(w: World, steps: seq<WorldStep>, tz: Zone): World {
    if steps == [] then w else Next(RunWorld(w, steps[..|steps| - 1], tz), steps[|steps| - 1], tz)
  }

  ghost predicate ValidRun(w: World, steps: seq<WorldStep>, tz: Zone) {
    steps != [] ==>
      && ValidRun(w, steps[..|steps| - 1], tz)
      && ValidStep(RunWorld(w, steps[..|steps| - 1], tz), steps[|steps| - 1], tz)
  }

  function Start(mirrors: Mirrors): World {
    World([], None, mirrors, map[])
  }

  ghost predicate CursorKept(w: World, tz: Zone) {
    forall email <- StateOf(w.cursor) :: EntryKept(w.hist, w.mirrors, w.bases, email, StateOf(w.cursor)[email], tz)
  }

  lemma EditsKeep(hist: History, later: History, m: Mirrors, bases: map<Account, Base>, email: string,
                  entry: CursorEntry, tz: Zone)
    requires EntryKept(hist, m, bases, email, entry, tz)
    ensures EntryKept(hist + later, m, bases, email, entry, tz)
  {
    var a, n := Account(email, entry.calendarId), entry.syncToken;
    var base := bases[a];
    forall x {:trigger StateAt(hist + later, n, a, x)}
      ensures StateAt(hist + later, n, a, x) == StateAt(hist, n, a, x)
      ensures Covered(hist + later, base, n, a, x, tz) <==> Covered(hist, base, n, a, x, tz)
    {
      StateInPrefix(hist, hist + later, n, a, x);
      StateInPrefix(hist, hist + later, base.at, a, x);
      assert Changed(hist + later, base.at, n, a, x) <==> Changed(hist, base.at, n, a, x);
    }
  }

  lemma StepKeeps(w: World, step: WorldStep, tz: Zone)
    requires CursorKept(w, tz) && ValidStep(w, step, tz)
    ensures CursorKept(Next(w, step, tz), tz)
  {
    var later := if step.Edited? then [step.edit] else step.during;
    forall email | email in StateOf(w.cursor)
      ensures EntryKept(w.hist + later, w.mirrors, w.bases, email, StateOf(w.cursor)[email], tz)
    {
      EditsKeep(w.hist, later, w.mirrors, w.bases, email, StateOf(w.cursor)[email], tz);
    }
    if step.Polled? {
      RunOverKeeps(w.hist + later, w.mirrors, StateOf(w.cursor), step.calls, w.bases, tz);
    }
  }

  lemma {:induction false} RunKeepsCursor(start: World, steps: seq<WorldStep>, tz: Zone)
    requires CursorKept(start, tz) && ValidRun(start, steps, tz)
    ensures CursorKept(RunWorld(start, steps, tz), tz)
  {
    if steps != [] {
      var init, last := steps[..|steps| - 1], steps[|steps| - 1];
      RunKeepsCursor(start, init, tz);
      StepKeeps(RunWorld(start, init, tz), last, tz);
    }
  }

  /**
   The cursor never runs ahead: in every reachable world, for every stored token and every
   event alive or cancelled at it that was inside the horizon of the account's last full
   listing or has changed since, the mirror is what the event was at that token.
   */
  lemma CursorNeverAhead(mirrors: Mirrors, steps: seq<WorldStep>, tz: Zone, email: string, x: string)
    requires ValidRun(Start(mirrors), steps, tz)
    requires email in StateOf(RunWorld(Start(mirrors), steps, tz).cursor)
    ensures var w := RunWorld(Start(mirrors), steps, tz);
            var entry := StateOf(w.cursor)[email];
            var a, n := Account(email, entry.calendarId), entry.syncToken;
            && n <= |w.hist| && a in w.bases && w.bases[a].at <= n
            && (StateAt(w.hist, n, a, x).Some? && Covered(w.hist, w.bases[a], n, a, x, tz) ==>
                  Lookup(w.mirrors, MirrorId(a, x)) == MirrorOf(StateAt(w.hist, n, a, x).value, tz))
  {
    RunKeepsCursor(Start(mirrors), steps, tz);
    var w := RunWorld(Start(mirrors), steps, tz);
    var entry := StateOf(w.cursor)[email];
    assert EntryKept(w.hist, w.mirrors, w.bases, email, entry, tz);
    var _ := StateAt(w.hist, entry.syncToken, Account(email, entry.calendarId), x);
  }

  /**
   When every account's grant is dead the run names no next cursor, so the stored one stays:
   the skipped accounts' entries do not drop out, and they later resume incrementally.
   */
  lemma {:induction false} AllSkippedKeepsCursor(cursor: Option<Cursor>, calls: seq<Call>, tz: Zone)
    requires forall c <- calls :: TakeTurn(c.account, TokenFor(StateOf(cursor), c.account), c.script, tz).Skipped?
    ensures CursorAfter(cursor, OutcomeOf(RunOver(StateOf(cursor), calls, tz))) == cursor
  {
    AllSkipped(StateOf(cursor), calls, tz);
  }

  lemma {:induction false} AllSkipped(state: Cursor, calls: seq<Call>, tz: Zone)
    requires forall c <- calls :: TakeTurn(c.account, TokenFor(state, c.account), c.script, tz).Skipped?
    ensures RunOver(state, calls, tz) == Running(map[], [])
  {
    if calls != [] {
      var init := calls[..|calls| - 1];
      assert forall c <- init :: c in calls;
      assert calls[|calls| - 1] in calls;
      AllSkipped(state, init, tz);
    }
  }

  /** A dead grant beside a living one does drop out: its next pass is a full one. */
  lemma {:induction false} SkippedBesideSyncedDropsOut(cursor: Option<Cursor>, calls: seq<Call>, tz: Zone,
                                                       email: string)
    requires RunOver(StateOf(cursor), calls, tz).Running? && RunOver(StateOf(cursor), calls, tz).entries != map[]
    requires forall c <- calls :: c.account.email == email ==>
               TakeTurn(c.account, TokenFor(StateOf(cursor), c.account), c.script, tz).Skipped?
    ensures email !in StateOf(CursorAfter(cursor, OutcomeOf(RunOver(StateOf(cursor), calls, tz))))
  {
    SkippedHasNoEntry(StateOf(cursor), calls, tz, email);
  }

  lemma {:induction false} SkippedHasNoEntry(state: Cursor, calls: seq<Call>, tz: Zone, email: string)
    requires RunOver(state, calls, tz).Running?
    requires forall c <- calls :: c.account.email == email ==>
               TakeTurn(c.account, TokenFor(state, c.account), c.script, tz).Skipped?
    ensures email !in RunOver(state, calls, tz).entries
  {
    if calls != [] {
      var init := calls[..|calls| - 1];
      assert forall c <- init :: c in calls;
      assert calls[|calls| - 1] in calls;
      SkippedHasNoEntry(state, init, tz, email);
    }
  }
}
