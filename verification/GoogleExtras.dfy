/**
 Mirrors of events Google no longer shows. An unbroken chain of incremental listings leaves
 none; a full listing after a lost token leaves those of events that went while it was lost.
 */
module GoogleExtras {
  import opened Wrappers
  import opened ConnectorModels
  import opened MirrorFold
  import opened ExternalIds
  import opened Zones
  import opened GoogleEvents
  import opened GoogleSync
  import opened GoogleRuns
  import opened GoogleWorld

  // ---------------------------------------------------------------------------
  // What one turn leaves
  // ---------------------------------------------------------------------------

  /** Every mirror of the account is what its event was at position n. */
  ghost predicate NoExtras(hist: History, m: Mirrors, n: nat, a: Account, tz: Zone) {
    && n <= |hist|
    && forall x {:trigger StateAt(hist, n, a, x)} ::
         Lookup(m, MirrorId(a, x)).Some? ==>
           StateAt(hist, n, a, x).Some? && Lookup(m, MirrorId(a, x)) == MirrorOf(StateAt(hist, n, a, x).value, tz)
  }

  ghost predicate NoMirrors(m: Mirrors, a: Account) {
    forall x {:trigger MirrorId(a, x)} :: Lookup(m, MirrorId(a, x)).None?
  }

  /** The two mirror sets agree on one account. */
  ghost predicate SameFor(m: Mirrors, m': Mirrors, a: Account) {
    forall x {:trigger MirrorId(a, x)} :: Lookup(m', MirrorId(a, x)) == Lookup(m, MirrorId(a, x))
  }

  /**
   After a full listing a mirror is right exactly if the listing read its event, or it was
   right already.
   */
  lemma FullListingRightIff(hist: History, m: Mirrors, account: Account, timeMin: Instant, script: seq<Response>,
                            tz: Zone, x: string)
    requires Named(account) && HonestListing(hist, account, None, timeMin, script, tz)
    requires PageThrough(account, script, tz).Listed?
    requires StateAt(hist, PageThrough(account, script, tz).token, account, x).Some?
    ensures var l := PageThrough(account, script, tz);
            var shown := MirrorOf(StateAt(hist, l.token, account, x).value, tz);
            Lookup(Land(m, l.records), MirrorId(account, x)) == shown
            <==> ReadsId(script, l.used, x) || Lookup(m, MirrorId(account, x)) == shown
  {
    ListedLookup(hist, m, account, None, timeMin, script, tz, x);
  }

  /** After a 410 the restarted listing reads the event. */
  ghost predicate RestartReads(call: Call, tz: Zone, x: string) {
    UsedWithinScript(call.account, call.script, tz);
    var first := PageThrough(call.account, call.script, tz);
    first.Stale? &&
    var rest := call.script[first.used..];
    UsedWithinScript(call.account, rest, tz);
    var l := PageThrough(call.account, rest, tz);
    l.Listed? && ReadsId(rest, l.used, x)
  }

  /**
   A reset keeps a cancelled event's mirror: when the stored token meets a 410 and the restarted
   listing does not read an event, its mirror stands; if it is cancelled, nothing shows there.
   */
  lemma ResetKeepsCancelled(hist: History, m: Mirrors, state: Cursor, call: Call, tz: Zone, x: string)
    requires HonestTurn(hist, state, call, tz)
    requires TakeTurn(call.account, TokenFor(state, call.account), call.script, tz).Synced?
    requires PageThrough(call.account, call.script, tz).Stale? && !RestartReads(call, tz, x)
    ensures var turn := TakeTurn(call.account, TokenFor(state, call.account), call.script, tz);
            var after := Lookup(Land(m, turn.records), MirrorId(call.account, x));
            && turn.full && turn.token <= |hist| && after == Lookup(m, MirrorId(call.account, x))
            && var s := StateAt(hist, turn.token, call.account, x);
               s.Some? && s.value.cancelled ==>
                   (after == MirrorOf(s.value, tz) <==> Lookup(m, MirrorId(call.account, x)).None?)
  {
    UsedWithinScript(call.account, call.script, tz);
    var used := PageThrough(call.account, call.script, tz).used;
    UsedWithinScript(call.account, call.script[used..], tz);
    ListedLookup(hist, m, call.account, None, TimeMin(tz, call.now), call.script[used..], tz, x);
  }

  lemma FullListingFromNothing(hist: History, m: Mirrors, account: Account, timeMin: Instant, script: seq<Response>,
                               tz: Zone)
    requires Named(account) && HonestListing(hist, account, None, timeMin, script, tz)
    requires PageThrough(account, script, tz).Listed? && NoMirrors(m, account)
    ensures var l := PageThrough(account, script, tz);
            NoExtras(hist, Land(m, l.records), l.token, account, tz)
  {
    var l := PageThrough(account, script, tz);
    forall x {:trigger StateAt(hist, l.token, account, x)} | Lookup(Land(m, l.records), MirrorId(account, x)).Some?
      ensures StateAt(hist, l.token, account, x).Some?
              && Lookup(Land(m, l.records), MirrorId(account, x))
                  == MirrorOf(StateAt(hist, l.token, account, x).value, tz)
    {
      ListedLookup(hist, m, account, None, timeMin, script, tz, x);
    }
  }

  lemma IncrementKeepsNoExtras(hist: History, m: Mirrors, token: nat, account: Account, timeMin: Instant,
                               script: seq<Response>, tz: Zone)
    requires Named(account) && HonestListing(hist, account, Some(token), timeMin, script, tz)
    requires PageThrough(account, script, tz).Listed? && NoExtras(hist, m, token, account, tz)
    ensures var l := PageThrough(account, script, tz);
            NoExtras(hist, Land(m, l.records), l.token, account, tz)
  {
    var l := PageThrough(account, script, tz);
    forall x {:trigger StateAt(hist, l.token, account, x)} | Lookup(Land(m, l.records), MirrorId(account, x)).Some?
      ensures StateAt(hist, l.token, account, x).Some?
              && Lookup(Land(m, l.records), MirrorId(account, x))
                  == MirrorOf(StateAt(hist, l.token, account, x).value, tz)
    {
      ListedLookup(hist, m, account, Some(token), timeMin, script, tz, x);
      if !ReadsId(script, l.used, x) {
        UnchangedStays(hist, token, l.token, account, x);
        assert StateAt(hist, token, account, x).Some?;
      }
    }
  }

  lemma ListingLeavesOthers(m: Mirrors, account: Account, script: seq<Response>, tz: Zone, b: Account)
    requires Named(account) && Named(b) && account != b
    requires PageThrough(account, script, tz).Listed? && PageThrough(account, script, tz).used <= |script|
    ensures SameFor(m, Land(m, PageThrough(account, script, tz).records), b)
  {
    var records := PageThrough(account, script, tz).records;
    forall x {:trigger MirrorId(b, x)} ensures Lookup(Land(m, records), MirrorId(b, x)) == Lookup(m, MirrorId(b, x)) {
      ListingSpeaks(account, script, tz, b, x, Item("", true, None, None, None, Missing, Missing));
      LastRecordWins(m, records, MirrorId(b, x));
    }
  }

  // ---------------------------------------------------------------------------
  // One account through a history
  // ---------------------------------------------------------------------------

  /** What k full listings so far and the token held by a cursor mean for the account's mirrors. */
  ghost predicate Chained(hist: History, m: Mirrors, k: nat, token: Option<nat>, a: Account, tz: Zone) {
    && (token.Some? ==> k >= 1)
    && (k == 0 ==> NoMirrors(m, a))
    && (token.Some? && k <= 1 ==> NoExtras(hist, m, token.value, a, tz))
  }

  lemma SameForChained(hist: History, m: Mirrors, m': Mirrors, k: nat, token: Option<nat>, a: Account, tz: Zone)
    requires Chained(hist, m, k, token, a, tz) && SameFor(m, m', a)
    ensures Chained(hist, m', k, token, a, tz)
  {
    if token.Some? && k <= 1 {
      forall x {:trigger StateAt(hist, token.value, a, x)} | Lookup(m', MirrorId(a, x)).Some?
        ensures StateAt(hist, token.value, a, x).Some?
                && Lookup(m', MirrorId(a, x)) == MirrorOf(StateAt(hist, token.value, a, x).value, tz)
      {
        assert Lookup(m', MirrorId(a, x)) == Lookup(m, MirrorId(a, x));
      }
    }
  }

  predicate IsFull(state: Cursor, call: Call, a: Account, tz: Zone) {
    var turn := TakeTurn(call.account, TokenFor(state, call.account), call.script, tz);
    call.account == a && turn.Synced? && turn.full
  }

  /** How many of a run's turns listed this account in full. */
  function Fulls(state: Cursor, calls: seq<Call>, a: Account, tz: Zone): nat {
    if calls == [] then 0
    else
      Fulls(state, calls[..|calls| - 1], a, tz) + if IsFull(state, calls[|calls| - 1], a, tz) then 1 else 0
  }

  /** The account's own turn. */
  lemma OwnTurnChains(hist: History, m: Mirrors, k: nat, state: Cursor, call: Call, tz: Zone)
    requires HonestTurn(hist, state, call, tz)
    requires TakeTurn(call.account, TokenFor(state, call.account), call.script, tz).Synced?
    requires Chained(hist, m, k, TokenFor(state, call.account), call.account, tz)
    ensures var turn := TakeTurn(call.account, TokenFor(state, call.account), call.script, tz);
            Chained(hist, Land(m, turn.records), k + if turn.full then 1 else 0, Some(turn.token), call.account, tz)
  {
    var a, timeMin := call.account, TimeMin(tz, call.now);
    var turn := TakeTurn(a, TokenFor(state, a), call.script, tz);
    UsedWithinScript(a, call.script, tz);
    var first := PageThrough(a, call.script, tz);
    var script := if first.Stale? then call.script[first.used..] else call.script;
    UsedWithinScript(a, script, tz);
    if turn.full {
      if k == 0 { FullListingFromNothing(hist, m, a, timeMin, script, tz); }
    } else if k <= 1 {
      IncrementKeepsNoExtras(hist, m, TokenFor(state, a).value, a, timeMin, script, tz);
    }
  }

  /** The turn of another account. */
  lemma OtherTurnLeaves(hist: History, m: Mirrors, state: Cursor, call: Call, tz: Zone, a: Account)
    requires HonestTurn(hist, state, call, tz) && Named(a) && call.account != a
    requires TakeTurn(call.account, TokenFor(state, call.account), call.script, tz).Synced?
    ensures SameFor(m, Land(m, TakeTurn(call.account, TokenFor(state, call.account), call.script, tz).records), a)
  {
    UsedWithinScript(call.account, call.script, tz);
    var first := PageThrough(call.account, call.script, tz);
    var script := if first.Stale? then call.script[first.used..] else call.script;
    UsedWithinScript(call.account, script, tz);
    ListingLeavesOthers(m, call.account, script, tz, a);
  }

  /** Where a run stands for one account: with its new entry, or still with the stored one. */
  ghost predicate RunChains(hist: History, state: Cursor, calls: seq<Call>, run: Run, m: Mirrors, k: nat, a: Account,
                            tz: Zone) {
    run.Running? ==>
      && WellFormed(run.records)
      && (forall email <- run.entries :: exists c <- calls :: c.account.email == email)
      && Chained(hist, Land(m, run.records), k + Fulls(state, calls, a, tz), TokenFor(run.entries, a), a, tz)
      && (a.email !in run.entries ==>
            Chained(hist, Land(m, run.records), k + Fulls(state, calls, a, tz), TokenFor(state, a), a, tz))
  }

  lemma EntriesCalled(calls: seq<Call>, before: Run, state: Cursor, tz: Zone)
    requires calls != [] && before.Running?
    requires forall email <- before.entries :: exists c <- calls[..|calls| - 1] :: c.account.email == email
    ensures var after := RunStep(before, state, calls[|calls| - 1], tz);
            after.Running? ==> forall email <- after.entries :: exists c <- calls :: c.account.email == email
  {
    CallsSnoc(calls);
  }

  /** One more turn that synced. */
  lemma SyncedTurnChains(hist: History, m: Mirrors, state: Cursor, calls: seq<Call>, before: Run, k: nat, a: Account,
                         tz: Zone)
    requires calls != [] && HonestCalls(hist, state, calls, tz) && Named(a)
    requires RunChains(hist, state, calls[..|calls| - 1], before, m, k, a, tz) && before.Running?
    requires TakeTurn(calls[|calls| - 1].account, TokenFor(state, calls[|calls| - 1].account),
                      calls[|calls| - 1].script, tz).Synced?
    ensures RunChains(hist, state, calls, RunStep(before, state, calls[|calls| - 1], tz), m, k, a, tz)
  {
    var call := calls[|calls| - 1];
    var turn := TakeTurn(call.account, TokenFor(state, call.account), call.script, tz);
    var held := Land(m, before.records);
    var fulls := k + Fulls(state, calls[..|calls| - 1], a, tz);
    TurnWellFormed(hist, state, call, tz);
    LandAppends(m, before.records, turn.records);
    EntriesCalled(calls, before, state, tz);
    if call.account == a {
      assert a.email !in before.entries;
      OwnTurnChains(hist, held, fulls, state, call, tz);
    } else {
      OtherTurnLeaves(hist, held, state, call, tz, a);
      SameForChained(hist, held, Land(held, turn.records), fulls, TokenFor(before.entries, a), a, tz);
      if a.email !in before.entries {
        SameForChained(hist, held, Land(held, turn.records), fulls, TokenFor(state, a), a, tz);
      }
    }
  }

  lemma TurnWellFormed(hist: History, state: Cursor, call: Call, tz: Zone)
    requires HonestTurn(hist, state, call, tz)
    requires TakeTurn(call.account, TokenFor(state, call.account), call.script, tz).Synced?
    ensures WellFormed(TakeTurn(call.account, TokenFor(state, call.account), call.script, tz).records)
  {
    var a, timeMin := call.account, TimeMin(tz, call.now);
    UsedWithinScript(a, call.script, tz);
    var first := PageThrough(a, call.script, tz);
    var script := if first.Stale? then call.script[first.used..] else call.script;
    UsedWithinScript(a, script, tz);
    WellFormedListing(hist, a, if first.Stale? then None else TokenFor(state, a), timeMin, script, tz);
  }

  lemma {:induction false} RunOverChains(hist: History, m: Mirrors, state: Cursor, calls: seq<Call>, k: nat,
                                         a: Account, tz: Zone)
    requires HonestCalls(hist, state, calls, tz) && Named(a)
    requires Chained(hist, m, k, TokenFor(state, a), a, tz)
    ensures RunChains(hist, state, calls, RunOver(state, calls, tz), m, k, a, tz)
  {
    if calls != [] {
      var init, call := calls[..|calls| - 1], calls[|calls| - 1];
      RunOverChains(hist, m, state, init, k, a, tz);
      var before := RunOver(state, init, tz);
      if before.Running? {
        if TakeTurn(call.account, TokenFor(state, call.account), call.script, tz).Synced? {
          SyncedTurnChains(hist, m, state, calls, before, k, a, tz);
        } else {
          EntriesCalled(calls, before, state, tz);
        }
      }
    }
  }

  /** How often a history has listed this account in full and kept the result. */
  function FullListings(start: World, steps: seq<WorldStep>, a: Account, tz: Zone): nat {
    if steps == [] then 0
    else
      var init, step := steps[..|steps| - 1], steps[|steps| - 1];
      var before := RunWorld(start, init, tz);
      FullListings(start, init, a, tz)
      + if step.Polled? && RunOutcome(before, step.calls, tz).Success?
        then Fulls(StateOf(before.cursor), step.calls, a, tz) else 0
  }

  lemma EditsKeepChained(hist: History, later: History, m: Mirrors, k: nat, token: Option<nat>, a: Account, tz: Zone)
    requires Chained(hist, m, k, token, a, tz)
    ensures Chained(hist + later, m, k, token, a, tz)
  {
    if token.Some? && k <= 1 {
      forall x {:trigger StateAt(hist + later, token.value, a, x)}
        ensures StateAt(hist + later, token.value, a, x) == StateAt(hist, token.value, a, x)
      {
        StateInPrefix(hist, hist + later, token.value, a, x);
      }
    }
  }

  ghost predicate WorldChained(w: World, k: nat, a: Account, tz: Zone) {
    Chained(w.hist, w.mirrors, k, TokenFor(StateOf(w.cursor), a), a, tz)
  }

  lemma StepChains(w: World, step: WorldStep, k: nat, a: Account, tz: Zone)
    requires WorldChained(w, k, a, tz) && ValidStep(w, step, tz) && Named(a)
    ensures var more := if step.Polled? && RunOutcome(w, step.calls, tz).Success?
                        then Fulls(StateOf(w.cursor), step.calls, a, tz) else 0;
            WorldChained(Next(w, step, tz), k + more, a, tz)
  {
    var later := if step.Edited? then [step.edit] else step.during;
    EditsKeepChained(w.hist, later, w.mirrors, k, TokenFor(StateOf(w.cursor), a), a, tz);
    if step.Polled? {
      RunOverChains(w.hist + later, w.mirrors, StateOf(w.cursor), step.calls, k, a, tz);
    }
  }

  lemma {:induction false} RunChainsWorld(start: World, steps: seq<WorldStep>, a: Account, tz: Zone)
    requires WorldChained(start, 0, a, tz) && ValidRun(start, steps, tz) && Named(a)
    ensures WorldChained(RunWorld(start, steps, tz), FullListings(start, steps, a, tz), a, tz)
  {
    if steps != [] {
      var init, step := steps[..|steps| - 1], steps[|steps| - 1];
      RunChainsWorld(start, init, a, tz);
      StepChains(RunWorld(start, init, tz), step, FullListings(start, init, a, tz), a, tz);
    }
  }

  /**
   An unbroken chain has no extra mirror: over every history that starts without mirrors of an
   account and lists it in full once, each of its mirrors is what its event was at the stored
   token, cancelled ones being gone.
   */
  lemma UnbrokenChainHasNoExtras(mirrors: Mirrors, steps: seq<WorldStep>, tz: Zone, a: Account, x: string)
    requires ValidRun(Start(mirrors), steps, tz) && Named(a) && NoMirrors(mirrors, a)
    requires FullListings(Start(mirrors), steps, a, tz) <= 1
    requires TokenFor(StateOf(RunWorld(Start(mirrors), steps, tz).cursor), a).Some?
    ensures var w := RunWorld(Start(mirrors), steps, tz);
            var n := TokenFor(StateOf(w.cursor), a).value;
            && n <= |w.hist|
            && (Lookup(w.mirrors, MirrorId(a, x)).Some? ==>
                  && StateAt(w.hist, n, a, x).Some? && !StateAt(w.hist, n, a, x).value.cancelled
                  && Lookup(w.mirrors, MirrorId(a, x)) == MirrorOf(StateAt(w.hist, n, a, x).value, tz))
  {
    RunChainsWorld(Start(mirrors), steps, a, tz);
    var w := RunWorld(Start(mirrors), steps, tz);
    var _ := StateAt(w.hist, TokenFor(StateOf(w.cursor), a).value, a, x);
  }
}
