/**
 What a run of the Chromium supervisor may do, as an automaton over everything it awaits, and
 what every accepted trace satisfies (src/nidaro/chromium/supervisor.py).
 */
module SupervisorTrace {

  /** What the supervisor awaits; clients are numbered in the order they connect. */
  datatype Call =
    | Resolve
    | Dial
    | Attach(client: nat)
    | Sleep(seconds: real)
    | Ping(client: nat)
    | Close(client: nat)
    | Detach(client: nat)

  /** How an await ends. */
  datatype Outcome = Fine | Raises | Cancelled

  /** One await, how it ended, and whether `stop` was called during it. */
  datatype Awaited = Awaited(call: Call, outcome: Outcome, stop: bool)

  type Trace = seq<Awaited>

  datatype Settings = Settings(poll: real, ping: real, cap: real, hasDetach: bool)

  /**
   Where a run stands. `Idle`, `Resolved` and `Down` count the retries of the current outage;
   `Leaving` is unwinding with a client held, `Cut` was cancelled while closing a lost one.
   */
  datatype Phase =
    | Idle(retries: nat)
    | Resolved(retries: nat)
    | Down(retries: nat)
    | Connected(client: nat)
    | Attached(client: nat)
    | Pinging(client: nat)
    | Failing(client: nat)
    | Lost(client: nat)
    | Leaving(client: nat)
    | Cut(client: nat)
    | Gone
    | Bad

  datatype State = State(phase: Phase, running: bool)

  function Min(a: real, b: real): real {
    if a <= b then a else b
  }

  /** The k-th retry delay of an outage. */
  function Backoff(s: Settings, k: nat): real {
    if k == 0 then s.poll else Min(Backoff(s, k - 1) * 2.0, s.cap)
  }

  /** How many clients have connected. */
  function Dials(t: Trace): nat {
    if t == [] then 0
    else Dials(t[..|t| - 1]) + if t[|t| - 1].call.Dial? && t[|t| - 1].outcome.Fine? then 1 else 0
  }

  function PhaseNext(s: Settings, now: State, dials: nat, call: Call, outcome: Outcome): Phase {
    match (now.phase, call)
    case (Idle(k), Resolve) =>
      if !now.running then Bad else if outcome.Fine? then Resolved(k) else if outcome.Raises? then Down(k) else Gone
    case (Resolved(k), Dial) =>
      if outcome.Fine? then Connected(dials) else if outcome.Raises? then Down(k) else Gone
    case (Down(k), Sleep(d)) =>
      if d != Backoff(s, k) then Bad else if outcome.Fine? then Idle(k + 1) else Gone
    case (Connected(c), Attach(d)) =>
      if c != d then Bad else if outcome.Cancelled? then Leaving(c) else Attached(c)
    case (Attached(c), Sleep(d)) =>
      if !now.running || d != s.ping then Bad else if outcome.Fine? then Pinging(c) else Leaving(c)
    case (Attached(c), Close(d)) => if now.running || c != d then Bad else Gone
    case (Pinging(c), Ping(d)) =>
      if c != d then Bad else if outcome.Fine? then Attached(c) else if outcome.Raises? then Failing(c) else Leaving(c)
    case (Failing(c), Close(d)) =>
      if c != d then Bad else if outcome.Cancelled? then Cut(c) else if s.hasDetach then Lost(c) else Idle(0)
    case (Lost(c), Detach(d)) => if c != d then Bad else if outcome.Cancelled? then Gone else Idle(0)
    case (Leaving(c), Close(d)) => if c != d then Bad else Gone
    case _ => Bad
  }

  function StateAfter(s: Settings, t: Trace): State {
    if t == [] then State(Idle(0), true)
    else
      var init, last := t[..|t| - 1], t[|t| - 1];
      var before := StateAfter(s, init);
      State(PhaseNext(s, before, Dials(init), last.call, last.outcome), before.running && !last.stop)
  }

  lemma Snoc(s: Settings, t: Trace, e: Awaited)
    ensures StateAfter(s, t + [e])
         == State(PhaseNext(s, StateAfter(s, t), Dials(t), e.call, e.outcome), StateAfter(s, t).running && !e.stop)
    ensures Dials(t + [e]) == Dials(t) + if e.call.Dial? && e.outcome.Fine? then 1 else 0
  {
    assert (t + [e])[..|t|] == t;
  }

  /** The automaton's flag: no `stop` so far. */
  lemma {:induction false} RunningIffNotStopped(s: Settings, t: Trace)
    ensures StateAfter(s, t).running <==> forall e <- t :: !e.stop
  {
    if t != [] {
      var init := t[..|t| - 1];
      RunningIffNotStopped(s, init);
      assert t == init + [t[|t| - 1]];
    }
  }

  // ---------------------------------------------------------------------------
  // Backoff
  // ---------------------------------------------------------------------------

  function Pow2(k: nat): real {
    if k == 0 then 1.0 else 2.0 * Pow2(k - 1)
  }

  function Doubled(x: real, k: nat): real {
    if k == 0 then x else Doubled(x, k - 1) * 2.0
  }

  lemma {:induction false} DoubledIsProduct(x: real, k: nat)
    ensures Doubled(x, k) == x * Pow2(k)
  {
    if k > 0 {
      DoubledIsProduct(x, k - 1);
      assert x * Pow2(k) == x * (2.0 * Pow2(k - 1));
    }
  }

  lemma {:induction false} BackoffDoubles(s: Settings, k: nat)
    requires s.poll >= 0.0 && s.cap >= 0.0 && k > 0
    ensures Backoff(s, k) == Min(Doubled(s.poll, k), s.cap)
  {
    if k > 1 {
      BackoffDoubles(s, k - 1);
    } else {
      assert Backoff(s, k - 1) == Doubled(s.poll, k - 1) == s.poll;
    }
  }

  /** The k-th delay is poll * 2^k capped, except that the first delay is never capped. */
  lemma BackoffClosedForm(s: Settings, k: nat)
    requires s.poll >= 0.0 && s.cap >= 0.0
    ensures Backoff(s, k) == Min(s.poll * Pow2(k), s.cap) <==> k > 0 || s.poll <= s.cap
  {
    DoubledIsProduct(s.poll, k);
    if k > 0 { BackoffDoubles(s, k); }
  }

  // ---------------------------------------------------------------------------
  // What an accepted trace satisfies
  // ---------------------------------------------------------------------------

  function Count(t: Trace, call: Call): nat {
    if t == [] then 0 else Count(t[..|t| - 1], call) + if t[|t| - 1].call == call then 1 else 0
  }

  /** How often a ping of this client failed. */
  function Failures(t: Trace, c: nat): nat {
    if t == [] then 0
    else Failures(t[..|t| - 1], c) + if t[|t| - 1].call == Ping(c) && t[|t| - 1].outcome.Raises? then 1 else 0
  }

  /** The clients connected and not yet closed. */
  function Open(t: Trace): set<nat> {
    if t == [] then {}
    else
      var init, last := t[..|t| - 1], t[|t| - 1];
      match last.call
      case Dial => if last.outcome.Fine? then Open(init) + {Dials(init)} else Open(init)
      case Close(c) => Open(init) - {c}
      case _ => Open(init)
  }

  predicate Accepted(s: Settings, t: Trace) {
    StateAfter(s, t).phase != Bad
  }

  /** A run may end here: stopped while no client is held, or unwound. */
  predicate Over(state: State) {
    state.phase.Gone? || state.phase.Cut? || (state.phase.Idle? && !state.running)
  }

  function One(b: bool): nat {
    if b then 1 else 0
  }

  predicate Holds(p: Phase, c: nat) {
    p == Connected(c) || p == Attached(c) || p == Pinging(c) || p == Failing(c) || p == Leaving(c)
  }

  /** A detach of this client is due, or was cut off by a cancellation. */
  predicate Owed(p: Phase, c: nat) {
    p == Failing(c) || p == Lost(c) || p == Cut(c)
  }

  /** The count of everything awaited for one client, from where the trace stands. */
  ghost predicate Ledger(s: Settings, t: Trace, c: nat) {
    var p := StateAfter(s, t).phase;
    && Count(t, Attach(c)) + One(p == Connected(c)) == One(c < Dials(t))
    && Count(t, Close(c)) + One(Holds(p, c)) == One(c < Dials(t))
    && Count(t, Detach(c)) + One(s.hasDetach && Owed(p, c)) == (if s.hasDetach then Failures(t, c) else 0)
    && Failures(t, c) <= Count(t, Close(c)) + One(p == Failing(c))
    && (Holds(p, c) || Owed(p, c) ==> c < Dials(t))
  }

  lemma LedgerStep(s: Settings, t: Trace, c: nat)
    requires t != [] && Accepted(s, t) && Ledger(s, t[..|t| - 1], c)
    ensures Ledger(s, t, c)
  {
  }

  lemma {:induction false} LedgerBalances(s: Settings, t: Trace, c: nat)
    requires Accepted(s, t)
    ensures Ledger(s, t, c)
  {
    if t != [] {
      LedgerBalances(s, t[..|t| - 1], c);
      LedgerStep(s, t, c);
    }
  }

  /**
   Once a run is over every connected client has had one on_attach and one close, and an
   on_detach exactly when a ping of it failed, save for one cut off by a cancellation.
   */
  lemma EveryClientAccountedFor(s: Settings, t: Trace, c: nat)
    requires Accepted(s, t) && Over(StateAfter(s, t))
    ensures Count(t, Attach(c)) == One(c < Dials(t)) && Count(t, Close(c)) == One(c < Dials(t))
    ensures Failures(t, c) <= 1
    ensures Count(t, Detach(c)) == if s.hasDetach && StateAfter(s, t).phase != Cut(c) then Failures(t, c) else 0
  {
    LedgerBalances(s, t, c);
  }

  /** Only a cancellation while a client is being closed cuts a detach off. */
  lemma CutOnlyInClose(s: Settings, t: Trace)
    requires forall e <- t :: e.outcome.Cancelled? ==> !e.call.Close?
    ensures !StateAfter(s, t).phase.Cut?
  {
    if t != [] { assert t[|t| - 1] in t; }
  }

  lemma {:induction false} PrefixAccepted(s: Settings, t: Trace, n: nat)
    requires Accepted(s, t) && n <= |t|
    ensures Accepted(s, t[..n])
  {
    if n < |t| {
      PrefixAccepted(s, t[..|t| - 1], n);
      assert t[..|t| - 1][..n] == t[..n];
    } else {
      assert t[..n] == t;
    }
  }

  /** The phase at every position, from the one before it. */
  lemma PhaseAt(s: Settings, t: Trace, i: nat)
    requires Accepted(s, t) && i < |t|
    ensures var p := PhaseNext(s, StateAfter(s, t[..i]), Dials(t[..i]), t[i].call, t[i].outcome);
            StateAfter(s, t[..i + 1]).phase == p && p != Bad
  {
    PrefixAccepted(s, t, i + 1);
    assert t[..i + 1][..i] == t[..i];
  }

  lemma {:induction false} OpenIsHeld(s: Settings, t: Trace)
    requires Accepted(s, t)
    ensures var p := StateAfter(s, t).phase;
            Open(t) == if p.Connected? || p.Attached? || p.Pinging? || p.Failing? || p.Leaving? then {p.client} else {}
  {
    if t != [] { OpenIsHeld(s, t[..|t| - 1]); }
  }

  /** At every moment at most one client is open, and none when the run is over. */
  lemma AtMostOneOpen(s: Settings, t: Trace, n: nat)
    requires Accepted(s, t) && n <= |t|
    ensures |Open(t[..n])| <= 1
    ensures Over(StateAfter(s, t)) ==> Open(t) == {}
  {
    PrefixAccepted(s, t, n);
    OpenIsHeld(s, t[..n]);
    OpenIsHeld(s, t);
  }

  lemma FailingAfterPing(s: Settings, t: Trace, i: nat, c: nat)
    requires Accepted(s, t) && i <= |t| && StateAfter(s, t[..i]).phase == Failing(c)
    ensures i >= 1 && t[i - 1].call == Ping(c) && t[i - 1].outcome.Raises?
  {
    if i > 0 { PhaseAt(s, t, i - 1); }
  }

  lemma LostAfterClose(s: Settings, t: Trace, i: nat, c: nat)
    requires Accepted(s, t) && i <= |t| && StateAfter(s, t[..i]).phase == Lost(c)
    ensures i >= 1 && t[i - 1].call == Close(c) && StateAfter(s, t[..i - 1]).phase == Failing(c)
  {
    if i > 0 { PhaseAt(s, t, i - 1); }
  }

  /** A detach is announced right after the close of a client whose ping had just failed. */
  lemma DetachFollowsLoss(s: Settings, t: Trace, i: nat)
    requires Accepted(s, t) && i < |t| && t[i].call.Detach?
    ensures i >= 2 && t[i - 1].call == Close(t[i].call.client)
            && t[i - 2].call == Ping(t[i].call.client) && t[i - 2].outcome.Raises?
  {
    PhaseAt(s, t, i);
    LostAfterClose(s, t, i, t[i].call.client);
    FailingAfterPing(s, t, i - 1, t[i].call.client);
  }

  /** How many sleeps the outage that reaches up to position i has seen. */
  function Retries(t: Trace, i: nat): nat
    requires i <= |t|
  {
    if i == 0 then 0
    else match t[i - 1].call
      case Resolve => Retries(t, i - 1)
      case Dial => Retries(t, i - 1)
      case Sleep(_) => 1 + Retries(t, i - 1)
      case _ => 0
  }

  /** Every sleep is a ping interval, or the backoff of its place in an outage after a failed attempt. */
  lemma SleepLengths(s: Settings, t: Trace, i: nat)
    requires Accepted(s, t) && i < |t| && t[i].call.Sleep?
    ensures var failed := i > 0 && (t[i - 1].call.Resolve? || t[i - 1].call.Dial?);
            && (failed ==> t[i - 1].outcome.Raises?)
            && t[i].call.seconds == if failed then Backoff(s, Retries(t, i)) else s.ping
  {
    PhaseAt(s, t, i);
    OutageCounts(s, t, i);
    if i > 0 { PhaseAt(s, t, i - 1); }
  }

  lemma {:induction false} OutageCounts(s: Settings, t: Trace, i: nat)
    requires Accepted(s, t) && i <= |t|
    ensures var p := StateAfter(s, t[..i]).phase;
            p.Idle? || p.Resolved? || p.Down? ==> p.retries == Retries(t, i)
  {
    if i > 0 {
      PhaseAt(s, t, i - 1);
      OutageCounts(s, t, i - 1);
    }
  }

  // ---------------------------------------------------------------------------
  // Stopping
  // ---------------------------------------------------------------------------

  /** How many awaits can follow from a phase once `stop` was called. */
  function AwaitsLeft(p: Phase): nat {
    match p
    case Resolved(_) => 3
    case Pinging(_) => 3
    case Connected(_) => 2
    case Failing(_) => 2
    case Down(_) => 1
    case Attached(_) => 1
    case Lost(_) => 1
    case Leaving(_) => 1
    case _ => 0
  }

  lemma {:induction false} StoppedStays(s: Settings, t: Trace, n: nat)
    requires Accepted(s, t) && n <= |t| && !StateAfter(s, t[..n]).running
    ensures !StateAfter(s, t).running
    ensures |t| - n + AwaitsLeft(StateAfter(s, t).phase) <= AwaitsLeft(StateAfter(s, t[..n]).phase)
  {
    if n < |t| {
      assert t[..|t| - 1][..n] == t[..n];
      StoppedStays(s, t[..|t| - 1], n);
    } else {
      assert t[..n] == t;
    }
  }

  /** `stop` is obeyed soon: at most three awaits follow the one during which it was called. */
  lemma StopsWithinThreeAwaits(s: Settings, t: Trace, i: nat)
    requires Accepted(s, t) && i < |t| && t[i].stop
    ensures |t| <= i + 4
  {
    RunningIffNotStopped(s, t[..i + 1]);
    assert t[..i + 1][i] == t[i];
    StoppedStays(s, t, i + 1);
  }

  /** What can end a run: `stop`, a cancellation, or a sleep that raises. */
  predicate Ends(e: Awaited) {
    e.stop || e.outcome.Cancelled? || (e.call.Sleep? && e.outcome.Raises?)
  }

  lemma {:induction false} NothingEnded(s: Settings, t: Trace)
    requires Accepted(s, t) && forall e <- t :: !Ends(e)
    ensures !Over(StateAfter(s, t)) && !StateAfter(s, t).phase.Leaving?
  {
    if t != [] {
      var init, last := t[..|t| - 1], t[|t| - 1];
      assert last in t && forall e <- init :: e in t;
      NothingEnded(s, init);
      RunningIffNotStopped(s, init);
      RunningIffNotStopped(s, t);
    }
  }

  /**
   A run is over only by a stop, a cancellation or a sleep that raises: no browser that is down,
   no failed ping, and no consumer that raises from on_attach or on_detach ends it.
   */
  lemma OverOnlyIfEnded(s: Settings, t: Trace)
    requires Accepted(s, t) && Over(StateAfter(s, t))
    ensures exists e <- t :: Ends(e)
  {
    if forall e <- t :: !Ends(e) { NothingEnded(s, t); }
  }
}
