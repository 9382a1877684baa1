/**
 The supervisor (`ChromiumSupervisor`, src/nidaro/chromium/supervisor.py) against an adversary
 that decides how every await ends and during which `stop` is called: each run is a trace the
 automaton of `SupervisorTrace` accepts.
 */
module ChromiumSupervisor {
  import opened Wrappers
  import opened SupervisorTrace

  /** How an await is to end. An adversary with nothing more to say cancels. */
  datatype Choice = Choice(outcome: Outcome, stop: bool)

  function ChoiceAt(script: seq<Choice>, i: nat): Choice {
    if i < |script| then script[i] else Choice(Cancelled, false)
  }

  /** The awaits ended as the adversary chose, one choice after another. */
  ghost predicate Follows(t: Trace, script: seq<Choice>) {
    forall i | 0 <= i < |t| :: Choice(t[i].outcome, t[i].stop) == ChoiceAt(script, i)
  }

  class ChromiumSupervisor {
    const settings: Settings
    const script: seq<Choice>
    var running: bool
    var client: Option<nat>
    var trace: Trace
    var dials: nat
    ghost var state: State

    constructor (settings: Settings, script: seq<Choice>)
      ensures this.settings == settings && this.script == script && client == None && trace == []
    {
      this.settings, this.script := settings, script;
      running, client, trace, dials := false, None, [], 0;
      state := State(Idle(0), true);
    }

    /** The trace so far is accepted, as the adversary chose, and the client counter is right. */
    ghost predicate Sound() reads this {
      Follows(trace, script) && dials == Dials(trace) && state == StateAfter(settings, trace) && state.phase != Bad
    }

    /** Besides, the flag says whether `stop` was called. */
    ghost predicate Valid() reads this {
      Sound() && running == state.running
    }

    /** Await one call; `stop` may be called meanwhile. */
    method Await(call: Call) returns (o: Outcome)
      requires Sound()
      requires PhaseNext(settings, state, dials, call, ChoiceAt(script, |trace|).outcome) != Bad
      modifies this`trace, this`running, this`dials, this`state
      ensures Sound() && |trace| == |old(trace)| + 1
      ensures state.phase == PhaseNext(settings, old(state), old(dials), call, o)
      ensures old(running == state.running) ==> running == state.running
      ensures dials == old(dials) + if call.Dial? && o.Fine? then 1 else 0
      ensures !o.Cancelled? ==> |trace| <= |script|
      ensures !old(running) ==> !running
    {
      var choice := ChoiceAt(script, |trace|);
      var e := Awaited(call, choice.outcome, choice.stop);
      Snoc(settings, trace, e);
      state := State(PhaseNext(settings, state, dials, call, choice.outcome), state.running && !e.stop);
      trace := trace + [e];
      if choice.stop { running := false; }
      if call.Dial? && choice.outcome.Fine? { dials := dials + 1; }
      o := choice.outcome;
    }

    /**
     `run`: attach, watch and reattach until stopped or until something raises, then close
     what is held. Every run is an accepted trace that may end where it does.
     */
    method Run()
      requires client == None && trace == [] && dials == 0
      modifies this
      ensures Follows(trace, script) && Accepted(settings, trace) && Over(StateAfter(settings, trace))
      ensures dials == Dials(trace) && client == None && !running
    {
      running, state := true, State(Idle(0), true);
      Supervise();
      running := false;
      if client.Some? {
        var c := client.value;
        client := None;
        var _ := Await(Close(c));
      }
    }

    method Supervise()
      requires Valid() && client == None && state == State(Idle(0), true)
      modifies this
      ensures Sound() && (MustClose() || (client == None && Over(state)))
    {
      while running
        invariant Valid() && client == None && state.phase.Idle? && (running ==> state.phase == Idle(0))
        decreases |script| - |trace|
      {
        var threw, attached := AttachNext(settings.poll);
        if threw || attached.None? { return; }
        threw := Watch(attached.value);
        if threw || client.Some? { return; }
      }
    }

    /** A client is held and the run must close it. */
    ghost predicate MustClose() reads this {
      client.Some? && (state.phase == Leaving(client.value)
                       || (state.phase == Attached(client.value) && !state.running))
    }

    /** `_attach`: retry with capped backoff until a client connects or `stop` lands. */
    method AttachNext(first: real) returns (threw: bool, attached: Option<nat>)
      requires Valid() && state.phase == Idle(0) && client == None && first == settings.poll
      modifies this
      ensures Sound() && (threw ==> MustClose() || (client == None && state.phase == Gone))
      ensures !threw ==> Valid() && client == attached
      ensures !threw ==>
                if attached.Some? then state.phase == Attached(attached.value) && |old(trace)| < |trace| <= |script|
                else state.phase.Idle? && !running
    {
      var backoff := first;
      ghost var k := 0;
      while running
        invariant Valid() && state.phase == Idle(k) && client == None
        invariant backoff == Backoff(settings, k) && |trace| >= |old(trace)|
        decreases |script| - |trace|
      {
        var failed, connected := Attempt(k, backoff);
        if failed { return true, None; }
        if !connected {
          backoff := Min(backoff * 2.0, settings.cap);
          k := k + 1;
          continue;
        }
        threw := Hand(dials - 1);
        attached := if threw then None else client;
        return;
      }
      threw, attached := false, None;
    }

    /** Hold a new client and give it to the consumer, whose failure is not ours. */
    method Hand(c: nat) returns (threw: bool)
      requires Valid() && state.phase == Connected(c)
      modifies this
      ensures Valid() && client == Some(c) && |trace| > |old(trace)|
      ensures if threw then state.phase == Leaving(c) else state.phase == Attached(c) && |trace| <= |script|
    {
      client := Some(c);
      var o := Await(Attach(c));
      threw := o.Cancelled?;
    }

    /** Try to connect once, and sleep out the retry delay when that fails. */
    method Attempt(ghost k: nat, backoff: real) returns (threw: bool, connected: bool)
      requires Valid() && state.phase == Idle(k) && running && backoff == Backoff(settings, k)
      modifies this`trace, this`running, this`dials, this`state
      ensures Valid() && |trace| > |old(trace)| && (threw ==> state.phase == Gone)
      ensures !threw && connected ==> |trace| <= |script| && dials > 0 && state.phase == Connected(dials - 1)
      ensures !threw && !connected ==> |trace| <= |script| && state.phase == Idle(k + 1)
    {
      var o := TryConnect(k);
      if o.Cancelled? { return true, false; }
      if o.Fine? { return false, true; }
      threw := Pause(k, backoff);
      connected := false;
    }

    /** Sleep out one retry delay. */
    method Pause(ghost k: nat, backoff: real) returns (threw: bool)
      requires Valid() && state.phase == Down(k) && backoff == Backoff(settings, k)
      modifies this`trace, this`running, this`dials, this`state
      ensures Valid() && |trace| > |old(trace)|
      ensures if threw then state.phase == Gone else state.phase == Idle(k + 1) && |trace| <= |script|
    {
      var o := Await(Sleep(backoff));
      threw := !o.Fine?;
    }

    /** Resolve the browser's address and connect to it. */
    method TryConnect(ghost k: nat) returns (o: Outcome)
      requires Valid() && state.phase == Idle(k) && running
      modifies this`trace, this`running, this`dials, this`state
      ensures Valid() && |trace| > |old(trace)| && (!o.Cancelled? ==> |trace| <= |script|)
      ensures match o
              case Fine => dials > 0 && state.phase == Connected(dials - 1)
              case Raises => state.phase == Down(k)
              case Cancelled => state.phase == Gone
    {
      o := Await(Resolve);
      if o.Fine? { o := Await(Dial); }
    }

    /** `_watch`: ping until one fails or `stop` lands. */
    method Watch(c: nat) returns (threw: bool)
      requires Valid() && client == Some(c) && state.phase == Attached(c)
      modifies this
      ensures Sound() && |trace| >= |old(trace)|
      ensures !threw ==> Valid() && (MustClose() || (client == None && state.phase == Idle(0) && |trace| <= |script|))
      ensures threw ==> MustClose() || (client == None && (state.phase == Gone || state.phase == Cut(c)))
    {
      while running
        invariant Valid() && client == Some(c) && state.phase == Attached(c) && |trace| >= |old(trace)|
        decreases |script| - |trace|
      {
        var slept := Await(Sleep(settings.ping));
        if !slept.Fine? { return true; }
        var o := Await(Ping(c));
        if o.Cancelled? { return true; }
        if o.Raises? {
          threw := Lose(c);
          return;
        }
      }
      threw := false;
    }

    /** `_lose`: let go of a dead client, close it, and announce the loss. */
    method Lose(c: nat) returns (threw: bool)
      requires Valid() && client == Some(c) && state.phase == Failing(c)
      modifies this
      ensures Sound() && |trace| >= |old(trace)| && client == None
      ensures !threw ==> Valid() && state.phase == Idle(0) && |trace| <= |script|
      ensures threw ==> state.phase == Gone || state.phase == Cut(c)
    {
      client := None;
      var o := Await(Close(c));
      if o.Cancelled? { return true; }
      if settings.hasDetach {
        o := Await(Detach(c));
        if o.Cancelled? { return true; }
      }
      threw := false;
    }
  }
}
