/**
 Whole histories of the iCloud connector: server edits and sync runs in any interleaving,
 runs that lose their token, degrade to listings, are refused or fail. The batch of every
 completed run is applied before the next one starts.
 */
module IcloudRuns {
  import opened Wrappers
  import opened ConnectorModels
  import opened MirrorFold
  import opened CursorRules
  import opened IcloudServer
  import opened IcloudSync
  import opened IcloudBatch
  import opened IcloudConvergence

  datatype World = World(
    hist: History,
    cursor: Option<State>,
    mirrors: Mirrors,
    dropped: set<string>,
    stranded: set<string>,
    asOf: map<Url, nat>
  )

  /** The server is edited, or one run polls it while `during` happens on the server. */
  datatype WorldStep = Edited(edit: Edit) | Polled(visits: seq<Visit>, during: History)

  function StateOf(cursor: Option<State>): State {
    if cursor.Some? then cursor.value else map[]
  }

  function ReplicaOf(w: World): Replica {
    Replica(StateOf(w.cursor), w.mirrors, w.dropped, w.stranded, w.asOf)
  }

  function Exchanges(visits: seq<Visit>): seq<Exchange> {
    seq(|visits|, i requires 0 <= i < |visits| => visits[i].ex)
  }

  predicate Completes(visits: seq<Visit>) {
    forall v <- visits :: Answered(v.ex)
  }

  /** The visits of a run that completes, one after another. */
  ghost function Replay(r: Replica, visits: seq<Visit>, home: string -> Place): Replica {
    if visits == [] then r
    else After(Replay(r, visits[..|visits| - 1], home), visits[|visits| - 1], home)
  }

  ghost predicate HonestVisits(hist: History, r: Replica, visits: seq<Visit>, home: string -> Place) {
    visits != [] ==>
      && HonestVisits(hist, r, visits[..|visits| - 1], home)
      && Honest(hist, Replay(r, visits[..|visits| - 1], home).state, visits[|visits| - 1])
  }

  function RunOutcome(w: World, visits: seq<Visit>): Outcome<State, ExternalRecord> {
    OutcomeOf(RunOver(StateOf(w.cursor), Exchanges(visits)))
  }

  ghost function Next(w: World, step: WorldStep, home: string -> Place): World {
    match step
    case Edited(edit) => w.(hist := w.hist + [edit])
    case Polled(visits, during) =>
      var outcome := RunOutcome(w, visits);
      var r := Replay(ReplicaOf(w), visits, home);
      var polled := w.(hist := w.hist + during,
                       cursor := CursorAfter(w.cursor, outcome),
                       mirrors := Land(w.mirrors, Delivered(outcome)));
      if outcome.Success? then polled.(dropped := r.dropped, stranded := r.stranded, asOf := r.asOf)
      else if outcome.error == StaleCursor then polled.(asOf := map[])
      else polled
  }

  ghost predicate ValidStep(w: World, step: WorldStep, home: string -> Place) {
    && AtHome(Next(w, step, home).hist, home)
    && (step.Polled? && Completes(step.visits) ==>
          HonestVisits(w.hist + step.during, ReplicaOf(w), step.visits, home))
  }

  ghost function RunWorld(w: World, steps: seq<WorldStep>, home: string -> Place): World {
    if steps == [] then w else Next(RunWorld(w, steps[..|steps| - 1], home), steps[|steps| - 1], home)
  }

  ghost predicate ValidRun(w: World, steps: seq<WorldStep>, home: string -> Place) {
    steps != [] ==>
      && ValidRun(w, steps[..|steps| - 1], home)
      && ValidStep(RunWorld(w, steps[..|steps| - 1], home), steps[|steps| - 1], home)
  }

  function Start(mirrors: Mirrors): World {
    World([], None, mirrors, {}, {}, map[])
  }

  ghost predicate WorldInv(w: World, home: string -> Place) {
    Inv(w.hist, ReplicaOf(w), home)
  }

  // ---------------------------------------------------------------------------
  // The run as the connector computes it is the visits one after another
  // ---------------------------------------------------------------------------

  /** The visits before the last one, and the last one. */
  lemma VisitsSnoc(hist: History, r: Replica, visits: seq<Visit>, home: string -> Place)
    requires visits != [] && Completes(visits) && HonestVisits(hist, r, visits, home)
    ensures var init, v := visits[..|visits| - 1], visits[|visits| - 1];
            && Completes(init) && HonestVisits(hist, r, init, home)
            && Answered(v.ex) && Honest(hist, Replay(r, init, home).state, v)
            && Replay(r, visits, home) == After(Replay(r, init, home), v, home)
  {
    assert forall u <- visits[..|visits| - 1] :: u in visits;
    assert visits[|visits| - 1] in visits;
  }

  lemma {:induction false} ReplayKeepsInv(hist: History, r: Replica, visits: seq<Visit>, home: string -> Place)
    requires Inv(hist, r, home) && Completes(visits) && HonestVisits(hist, r, visits, home)
    ensures Inv(hist, Replay(r, visits, home), home)
  {
    if visits != [] {
      var init, v := visits[..|visits| - 1], visits[|visits| - 1];
      VisitsSnoc(hist, r, visits, home);
      ReplayKeepsInv(hist, r, init, home);
      VisitKeepsInv(hist, Replay(r, init, home), v, home);
    }
  }

  lemma RunOverVisits(state: State, visits: seq<Visit>)
    requires visits != []
    ensures RunOver(state, Exchanges(visits))
         == RunStep(RunOver(state, Exchanges(visits[..|visits| - 1])), visits[|visits| - 1].ex)
  {
    ExchangesSnoc(visits);
  }

  lemma ExchangesSnoc(visits: seq<Visit>)
    requires visits != []
    ensures var exchanges := Exchanges(visits);
            && |exchanges| == |visits| && exchanges[|visits| - 1] == visits[|visits| - 1].ex
            && exchanges[..|exchanges| - 1] == Exchanges(visits[..|visits| - 1])
  {
  }

  /** A run that has not raised has the replica's state, and landing its batch gives its mirrors. */
  ghost predicate Mimics(m: Mirrors, run: Run, r: Replica) {
    && run.Running? && run.state == r.state
    && WellFormed(run.records) && Land(m, run.records) == r.mirrors
  }

  lemma {:induction false} ReplayIsRun(hist: History, r: Replica, visits: seq<Visit>, home: string -> Place)
    requires Inv(hist, r, home) && Completes(visits) && HonestVisits(hist, r, visits, home)
    ensures Mimics(r.mirrors, RunOver(r.state, Exchanges(visits)), Replay(r, visits, home))
  {
    if visits != [] {
      var init, v := visits[..|visits| - 1], visits[|visits| - 1];
      VisitsSnoc(hist, r, visits, home);
      ReplayIsRun(hist, r, init, home);
      ReplayKeepsInv(hist, r, init, home);
      RunOverVisits(r.state, visits);
      TurnWellFormed(hist, Replay(r, init, home), v, home);
      RunExtends(r.mirrors, Replay(r, init, home), RunOver(r.state, Exchanges(init)), v, home);
    }
  }

  /** The records of one honest visit validate. */
  lemma TurnWellFormed(hist: History, r: Replica, v: Visit, home: string -> Place)
    requires Inv(hist, r, home) && Answered(v.ex) && Honest(hist, r.state, v)
    ensures WellFormed(Turn(r.state, v.ex).records)
  {
    AfterLookup(hist, r, v, home, "");
    TurnDecides(r.state, v.ex, home, LiveAt(hist, v.fetch), "");
  }

  /** One more visit extends the run and its landing alike. */
  lemma RunExtends(m: Mirrors, before: Replica, run: Run, v: Visit, home: string -> Place)
    requires Answered(v.ex) && WellFormed(Turn(before.state, v.ex).records) && Mimics(m, run, before)
    ensures Mimics(m, RunStep(run, v.ex), After(before, v, home))
  {
    LandAppends(m, run.records, Turn(before.state, v.ex).records);
  }

  lemma NoneMirrored(mirrors: Mirrors)
    requires MirroredIdentities(mirrors) == {}
    ensures forall x {:trigger Id(x)} :: Id(x) !in mirrors
  {
    forall x {:trigger Id(x)} ensures Id(x) !in mirrors {
      assert Id(x) in mirrors ==> Id(x).externalId in MirroredIdentities(mirrors);
    }
  }

  lemma CompletesSnoc(visits: seq<Visit>)
    requires visits != []
    ensures Completes(visits) <==> Completes(visits[..|visits| - 1]) && Answered(visits[|visits| - 1].ex)
  {
    assert visits == visits[..|visits| - 1] + [visits[|visits| - 1]];
  }

  lemma {:induction false} RaisedIffUnanswered(state: State, visits: seq<Visit>)
    ensures RunOver(state, Exchanges(visits)).Raised? <==> !Completes(visits)
  {
    if visits != [] {
      RaisedIffUnanswered(state, visits[..|visits| - 1]);
      RunOverVisits(state, visits);
      CompletesSnoc(visits);
    }
  }

  lemma StepKeepsInv(w: World, step: WorldStep, home: string -> Place)
    requires WorldInv(w, home) && ValidStep(w, step, home)
    ensures WorldInv(Next(w, step, home), home)
  {
    var later := if step.Edited? then [step.edit] else step.during;
    EditsKeepInv(w.hist, later, ReplicaOf(w), home);
    if step.Polled? {
      RaisedIffUnanswered(StateOf(w.cursor), step.visits);
      if Completes(step.visits) {
        ReplayKeepsInv(w.hist + later, ReplicaOf(w), step.visits, home);
        ReplayIsRun(w.hist + later, ReplicaOf(w), step.visits, home);
      } else if RunOutcome(w, step.visits).error == StaleCursor {
        RefusalKeepsInv(w.hist + later, ReplicaOf(w), home);
      }
    }
  }

  /** A refused run forgets tokens and memory; the excused stay mirrored. */
  lemma RefusalKeepsInv(hist: History, r: Replica, home: string -> Place)
    requires Inv(hist, r, home)
    ensures Inv(hist, r.(state := map[], asOf := map[]), home)
  {
    forall x {:trigger home(x)} ensures Tracks(hist, r.(state := map[], asOf := map[]), home(x), x) {
      assert Tracks(hist, r, home(x), x);
    }
  }

  lemma {:induction false} RunKeepsInv(w: World, steps: seq<WorldStep>, home: string -> Place)
    requires WorldInv(w, home) && ValidRun(w, steps, home)
    ensures WorldInv(RunWorld(w, steps, home), home)
  {
    if steps != [] {
      RunKeepsInv(w, steps[..|steps| - 1], home);
      StepKeepsInv(RunWorld(w, steps[..|steps| - 1], home), steps[|steps| - 1], home);
    }
  }

  /**
   What a poll that stops early leaves: no record is landed; a refusal of the credentials
   clears the cursor, and a calendar that breaks off leaves it as it was.
   */
  lemma StoppedPollLeaves(w: World, visits: seq<Visit>, during: History, home: string -> Place, k: nat)
    requires k < |visits| && AnsweredUpTo(Exchanges(visits), k)
    ensures var after := Next(w, Polled(visits, during), home);
            && after.mirrors == w.mirrors && after.hist == w.hist + during
            && (visits[k].ex.Unauthorized? ==> after.cursor == None)
            && (visits[k].ex.Broken? ==> after.cursor == w.cursor)
            && (visits[k].ex.Unauthorized? || visits[k].ex.Broken?)
  {
    FirstUnansweredDecides(StateOf(w.cursor), Exchanges(visits), k);
  }

  // ---------------------------------------------------------------------------
  // Main results
  // ---------------------------------------------------------------------------

  /** The calendar's last visit saw the server as it now is. */
  predicate UpToDate(w: World, url: Url) {
    url in w.asOf && w.asOf[url] == |w.hist|
  }

  ghost function OnServer(w: World, place: Place, x: string): Option<EventFields> {
    Shown(LiveAt(w.hist, |w.hist|), place, x)
  }

  /**
   Every event a member sees on an up-to-date calendar is mirrored with its current content,
   and a mirror without such an event is exactly an excused one.
   */
  ghost predicate ShowsServer(w: World, place: Place, x: string) {
    UpToDate(w, place.url) ==>
      && (OnServer(w, place, x).Some? ==> Lookup(w.mirrors, Id(x)) == OnServer(w, place, x))
      && (Lookup(w.mirrors, Id(x)).Some? && OnServer(w, place, x).None? <==> x in w.dropped + w.stranded)
  }

  /** From any state the invariant holds in. */
  lemma ShowsServerFrom(start: World, steps: seq<WorldStep>, home: string -> Place, x: string)
    requires WorldInv(start, home) && ValidRun(start, steps, home)
    ensures ShowsServer(RunWorld(start, steps, home), home(x), x)
  {
    var w := RunWorld(start, steps, home);
    RunKeepsInv(start, steps, home);
    if UpToDate(w, home(x).url) {
      assert Tracks(w.hist, ReplicaOf(w), home(x), x);
      assert Settled(w.hist, |w.hist|, home(x));
      assert Id(x) in w.mirrors <==> Lookup(w.mirrors, Id(x)).Some?;
      var live := LiveAt(w.hist, |w.hist|);
      if home(x) in live { SaysIffMentioned(live[home(x)], x); }
    }
  }

  /**
   Completeness under token loss: whatever mix of incremental replies, full listings,
   fallbacks, refusals, failures and edits during polls came before, the mirrors of an
   up-to-date calendar show the server, save for the excused.
   */
  lemma MirrorsComplete(mirrors: Mirrors, steps: seq<WorldStep>, home: string -> Place, x: string)
    requires ValidRun(Start(mirrors), steps, home)
    ensures ShowsServer(RunWorld(Start(mirrors), steps, home), home(x), x)
  {
    ShowsServerFrom(Start(mirrors), steps, home, x);
  }

  /** Nothing excused, and every mirror belongs to a calendar whose token is held. */
  ghost predicate Clean(r: Replica, home: string -> Place) {
    && Excused(r) == {}
    && forall x {:trigger home(x)} :: Id(x) in r.mirrors ==> TokenOf(r.state, home(x).url).Some?
  }

  /** The server honoured the token and gave a new one. */
  predicate Honoured(v: Visit) {
    v.ex.Reported? && v.ex.reply.syncToken.Some?
  }

  lemma CleanVisit(hist: History, r: Replica, v: Visit, home: string -> Place)
    requires Inv(hist, r, home) && Honest(hist, r.state, v) && Clean(r, home) && Honoured(v)
    ensures Excused(After(r, v, home)) == NewlyDropped(r, v.ex)
    ensures NewlyDropped(r, v.ex) == {} ==> Clean(After(r, v, home), home)
  {
    var r' := After(r, v, home);
    forall x ensures x in NewlyStranded(r, v.ex, home) ==> false {
      var _ := home(x);
    }
    assert r.dropped == {} && r.stranded == {};
    assert Excused(r') == NewlyDropped(r, v.ex);
    forall x {:trigger home(x)} | Id(x) in r'.mirrors ensures TokenOf(r'.state, home(x).url).Some? {
      AfterLookup(hist, r, v, home, x);
      assert Id(x) in r.mirrors <==> Lookup(r.mirrors, Id(x)).Some?;
      assert Id(x) in r'.mirrors <==> Lookup(r'.mirrors, Id(x)).Some?;
    }
  }

  /**
   The exact condition: a poll of an exact mirror, answered with an honoured token and not
   overtaken by edits, leaves its calendar exact if and only if no living href it fetched
   left out an identity it had mirrored.
   */
  lemma ExactIffNothingDropped(hist: History, r: Replica, v: Visit, home: string -> Place)
    requires Inv(hist, r, home) && Honest(hist, r.state, v) && Clean(r, home) && Honoured(v)
    requires v.report == |hist|
    ensures (forall x {:trigger home(x)} :: home(x).url == v.ex.url ==>
               Lookup(After(r, v, home).mirrors, Id(x)) == Shown(LiveAt(hist, |hist|), home(x), x))
       <==> NewlyDropped(r, v.ex) == {}
  {
    var r', live := After(r, v, home), LiveAt(hist, |hist|);
    CleanVisit(hist, r, v, home);
    VisitKeepsInv(hist, r, v, home);
    forall x {:trigger home(x)} | home(x).url == v.ex.url
      ensures x in NewlyDropped(r, v.ex) <==> Lookup(r'.mirrors, Id(x)) != Shown(live, home(x), x)
    {
      assert Tracks(hist, r', home(x), x);
      assert Settled(hist, |hist|, home(x));
      if home(x) in live { SaysIffMentioned(live[home(x)], x); }
    }
    if x :| x in NewlyDropped(r, v.ex) {
      var f :| f in Resources(v.ex) && Remembers(ItemsOf(r.state, v.ex.url), f.href, x);
      assert home(x).url == v.ex.url;
    }
  }

  /** Every visit honours its token and drops no identity it had mirrored. */
  ghost predicate FaithfulVisits(r: Replica, visits: seq<Visit>, home: string -> Place) {
    visits != [] ==>
      && FaithfulVisits(r, visits[..|visits| - 1], home)
      && Honoured(visits[|visits| - 1])
      && NewlyDropped(Replay(r, visits[..|visits| - 1], home), visits[|visits| - 1].ex) == {}
  }

  /** A run either makes only faithful visits or fails for a reason other than its credentials. */
  ghost predicate Faithful(w: World, step: WorldStep, home: string -> Place) {
    step.Polled? ==>
      if Completes(step.visits) then FaithfulVisits(ReplicaOf(w), step.visits, home)
      else RunOutcome(w, step.visits) == Failure(OtherFailure)
  }

  ghost predicate FaithfulRun(w: World, steps: seq<WorldStep>, home: string -> Place) {
    steps != [] ==>
      && FaithfulRun(w, steps[..|steps| - 1], home)
      && Faithful(RunWorld(w, steps[..|steps| - 1], home), steps[|steps| - 1], home)
  }

  lemma {:induction false} CleanReplay(hist: History, r: Replica, visits: seq<Visit>, home: string -> Place)
    requires Inv(hist, r, home) && Clean(r, home) && Completes(visits) && HonestVisits(hist, r, visits, home)
    requires FaithfulVisits(r, visits, home)
    ensures Clean(Replay(r, visits, home), home)
  {
    if visits != [] {
      var init, v := visits[..|visits| - 1], visits[|visits| - 1];
      VisitsSnoc(hist, r, visits, home);
      CleanReplay(hist, r, init, home);
      ReplayKeepsInv(hist, r, init, home);
      CleanVisit(hist, Replay(r, init, home), v, home);
    }
  }

  lemma CleanStep(w: World, step: WorldStep, home: string -> Place)
    requires WorldInv(w, home) && Clean(ReplicaOf(w), home)
    requires ValidStep(w, step, home) && Faithful(w, step, home)
    ensures Clean(ReplicaOf(Next(w, step, home)), home)
  {
    if step.Polled? {
      RaisedIffUnanswered(StateOf(w.cursor), step.visits);
      if Completes(step.visits) {
        EditsKeepInv(w.hist, step.during, ReplicaOf(w), home);
        CleanReplay(w.hist + step.during, ReplicaOf(w), step.visits, home);
        ReplayIsRun(w.hist + step.during, ReplicaOf(w), step.visits, home);
      }
    }
  }

  lemma {:induction false} FaithfulRunIsClean(w: World, steps: seq<WorldStep>, home: string -> Place)
    requires WorldInv(w, home) && Clean(ReplicaOf(w), home)
    requires ValidRun(w, steps, home) && FaithfulRun(w, steps, home)
    ensures Clean(ReplicaOf(RunWorld(w, steps, home)), home)
  {
    if steps != [] {
      var init := steps[..|steps| - 1];
      FaithfulRunIsClean(w, init, home);
      RunKeepsInv(w, init, home);
      CleanStep(RunWorld(w, init, home), steps[|steps| - 1], home);
    }
  }

  /** From any exact state. */
  lemma ConvergesFrom(start: World, steps: seq<WorldStep>, home: string -> Place, x: string)
    requires WorldInv(start, home) && Clean(ReplicaOf(start), home)
    requires ValidRun(start, steps, home) && FaithfulRun(start, steps, home)
    ensures var w := RunWorld(start, steps, home);
            UpToDate(w, home(x).url) ==> Lookup(w.mirrors, Id(x)) == OnServer(w, home(x), x)
  {
    FaithfulRunIsClean(start, steps, home);
    ShowsServerFrom(start, steps, home, x);
  }

  /**
   Convergence: over every history of edits and polls in which tokens are honoured and no
   fetched href drops an identity it had mirrored, an up-to-date calendar's mirrors are
   exactly the server's non-cancelled events with current content.
   */
  lemma MirrorsConverge(mirrors: Mirrors, steps: seq<WorldStep>, home: string -> Place, x: string)
    requires ValidRun(Start(mirrors), steps, home) && FaithfulRun(Start(mirrors), steps, home)
    requires MirroredIdentities(mirrors) == {}
    ensures var w := RunWorld(Start(mirrors), steps, home);
            UpToDate(w, home(x).url) ==> Lookup(w.mirrors, Id(x)) == OnServer(w, home(x), x)
  {
    NoneMirrored(mirrors);
    ConvergesFrom(Start(mirrors), steps, home, x);
  }

  // ---------------------------------------------------------------------------
  // An event that changes calendars
  // ---------------------------------------------------------------------------

  /** The memory before an event moves from calendar b to calendar a. */
  function BeforeMove(a: Url, b: Url, from: Href, x: string, t: nat): State {
    map[a := Entry(Some(t), map[]), b := Entry(Some(t), map[from := [x]])]
  }

  function Arrives(a: Url, to: Href, event: IcsEvent, t: nat): Exchange {
    Reported(a, ParsedReply([(to, Some("etag"))], [], Some(t)), [FetchedIcs(to, [event])])
  }

  function Leaves(b: Url, from: Href, t: nat): Exchange {
    Reported(b, ParsedReply([], [from], Some(t)), [])
  }

  /** The exchanges of the run that meets the move, in the order its calendars are visited. */
  function MoveRun(a: Url, b: Url, from: Href, to: Href, event: IcsEvent, t: nat, newFirst: bool): seq<Exchange> {
    if newFirst then [Arrives(a, to, event, t), Leaves(b, from, t)] else [Leaves(b, from, t), Arrives(a, to, event, t)]
  }

  lemma MoveRecords(a: Url, b: Url, from: Href, to: Href, event: IcsEvent, t: nat, newFirst: bool)
    requires a != b
    ensures var run := RunOver(BeforeMove(a, b, from, event.identity, t),
                               MoveRun(a, b, from, to, event, t + 2, newFirst));
            run.Running?
            && run.records == if newFirst then [RecordOf(event)] + Tombstones([event.identity])
                              else Tombstones([event.identity]) + [RecordOf(event)]
  {
    var state := BeforeMove(a, b, from, event.identity, t);
    var arrives, leaves := Arrives(a, to, event, t + 2), Leaves(b, from, t + 2);
    var order := MoveRun(a, b, from, to, event, t + 2, newFirst);
    TwoTurns(state, order);
    if newFirst {
      ArrivalTurn(state, arrives, to, event);
      DepartureTurn(StateAfter(state, arrives), leaves, from, event.identity);
    } else {
      DepartureTurn(state, leaves, from, event.identity);
      ArrivalTurn(StateAfter(state, leaves), arrives, to, event);
    }
  }

  lemma TwoTurns(state: State, both: seq<Exchange>)
    requires |both| == 2 && Answered(both[0]) && Answered(both[1])
    ensures var run := RunOver(state, both);
            run.Running?
            && run.records == Turn(state, both[0]).records + Turn(StateAfter(state, both[0]), both[1]).records
  {
    OneTurn(state, both[..1]);
    assert both[..1][0] == both[0];
    RunSnoc(state, both, 1);
    assert both[..2] == both;
  }

  lemma OneTurn(state: State, one: seq<Exchange>)
    requires |one| == 1 && Answered(one[0])
    ensures RunOver(state, one) == Running(StateAfter(state, one[0]), Turn(state, one[0]).records)
  {
    assert RunOver(state, one[..0]) == Running(state, []);
    RunSnoc(state, one, 0);
    assert one[..1] == one;
  }

  /**
   The one-home requirement is needed, and this is its exact price: an event that moved between
   two polls is mirrored after the run exactly if its new calendar is visited after its old
   one, whose tombstone otherwise removes it again.
   */
  lemma MoveKeptIffNewVisitedLater(m: Mirrors, a: Url, b: Url, from: Href, to: Href, x: string, fields: EventFields,
                                   t: nat, newFirst: bool)
    requires a != b && ValidWeekdays(fields.recurrenceWeekdays)
    ensures var run := RunOver(BeforeMove(a, b, from, x, t),
                               MoveRun(a, b, from, to, IcsEvent(x, false, fields), t + 2, newFirst));
            run.Running? && Lookup(Land(m, run.records), Id(x)) == if newFirst then None else Some(fields)
  {
    var event := IcsEvent(x, false, fields);
    MoveRecords(a, b, from, to, event, t, newFirst);
    var arrival, departure := [RecordOf(event)], Tombstones([x]);
    TombstonesVerdict([x], x);
    ArrivalVerdict(event);
    if newFirst {
      WellFormedConcat(arrival, departure);
      DecideAppend(arrival, departure, Id(x));
      LastRecordWins(m, arrival + departure, Id(x));
    } else {
      WellFormedConcat(departure, arrival);
      DecideAppend(departure, arrival, Id(x));
      LastRecordWins(m, departure + arrival, Id(x));
    }
  }

  lemma ArrivalVerdict(event: IcsEvent)
    requires !event.cancelled && ValidWeekdays(event.fields.recurrenceWeekdays)
    ensures WellFormed([RecordOf(event)]) && Decide([RecordOf(event)], Id(event.identity)) == Show(event.fields)
  {
    RecordsVerdict([event], event.identity);
    assert RecordsOf([event]) == [RecordOf(event)];
    assert Says([event], event.identity) == Show(event.fields);
  }

  lemma ArrivalTurn(state: State, ex: Exchange, to: Href, event: IcsEvent)
    requires ex.Reported? && ex.reply.changed == [(to, Some("etag"))] && ex.reply.deleted == []
    requires ex.fetched == [FetchedIcs(to, [event])]
    ensures Turn(state, ex).records == [RecordOf(event)]
  {
    WithEtagLists(ex.reply.changed, to);
    assert HasHref(MergeTombstones(ex.reply).changed, to);
    var changed := ex.reply.changed;
    assert changed[..|changed| - 1] == [] && changed[|changed| - 1].1.Some?;
    assert WithoutEtag(changed) == WithoutEtag([]) + [];
    assert Gone(ex) == [] + WithoutEtag(changed);
    assert ex.fetched[..0] == [];
    assert Learn(Progress(ItemsOf(state, ex.url), []), ex.fetched).records == [] + RecordsOf([event]);
  }

  lemma DepartureTurn(state: State, ex: Exchange, from: Href, x: string)
    requires ex.Reported? && ex.reply.changed == [] && ex.reply.deleted == [from]
    requires ItemsOf(state, ex.url) == map[from := [x]]
    ensures Turn(state, ex).records == Tombstones([x])
  {
    assert Gone(ex) == [from] && Gone(ex)[..0] == [];
    assert Resources(ex) == [];
    assert Forget(Progress(map[from := [x]], []), [from]).records == [] + Tombstones([x]);
  }
}
