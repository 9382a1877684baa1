/**
 Where extra mirrors come from. A chronicle is kept beside the worlds of `IcloudRuns`: where
 each calendar was last seen, which a refusal does not erase, and for each excused identity
 the gap between the last report its mirror survived and the exchange that passed it over.
 Over every history its href lost it inside that gap.
 */
module IcloudGaps {
  import opened MirrorFold
  import opened CursorRules
  import opened IcloudServer
  import opened IcloudSync
  import opened IcloudBatch
  import opened IcloudConvergence
  import opened IcloudRuns

  /** The position of a calendar's last report, and the furthest any fetch of it has seen. */
  datatype Sighting = Sighting(report: nat, fetched: nat)

  /**
   The sighting before an identity was excused, the positions of the exchange that excused it,
   and whether that was a full listing, the token being lost.
   */
  datatype Gap = Gap(last: Sighting, report: nat, fetch: nat, full: bool) {
    /** The excusing exchange was answered no earlier than the sighting. */
    predicate Forward() { last.report <= report && last.fetched <= fetch }
  }

  datatype Chronicle = Chronicle(seen: map<Url, Sighting>, gaps: map<string, Gap>)

  function Max(a: nat, b: nat): nat {
    if a < b then b else a
  }

  function Sighted(seen: map<Url, Sighting>, url: Url): Sighting {
    if url in seen then seen[url] else Sighting(0, 0)
  }

  /** One visit: newly excused identities get their gap, those no longer excused lose it. */
  ghost function Note(c: Chronicle, r: Replica, v: Visit, home: string -> Place): Chronicle {
    var last := Sighted(c.seen, v.ex.url);
    Chronicle(
      c.seen[v.ex.url := Sighting(Position(v), Max(last.fetched, v.fetch))],
      map x | x in Excused(After(r, v, home)) ::
        if x in Excused(r) && x in c.gaps then c.gaps[x]
        else Gap(last, Position(v), v.fetch, FullListing(r.state, v.ex)))
  }

  ghost function NoteVisits(c: Chronicle, r: Replica, visits: seq<Visit>, home: string -> Place): Chronicle {
    if visits == [] then c
    else
      var init := visits[..|visits| - 1];
      Note(NoteVisits(c, r, init, home), Replay(r, init, home), visits[|visits| - 1], home)
  }

  ghost function ChronicleOf(w: World, steps: seq<WorldStep>, home: string -> Place): Chronicle {
    if steps == [] then Chronicle(map[], map[])
    else
      var init, step := steps[..|steps| - 1], steps[|steps| - 1];
      var before := RunWorld(w, init, home);
      if step.Polled? && RunOutcome(before, step.visits).Success?
      then NoteVisits(ChronicleOf(w, init, home), ReplicaOf(before), step.visits, home)
      else ChronicleOf(w, init, home)
  }

  // ---------------------------------------------------------------------------
  // Invariant
  // ---------------------------------------------------------------------------

  /** Between two positions the href spoke of the identity, or was expunged. */
  ghost predicate Spoken(hist: History, from: nat, to: nat, place: Place, x: string)
    requires to <= |hist|
  {
    exists s | from <= s <= to :: Speaks(LiveAt(hist, s), place, x) || (s < to && hist[s] == Expunge(place))
  }

  /** Between two positions the href was expunged, or spoke of the identity and at the end does not. */
  ghost predicate Ended(hist: History, from: nat, to: nat, place: Place, x: string)
    requires to <= |hist|
  {
    exists s | from <= s <= to ::
      if s < to && hist[s] == Expunge(place) then true
      else Speaks(LiveAt(hist, s), place, x) && !Speaks(LiveAt(hist, to), place, x)
  }

  /** A mirror that is not excused had a living home at its calendar's last report. */
  ghost predicate Anchored(hist: History, r: Replica, c: Chronicle, place: Place, x: string) {
    Id(x) in r.mirrors && x !in Excused(r) ==>
      && place.url in c.seen
      && var last := c.seen[place.url];
         && last.report <= last.fetched <= |hist|
         && place in LiveAt(hist, last.report)
         && Spoken(hist, last.report, last.fetched, place, x)
  }

  /** What the gap of an excused identity records. */
  ghost predicate Explains(hist: History, g: Gap, place: Place, x: string) {
    && g.last.report <= g.last.fetched <= |hist| && g.fetch <= |hist|
    && Spoken(hist, g.last.report, g.last.fetched, place, x)
    && (g.Forward() ==> Ended(hist, g.last.report, g.fetch, place, x))
  }

  ghost predicate Explained(hist: History, r: Replica, c: Chronicle, place: Place, x: string) {
    x in Excused(r) ==> x in c.gaps && Explains(hist, c.gaps[x], place, x) && (x !in r.dropped ==> c.gaps[x].full)
  }

  ghost predicate GapInv(hist: History, r: Replica, c: Chronicle, home: string -> Place) {
    && (forall url <- c.seen :: c.seen[url].report <= c.seen[url].fetched <= |hist|)
    && (forall url <- r.state :: r.state[url].token.Some? ==>
          url in c.seen && c.seen[url].report == r.state[url].token.value)
    && forall x {:trigger home(x)} :: Anchored(hist, r, c, home(x), x) && Explained(hist, r, c, home(x), x)
  }

  // ---------------------------------------------------------------------------
  // One visit
  // ---------------------------------------------------------------------------

  lemma SpokenFurther(hist: History, from: nat, to: nat, further: nat, place: Place, x: string)
    requires to <= further <= |hist| && Spoken(hist, from, to, place, x)
    ensures Spoken(hist, from, further, place, x)
  {
  }

  lemma {:induction false} DiesByExpunge(hist: History, from: nat, to: nat, place: Place) returns (i: nat)
    requires from <= to <= |hist| && place in LiveAt(hist, from) && place !in LiveAt(hist, to)
    ensures from <= i < to && hist[i] == Expunge(place)
  {
    if hist[to - 1] == Expunge(place) { i := to - 1; } else { i := DiesByExpunge(hist, from, to - 1, place); }
  }

  /** What held between a token and its last fetch still holds from the next report on, if nothing was reported. */
  lemma SpokenOnward(hist: History, t: nat, p: nat, fetched: nat, place: Place, x: string)
    requires t <= p <= |hist| && fetched <= |hist| && !Touched(hist, t, p, place)
    requires Spoken(hist, t, fetched, place, x)
    ensures Spoken(hist, p, Max(fetched, p), place, x)
  {
    var s: nat :| t <= s <= fetched
                  && (Speaks(LiveAt(hist, s), place, x) || (s < fetched && hist[s] == Expunge(place)));
    if s < p {
      assert hist[s].place != place;
      TouchedSplits(hist, t, s, p, place);
      UntouchedStays(hist, s, p, place);
      assert Speaks(LiveAt(hist, p), place, x);
    }
  }

  /** An unexcused mirror passed over without its home being fetched: the home lived at the report. */
  lemma UnfetchedLives(hist: History, r: Replica, v: Visit, home: string -> Place, x: string)
    requires Inv(hist, r, home) && Answered(v.ex) && Honest(hist, r.state, v)
    requires home(x).url == v.ex.url && !Fetched(Resources(v.ex), home(x).href)
    requires v.ex.Reported? && TokenOf(r.state, v.ex.url).Some? && home(x).href !in Gone(v.ex)
    requires home(x) in LiveAt(hist, TokenOf(r.state, v.ex.url).value)
    ensures home(x) in LiveAt(hist, v.report)
    ensures home(x) in LiveAt(hist, v.fetch) ==> !Touched(hist, TokenOf(r.state, v.ex.url).value, v.report, home(x))
  {
    var place := home(x);
    assert ListsGone(v.ex.reply, place.href) ==> place.href in Gone(v.ex);
    var asked := MergeTombstones(v.ex.reply).changed;
    assert ListsChanged(v.ex.reply, place.href) <==> HasHref(asked, place.href);
  }

  lemma AnchoredUnfetched(hist: History, r: Replica, c: Chronicle, v: Visit, home: string -> Place, x: string)
    requires Inv(hist, r, home) && GapInv(hist, r, c, home) && Answered(v.ex) && Honest(hist, r.state, v)
    requires home(x).url == v.ex.url && !Fetched(Resources(v.ex), home(x).href)
    requires Passes(r, v.ex, x) && Id(x) in r.mirrors && x !in Excused(After(r, v, home))
    ensures Anchored(hist, After(r, v, home), Note(c, r, v, home), home(x), x)
  {
    var place := home(x);
    PassedUnfetched(hist, r, v, home, x);
    assert Anchored(hist, r, c, place, x);
    var last := c.seen[place.url];
    UnfetchedLives(hist, r, v, home, x);
    if place in LiveAt(hist, v.fetch) {
      SpokenOnward(hist, last.report, v.report, last.fetched, place, x);
      SpokenFurther(hist, v.report, Max(last.fetched, v.report), Max(last.fetched, v.fetch), place, x);
    } else {
      var i := DiesByExpunge(hist, v.report, v.fetch, place);
      assert Spoken(hist, v.report, v.fetch, place, x);
    }
  }

  /** A mirror that a fetch of its home leaves unexcused is one its home speaks of. */
  lemma FetchedSpeaks(hist: History, r: Replica, v: Visit, home: string -> Place, x: string)
    requires Inv(hist, r, home) && Answered(v.ex) && Honest(hist, r.state, v)
    requires home(x).url == v.ex.url && Fetched(Resources(v.ex), home(x).href)
    requires Id(x) in After(r, v, home).mirrors && x !in Excused(After(r, v, home))
    ensures Speaks(LiveAt(hist, v.fetch), home(x), x)
  {
    AfterLookup(hist, r, v, home, x);
    MirrorIsLookup(r.mirrors, x);
    MirrorIsLookup(After(r, v, home).mirrors, x);
    if Passes(r, v.ex, x) { PassedOver(hist, r, v, home, x); }
    FetchedContent(hist, r.state, v, home(x));
  }

  lemma AnchoredFetched(hist: History, r: Replica, c: Chronicle, v: Visit, home: string -> Place, x: string)
    requires Inv(hist, r, home) && GapInv(hist, r, c, home) && Answered(v.ex) && Honest(hist, r.state, v)
    requires home(x).url == v.ex.url && Fetched(Resources(v.ex), home(x).href)
    requires Id(x) in After(r, v, home).mirrors && x !in Excused(After(r, v, home))
    ensures Anchored(hist, After(r, v, home), Note(c, r, v, home), home(x), x)
  {
    FetchedSpeaks(hist, r, v, home, x);
    LivesAtPosition(hist, r.state, v, home(x));
    var last := Note(c, r, v, home).seen[home(x).url];
    assert last.report == Position(v) && v.fetch <= last.fetched;
    assert Spoken(hist, last.report, last.fetched, home(x), x);
  }

  /** A fetched home lived at the position of the visit. */
  lemma LivesAtPosition(hist: History, state: State, v: Visit, place: Place)
    requires Answered(v.ex) && Honest(hist, state, v)
    requires place.url == v.ex.url && Fetched(Resources(v.ex), place.href)
    ensures Position(v) <= v.fetch && place in LiveAt(hist, Position(v))
  {
    FetchedContent(hist, state, v, place);
    var f :| f in Resources(v.ex) && f.href == place.href;
    if v.ex.Reported? { assert ListsChanged(v.ex.reply, place.href); }
  }

  lemma VisitKeepsAnchored(hist: History, r: Replica, c: Chronicle, v: Visit, home: string -> Place, x: string)
    requires Inv(hist, r, home) && GapInv(hist, r, c, home) && Answered(v.ex) && Honest(hist, r.state, v)
    ensures Anchored(hist, After(r, v, home), Note(c, r, v, home), home(x), x)
  {
    var r' := After(r, v, home);
    AfterLookup(hist, r, v, home, x);
    MirrorIsLookup(r.mirrors, x);
    MirrorIsLookup(r'.mirrors, x);
    if Id(x) in r'.mirrors && x !in Excused(r') {
      if home(x).url != v.ex.url {
        ExcusedElsewhere(hist, r, v, home, x);
        assert Anchored(hist, r, c, home(x), x);
      } else if Fetched(Resources(v.ex), home(x).href) {
        AnchoredFetched(hist, r, c, v, home, x);
      } else {
        AnchoredUnfetched(hist, r, c, v, home, x);
      }
    }
  }

  /** Where a newly excused identity stands when its excusing exchange is answered. */
  lemma NewlyExcused(hist: History, r: Replica, v: Visit, home: string -> Place, x: string)
    requires Inv(hist, r, home) && Answered(v.ex) && Honest(hist, r.state, v)
    requires x in Excused(After(r, v, home)) && x !in Excused(r)
    ensures Id(x) in r.mirrors && home(x).url == v.ex.url
    ensures x !in After(r, v, home).dropped ==> FullListing(r.state, v.ex)
    ensures Position(v) <= v.fetch
    ensures !Speaks(LiveAt(hist, v.fetch), home(x), x) || home(x) !in LiveAt(hist, Position(v))
  {
    AfterLookup(hist, r, v, home, x);
    ExcusedIsMirrored(hist, r, v, home, x);
    DroppedAtHome(r, v.ex, home, x);
    if Fetched(Resources(v.ex), home(x).href) {
      PassedHome(hist, r, v, home, x);
    } else {
      UnlistedHome(hist, r.state, v, home(x));
    }
  }

  /** A home a full listing does not fetch is dead at the listing's report or at its fetch. */
  lemma UnlistedHome(hist: History, state: State, v: Visit, place: Place)
    requires Answered(v.ex) && Honest(hist, state, v) && FullListing(state, v.ex)
    requires place.url == v.ex.url && !Fetched(Resources(v.ex), place.href)
    ensures place !in LiveAt(hist, v.fetch) || place !in LiveAt(hist, Position(v))
  {
    if v.ex.Reported? {
      var asked := MergeTombstones(v.ex.reply).changed;
      assert ListsChanged(v.ex.reply, place.href) <==> HasHref(asked, place.href);
    }
  }

  lemma GapExplains(hist: History, r: Replica, c: Chronicle, v: Visit, home: string -> Place, x: string)
    requires Inv(hist, r, home) && GapInv(hist, r, c, home) && Answered(v.ex) && Honest(hist, r.state, v)
    requires x in Excused(After(r, v, home)) && x !in Excused(r)
    ensures Explains(hist, Note(c, r, v, home).gaps[x], home(x), x)
  {
    var place := home(x);
    NewlyExcused(hist, r, v, home, x);
    assert Anchored(hist, r, c, place, x);
    var last := c.seen[place.url];
    var g := Note(c, r, v, home).gaps[x];
    assert g == Gap(last, Position(v), v.fetch, FullListing(r.state, v.ex));
    if g.Forward() {
      if place !in LiveAt(hist, Position(v)) {
        var i := DiesByExpunge(hist, last.report, Position(v), place);
        assert Ended(hist, last.report, v.fetch, place, x);
      } else {
        SpokenFurther(hist, last.report, last.fetched, v.fetch, place, x);
        SpokenThenSilent(hist, last.report, v.fetch, place, x);
      }
    }
  }

  lemma SpokenThenSilent(hist: History, from: nat, to: nat, place: Place, x: string)
    requires to <= |hist| && Spoken(hist, from, to, place, x) && !Speaks(LiveAt(hist, to), place, x)
    ensures Ended(hist, from, to, place, x)
  {
  }

  lemma VisitKeepsExplained(hist: History, r: Replica, c: Chronicle, v: Visit, home: string -> Place, x: string)
    requires Inv(hist, r, home) && GapInv(hist, r, c, home) && Answered(v.ex) && Honest(hist, r.state, v)
    ensures Explained(hist, After(r, v, home), Note(c, r, v, home), home(x), x)
  {
    if x in Excused(After(r, v, home)) {
      ExcusedIsMirrored(hist, r, v, home, x);
      assert Explained(hist, r, c, home(x), x);
      if x !in Excused(r) {
        NewlyExcused(hist, r, v, home, x);
        GapExplains(hist, r, c, v, home, x);
      }
    }
  }

  lemma PositionInTime(hist: History, state: State, v: Visit)
    requires Answered(v.ex) && Honest(hist, state, v)
    ensures Position(v) <= v.fetch <= |hist|
    ensures NextToken(v.ex).Some? ==> NextToken(v.ex).value == Position(v)
  {
  }

  lemma VisitKeepsGaps(hist: History, r: Replica, c: Chronicle, v: Visit, home: string -> Place)
    requires Inv(hist, r, home) && GapInv(hist, r, c, home) && Answered(v.ex) && Honest(hist, r.state, v)
    ensures GapInv(hist, After(r, v, home), Note(c, r, v, home), home)
  {
    PositionInTime(hist, r.state, v);
    forall x {:trigger home(x)}
      ensures Anchored(hist, After(r, v, home), Note(c, r, v, home), home(x), x)
      ensures Explained(hist, After(r, v, home), Note(c, r, v, home), home(x), x)
    {
      VisitKeepsAnchored(hist, r, c, v, home, x);
      VisitKeepsExplained(hist, r, c, v, home, x);
    }
  }

  // ---------------------------------------------------------------------------
  // Whole histories
  // ---------------------------------------------------------------------------

  lemma {:induction false} VisitsKeepGaps(hist: History, r: Replica, c: Chronicle, visits: seq<Visit>,
                                          home: string -> Place)
    requires Inv(hist, r, home) && GapInv(hist, r, c, home)
    requires Completes(visits) && HonestVisits(hist, r, visits, home)
    ensures GapInv(hist, Replay(r, visits, home), NoteVisits(c, r, visits, home), home)
  {
    if visits != [] {
      var init, v := visits[..|visits| - 1], visits[|visits| - 1];
      VisitsSnoc(hist, r, visits, home);
      VisitsKeepGaps(hist, r, c, init, home);
      ReplayKeepsInv(hist, r, init, home);
      VisitKeepsGaps(hist, Replay(r, init, home), NoteVisits(c, r, init, home), v, home);
    }
  }

  lemma SpokenStays(hist: History, later: History, from: nat, to: nat, place: Place, x: string)
    requires to <= |hist|
    ensures Spoken(hist + later, from, to, place, x) <==> Spoken(hist, from, to, place, x)
    ensures Ended(hist + later, from, to, place, x) <==> Ended(hist, from, to, place, x)
  {
    forall s: nat | s <= to ensures LiveAt(hist + later, s) == LiveAt(hist, s) {
      LiveInPrefix(hist, hist + later, s);
    }
  }

  lemma EditsKeepGaps(hist: History, later: History, r: Replica, c: Chronicle, home: string -> Place)
    requires GapInv(hist, r, c, home)
    ensures GapInv(hist + later, r, c, home)
  {
    forall x {:trigger home(x)}
      ensures Anchored(hist + later, r, c, home(x), x) && Explained(hist + later, r, c, home(x), x)
    {
      assert Anchored(hist, r, c, home(x), x) && Explained(hist, r, c, home(x), x);
      if Id(x) in r.mirrors && x !in Excused(r) {
        var last := c.seen[home(x).url];
        LiveInPrefix(hist, hist + later, last.report);
        SpokenStays(hist, later, last.report, last.fetched, home(x), x);
      }
      if x in Excused(r) {
        var g := c.gaps[x];
        SpokenStays(hist, later, g.last.report, g.last.fetched, home(x), x);
        SpokenStays(hist, later, g.last.report, g.fetch, home(x), x);
      }
    }
  }

  /** A refusal forgets tokens and memory; the chronicle stays true. */
  lemma RefusalKeepsGaps(hist: History, r: Replica, c: Chronicle, home: string -> Place)
    requires GapInv(hist, r, c, home)
    ensures GapInv(hist, r.(state := map[], asOf := map[]), c, home)
  {
    forall x {:trigger home(x)}
      ensures Anchored(hist, r.(state := map[], asOf := map[]), c, home(x), x)
      ensures Explained(hist, r.(state := map[], asOf := map[]), c, home(x), x)
    {
      assert Anchored(hist, r, c, home(x), x) && Explained(hist, r, c, home(x), x);
    }
  }

  lemma {:induction false} RunKeepsGaps(w: World, steps: seq<WorldStep>, home: string -> Place)
    requires WorldInv(w, home) && ValidRun(w, steps, home)
    requires GapInv(w.hist, ReplicaOf(w), Chronicle(map[], map[]), home)
    ensures var end := RunWorld(w, steps, home);
            GapInv(end.hist, ReplicaOf(end), ChronicleOf(w, steps, home), home)
  {
    if steps != [] {
      var init, step := steps[..|steps| - 1], steps[|steps| - 1];
      RunKeepsGaps(w, init, home);
      RunKeepsInv(w, init, home);
      StepKeepsGaps(RunWorld(w, init, home), step, ChronicleOf(w, init, home), home);
    }
  }

  lemma StepKeepsGaps(w: World, step: WorldStep, c: Chronicle, home: string -> Place)
    requires WorldInv(w, home) && ValidStep(w, step, home) && GapInv(w.hist, ReplicaOf(w), c, home)
    ensures var after := Next(w, step, home);
            var c' := if step.Polled? && RunOutcome(w, step.visits).Success?
                      then NoteVisits(c, ReplicaOf(w), step.visits, home) else c;
            GapInv(after.hist, ReplicaOf(after), c', home)
  {
    var later := if step.Edited? then [step.edit] else step.during;
    EditsKeepInv(w.hist, later, ReplicaOf(w), home);
    EditsKeepGaps(w.hist, later, ReplicaOf(w), c, home);
    if step.Polled? {
      RaisedIffUnanswered(StateOf(w.cursor), step.visits);
      if Completes(step.visits) {
        VisitsKeepGaps(w.hist + later, ReplicaOf(w), c, step.visits, home);
        ReplayIsRun(w.hist + later, ReplicaOf(w), step.visits, home);
      } else if RunOutcome(w, step.visits).error == StaleCursor {
        RefusalKeepsGaps(w.hist + later, ReplicaOf(w), c, home);
      }
    }
  }

  // ---------------------------------------------------------------------------
  // Main result
  // ---------------------------------------------------------------------------

  /** On the server, replacing a living resource never leaves out an identity it mentioned. */
  ghost predicate LivingHrefsKeepIdentities(hist: History) {
    forall i | 0 <= i < |hist| :: hist[i].Put? ==>
      forall x :: Speaks(LiveAt(hist, i), hist[i].place, x) ==> Mentioned(hist[i].resource, x)
  }

  lemma {:induction false} SilencedByExpunge(hist: History, s: nat, to: nat, place: Place, x: string)
    requires LivingHrefsKeepIdentities(hist)
    requires s <= to <= |hist| && Speaks(LiveAt(hist, s), place, x) && !Speaks(LiveAt(hist, to), place, x)
    ensures Expunge(place) in hist[s..to]
  {
    assert s < to;
    var last: nat := to - 1;
    if Speaks(LiveAt(hist, last), place, x) {
      assert hist[last] == Expunge(place);
      assert hist[s..to][last - s] == hist[last];
    } else {
      SilencedByExpunge(hist, s, last, place, x);
      assert hist[s..to] == hist[s..last] + [hist[last]];
    }
  }

  lemma EndedByExpunge(hist: History, from: nat, to: nat, place: Place, x: string)
    requires LivingHrefsKeepIdentities(hist) && from <= to <= |hist| && Ended(hist, from, to, place, x)
    ensures Expunge(place) in hist[from..to]
  {
    var s: nat :| from <= s <= to && if s < to && hist[s] == Expunge(place) then true
                               else Speaks(LiveAt(hist, s), place, x) && !Speaks(LiveAt(hist, to), place, x);
    if s < to && hist[s] == Expunge(place) {
      assert hist[from..to][s - from] == hist[s];
    } else {
      SilencedByExpunge(hist, s, to, place, x);
      assert hist[from..to] == hist[from..s] + hist[s..to];
    }
  }

  /**
   What the chronicle says of a mirror the server does not show. Its gap runs from the last
   report of its calendar to the exchange that passed it over, a full listing for want of a
   token unless a fetched home left it out; inside the gap its href stopped speaking of it,
   by being expunged if living hrefs keep their identities.
   */
  ghost predicate LostInGap(w: World, c: Chronicle, place: Place, x: string) {
    && x in c.gaps
    && var g := c.gaps[x];
       && g.last.report <= |w.hist| && g.fetch <= |w.hist|
       && (x !in w.dropped ==> g.full)
       && (g.Forward() ==> g.last.report <= g.fetch && Ended(w.hist, g.last.report, g.fetch, place, x))
       && (LivingHrefsKeepIdentities(w.hist) ==>
             && Expunge(place) in w.hist[g.last.report..]
             && (g.Forward() ==> g.last.report <= g.fetch && Expunge(place) in w.hist[g.last.report..g.fetch]))
  }

  lemma ExcusedLostInGap(w: World, c: Chronicle, home: string -> Place, x: string)
    requires WorldInv(w, home) && GapInv(w.hist, ReplicaOf(w), c, home)
    requires UpToDate(w, home(x).url) && x in Excused(ReplicaOf(w))
    ensures LostInGap(w, c, home(x), x)
  {
    var g := c.gaps[x];
    assert Explained(w.hist, ReplicaOf(w), c, home(x), x);
    assert Tracks(w.hist, ReplicaOf(w), home(x), x);
    assert Settled(w.hist, |w.hist|, home(x));
    if LivingHrefsKeepIdentities(w.hist) {
      SpokenFurther(w.hist, g.last.report, g.last.fetched, |w.hist|, home(x), x);
      SpokenThenSilent(w.hist, g.last.report, |w.hist|, home(x), x);
      EndedByExpunge(w.hist, g.last.report, |w.hist|, home(x), x);
      assert w.hist[g.last.report..|w.hist|] == w.hist[g.last.report..];
      if g.Forward() { EndedByExpunge(w.hist, g.last.report, g.fetch, home(x), x); }
    }
  }

  /** From any sound state of world and chronicle. */
  lemma ExtraMirrorsLostFrom(start: World, steps: seq<WorldStep>, home: string -> Place, x: string)
    requires WorldInv(start, home) && ValidRun(start, steps, home)
    requires GapInv(start.hist, ReplicaOf(start), Chronicle(map[], map[]), home)
    ensures var w := RunWorld(start, steps, home);
            UpToDate(w, home(x).url) && Lookup(w.mirrors, Id(x)) != OnServer(w, home(x), x) ==>
              LostInGap(w, ChronicleOf(start, steps, home), home(x), x)
  {
    var w := RunWorld(start, steps, home);
    ShowsServerFrom(start, steps, home, x);
    RunKeepsInv(start, steps, home);
    RunKeepsGaps(start, steps, home);
    if UpToDate(w, home(x).url) && Lookup(w.mirrors, Id(x)) != OnServer(w, home(x), x) {
      ExcusedLostInGap(w, ChronicleOf(start, steps, home), home, x);
    }
  }

  /**
   An extra mirror belongs to an href deleted while the token was lost: over every history
   from nothing mirrored, a mirror of an up-to-date calendar that the server does not show was
   lost by its href between the calendar's last report and the exchange that passed it over.
   */
  lemma ExtraMirrorsWereExpunged(mirrors: Mirrors, steps: seq<WorldStep>, home: string -> Place, x: string)
    requires ValidRun(Start(mirrors), steps, home) && MirroredIdentities(mirrors) == {}
    ensures var w := RunWorld(Start(mirrors), steps, home);
            UpToDate(w, home(x).url) && Lookup(w.mirrors, Id(x)) != OnServer(w, home(x), x) ==>
              LostInGap(w, ChronicleOf(Start(mirrors), steps, home), home(x), x)
  {
    NoneMirrored(mirrors);
    ExtraMirrorsLostFrom(Start(mirrors), steps, home, x);
  }
}
