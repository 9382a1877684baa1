/**
 The mirrors of the iCloud connector track the server over every history of edits and polls.

 A poll visits calendars one after another; each visit sees the server at two positions of its
 history, the REPORT and the multiget, between which the server may be edited. Two ghost sets
 name the only mirrors the protocol can leave behind: identities a living href stopped
 mentioning (`dropped`), and identities a full listing said nothing about (`stranded`).
 */
module IcloudConvergence {
  import opened MirrorFold
  import opened IcloudServer
  import opened IcloudSync
  import opened IcloudBatch

  /**
   The connector's side of the world: its cursor state, the household's mirrors, the excused
   identities, and the position of the server each calendar was last reported at.
   */
  datatype Replica = Replica(
    state: State,
    mirrors: Mirrors,
    dropped: set<string>,
    stranded: set<string>,
    asOf: map<Url, nat>
  )

  /** One exchange and the two positions of the server it met. */
  datatype Visit = Visit(ex: Exchange, report: nat, fetch: nat)

  ghost function Excused(r: Replica): set<string> {
    r.dropped + r.stranded
  }

  function MirroredIdentities(m: Mirrors): set<string> {
    set id | id in m && id.connector == CONNECTOR_NAME :: id.externalId
  }

  ghost function Unmentioned(r: Replica, ex: Exchange): set<string> {
    set x | x in MirroredIdentities(r.mirrors) && Decide(Turn(r.state, ex).records, Id(x)) == Silent
  }

  /** Remembered, still mirrored identities that the resource now fetched for their href leaves out. */
  ghost function NewlyDropped(r: Replica, ex: Exchange): set<string> {
    set x | x in Unmentioned(r, ex) &&
      exists f <- Resources(ex) :: Remembers(ItemsOf(r.state, ex.url), f.href, x) && !Mentioned(f.ics, x)
  }

  /** A listing without a token to compare against: deletions are unknowable. */
  predicate FullListing(state: State, ex: Exchange) {
    ex.Unsupported? || TokenOf(state, ex.url).None?
  }

  ghost function NewlyStranded(r: Replica, ex: Exchange, home: string -> Place): set<string> {
    if FullListing(r.state, ex) then set x | x in Unmentioned(r, ex) && home(x).url == ex.url else {}
  }

  /** One answered visit, its records landed. */
  ghost function After(r: Replica, v: Visit, home: string -> Place): Replica {
    var records := Turn(r.state, v.ex).records;
    Replica(
      StateAfter(r.state, v.ex),
      Land(r.mirrors, records),
      (set x | x in r.dropped + NewlyDropped(r, v.ex) && Decide(records, Id(x)) == Silent),
      (set x | x in r.stranded + NewlyStranded(r, v.ex, home) && Decide(records, Id(x)) == Silent),
      r.asOf[v.ex.url := Position(v)])
  }

  /** The server answered honestly, at positions of its history in that order. */
  ghost predicate Honest(hist: History, state: State, v: Visit) {
    && v.fetch <= |hist|
    && match v.ex
       case Reported(url, reply, fetched) =>
         && v.report <= v.fetch
         && (TokenOf(state, url).Some? ==> TokenOf(state, url).value <= v.report)
         && HonestReply(hist, url, TokenOf(state, url), v.report, reply)
         && HonestFetch(hist, url, v.fetch, href => ListsChanged(reply, href), fetched)
       case Unsupported(url, listing) => HonestFetch(hist, url, v.fetch, href => true, listing)
       case Unauthorized(_) => true
       case Broken(_) => true
  }

  /** Nothing happened to a resource that its next report could still have to say. */
  ghost predicate Settled(hist: History, a: nat, place: Place)
    requires a <= |hist|
  {
    place !in LiveAt(hist, a) || !Touched(hist, a, |hist|, place)
  }

  ghost predicate Speaks(live: map<Place, Resource>, place: Place, x: string) {
    place in live && Mentioned(live[place], x)
  }

  /** A mirror that is not excused is remembered under its home. */
  ghost predicate MemoryTracks(r: Replica, place: Place, x: string) {
    Id(x) in r.mirrors && x !in Excused(r) ==> Remembers(ItemsOf(r.state, place.url), place.href, x)
  }

  /** A mirror is what its settled home showed at position a, unless excused from showing nothing. */
  ghost predicate ContentTracks(hist: History, r: Replica, a: nat, place: Place, x: string)
    requires a <= |hist|
  {
    Settled(hist, a, place) ==>
      if x in Excused(r) then !Speaks(LiveAt(hist, a), place, x)
      else Lookup(r.mirrors, Id(x)) == Shown(LiveAt(hist, a), place, x)
  }

  /** The per-identity invariant. */
  ghost predicate Tracks(hist: History, r: Replica, place: Place, x: string) {
    && (x in Excused(r) ==> Id(x) in r.mirrors)
    && (place.url in r.asOf ==>
          && r.asOf[place.url] <= |hist|
          && MemoryTracks(r, place, x)
          && ContentTracks(hist, r, r.asOf[place.url], place, x))
  }

  ghost predicate TokensAreReports(r: Replica) {
    forall url <- r.state :: r.state[url].token.Some? ==> url in r.asOf && r.asOf[url] == r.state[url].token.value
  }

  ghost predicate Inv(hist: History, r: Replica, home: string -> Place) {
    && AtHome(hist, home)
    && (forall url <- r.state :: ItemsAtHome(r.state[url].items, url, home))
    && TokensAreReports(r)
    && forall x {:trigger home(x)} :: Tracks(hist, r, home(x), x)
  }

  lemma ServerAtHome(hist: History, home: string -> Place, n: nat)
    requires n <= |hist| && AtHome(hist, home)
    ensures EventsAtHome(LiveAt(hist, n), home)
  {
    forall place | place in LiveAt(hist, n) { LiveAtHome(hist, home, n, place); }
  }

  /** What one visit does to the mirror of one identity. */
  lemma AfterLookup(hist: History, r: Replica, v: Visit, home: string -> Place, x: string)
    requires Inv(hist, r, home) && Answered(v.ex) && Honest(hist, r.state, v)
    ensures FromServer(Resources(v.ex), v.ex.url, LiveAt(hist, v.fetch)) && EventsAtHome(LiveAt(hist, v.fetch), home)
    ensures ItemsAtHome(ItemsOf(r.state, v.ex.url), v.ex.url, home)
    ensures Decide(Turn(r.state, v.ex).records, Id(x))
         == TurnVerdict(ItemsOf(r.state, v.ex.url), v.ex, home(x), LiveAt(hist, v.fetch), x)
    ensures Lookup(After(r, v, home).mirrors, Id(x))
         == Overlay(Lookup(r.mirrors, Id(x)), Decide(Turn(r.state, v.ex).records, Id(x)))
  {
    ServerAtHome(hist, home, v.fetch);
    TurnDecides(r.state, v.ex, home, LiveAt(hist, v.fetch), x);
    LastRecordWins(r.mirrors, Turn(r.state, v.ex).records, Id(x));
  }

  // ---------------------------------------------------------------------------
  // How a visit changes who is excused
  // ---------------------------------------------------------------------------

  /** The batch of the exchange has nothing to say of the identity. */
  predicate Passes(r: Replica, ex: Exchange, x: string) {
    Decide(Turn(r.state, ex).records, Id(x)) == Silent
  }

  /** Only a silent batch leaves an identity excused, and its mirror stands. */
  lemma ExcusedIsMirrored(hist: History, r: Replica, v: Visit, home: string -> Place, x: string)
    requires Inv(hist, r, home) && Answered(v.ex) && Honest(hist, r.state, v)
    requires x in Excused(After(r, v, home))
    ensures Passes(r, v.ex, x) && Id(x) in r.mirrors && Id(x) in After(r, v, home).mirrors
  {
    AfterLookup(hist, r, v, home, x);
    assert Tracks(hist, r, home(x), x);
  }

  /** An identity is dropped only by its own home. */
  lemma DroppedAtHome(r: Replica, ex: Exchange, home: string -> Place, x: string)
    requires ItemsAtHome(ItemsOf(r.state, ex.url), ex.url, home)
    ensures x in NewlyDropped(r, ex) ==> home(x).url == ex.url && Fetched(Resources(ex), home(x).href)
  {
    if x in NewlyDropped(r, ex) {
      var f :| f in Resources(ex) && Remembers(ItemsOf(r.state, ex.url), f.href, x);
      assert home(x) == Place(ex.url, f.href);
    }
  }

  /** A silent batch excuses nobody anew at another calendar's home. */
  lemma ExcusedElsewhere(hist: History, r: Replica, v: Visit, home: string -> Place, x: string)
    requires Inv(hist, r, home) && home(x).url != v.ex.url
    requires ItemsAtHome(ItemsOf(r.state, v.ex.url), v.ex.url, home)
    ensures x in Excused(After(r, v, home)) <==> Passes(r, v.ex, x) && x in Excused(r)
  {
    DroppedAtHome(r, v.ex, home, x);
  }

  /** A full listing that passes over a mirror of its calendar excuses it. */
  lemma ExcusedByListing(r: Replica, v: Visit, home: string -> Place, x: string)
    requires Passes(r, v.ex, x) && Id(x) in r.mirrors && home(x).url == v.ex.url && FullListing(r.state, v.ex)
    ensures x in Excused(After(r, v, home))
  {
    assert Id(x).externalId == x;
  }

  /** So does a fetched home that leaves out a remembered identity. */
  lemma ExcusedByHome(hist: History, r: Replica, v: Visit, home: string -> Place, x: string)
    requires Inv(hist, r, home) && Answered(v.ex) && Honest(hist, r.state, v)
    requires Passes(r, v.ex, x) && Id(x) in r.mirrors && home(x).url == v.ex.url
    requires Fetched(Resources(v.ex), home(x).href) && Remembers(ItemsOf(r.state, v.ex.url), home(x).href, x)
    ensures x in Excused(After(r, v, home))
  {
    PassedHome(hist, r, v, home, x);
    assert Id(x).externalId == x;
    var f :| f in Resources(v.ex) && f.href == home(x).href;
    assert f.ics == LiveAt(hist, v.fetch)[home(x)];
  }

  /** A home fetched by a silent batch does not mention the identity. */
  lemma PassedHome(hist: History, r: Replica, v: Visit, home: string -> Place, x: string)
    requires Inv(hist, r, home) && Answered(v.ex) && Honest(hist, r.state, v)
    requires Passes(r, v.ex, x) && home(x).url == v.ex.url && Fetched(Resources(v.ex), home(x).href)
    ensures FromServer(Resources(v.ex), v.ex.url, LiveAt(hist, v.fetch))
    ensures home(x) in LiveAt(hist, v.fetch) && !Mentioned(LiveAt(hist, v.fetch)[home(x)], x)
  {
    AfterLookup(hist, r, v, home, x);
    var f :| f in Resources(v.ex) && f.href == home(x).href;
    assert Place(v.ex.url, f.href) == home(x);
    SaysIffMentioned(LiveAt(hist, v.fetch)[home(x)], x);
  }

  /** An increment that leaves a home unfetched excuses nobody anew there. */
  lemma ExcusedUnfetched(hist: History, r: Replica, v: Visit, home: string -> Place, x: string)
    requires Inv(hist, r, home) && home(x).url == v.ex.url && Passes(r, v.ex, x)
    requires ItemsAtHome(ItemsOf(r.state, v.ex.url), v.ex.url, home)
    requires !FullListing(r.state, v.ex) && !Fetched(Resources(v.ex), home(x).href)
    ensures x in Excused(After(r, v, home)) <==> x in Excused(r)
  {
    DroppedAtHome(r, v.ex, home, x);
  }

  /** The mirrors and memory that an excused identity was passed over with stay excused. */
  lemma StaysExcused(r: Replica, v: Visit, home: string -> Place, x: string)
    requires Passes(r, v.ex, x) && x in Excused(r)
    ensures x in Excused(After(r, v, home))
  {
  }

  lemma {:induction false} ShownIsMirrored(ics: Resource, x: string)
    requires Says(ics, x).Show?
    ensures x in MirroredIds(ics)
  {
    if ics[|ics| - 1].identity != x {
      ShownIsMirrored(ics[..|ics| - 1], x);
      assert forall e <- ics[..|ics| - 1] :: e in ics;
    }
  }

  lemma TouchedSplits(hist: History, lo: nat, mid: nat, hi: nat, place: Place)
    requires lo <= mid <= hi <= |hist|
    ensures Touched(hist, lo, hi, place) <==> Touched(hist, lo, mid, place) || Touched(hist, mid, hi, place)
  {
  }

  /** Visits of other calendars leave an identity alone. */
  lemma TracksElsewhere(hist: History, r: Replica, v: Visit, home: string -> Place, x: string)
    requires Inv(hist, r, home) && Answered(v.ex) && Honest(hist, r.state, v)
    requires home(x).url != v.ex.url
    ensures Tracks(hist, After(r, v, home), home(x), x)
  {
    AfterLookup(hist, r, v, home, x);
    ExcusedElsewhere(hist, r, v, home, x);
    assert Tracks(hist, r, home(x), x);
    assert Lookup(After(r, v, home).mirrors, Id(x)) == Lookup(r.mirrors, Id(x));
  }

  /** The position a visit leaves its calendar at. */
  function Position(v: Visit): nat {
    if v.ex.Reported? then v.report else v.fetch
  }

  /** A fetched resource was not reported gone, and unless edited since it is what the report saw. */
  lemma FetchedContent(hist: History, state: State, v: Visit, place: Place)
    requires Answered(v.ex) && Honest(hist, state, v)
    requires place.url == v.ex.url && Fetched(Resources(v.ex), place.href)
    ensures place in LiveAt(hist, v.fetch) && place.href !in Gone(v.ex)
    ensures Settled(hist, Position(v), place)
            ==> place in LiveAt(hist, Position(v))
                && LiveAt(hist, Position(v))[place] == LiveAt(hist, v.fetch)[place]
  {
    var f :| f in Resources(v.ex) && f.href == place.href;
    assert Place(v.ex.url, f.href) == place;
    if v.ex.Reported? {
      assert ListsChanged(v.ex.reply, place.href);
      assert place in LiveAt(hist, v.report);
      if !Touched(hist, v.report, |hist|, place) {
        TouchedSplits(hist, v.report, v.fetch, |hist|, place);
        UntouchedStays(hist, v.report, v.fetch, place);
      }
    }
  }

  /** A mirror is a lookup that finds something. */
  lemma MirrorIsLookup(m: Mirrors, x: string)
    ensures Id(x) in m <==> Lookup(m, Id(x)).Some?
  {
  }

  /** The home was fetched: its memory is fresh. */
  lemma MemoryFetched(hist: History, r: Replica, v: Visit, home: string -> Place, x: string)
    requires Inv(hist, r, home) && Answered(v.ex) && Honest(hist, r.state, v)
    requires home(x).url == v.ex.url && Fetched(Resources(v.ex), home(x).href)
    ensures MemoryTracks(After(r, v, home), home(x), x)
  {
    var place, live, r' := home(x), LiveAt(hist, v.fetch), After(r, v, home);
    AfterLookup(hist, r, v, home, x);
    TurnItems(r.state, v.ex, home, live, place.href);
    if Id(x) in r'.mirrors {
      MirrorIsLookup(r'.mirrors, x);
      MirrorIsLookup(r.mirrors, x);
      if Passes(r, v.ex, x) {
        PassedOver(hist, r, v, home, x);
      } else {
        FetchedContent(hist, r.state, v, place);
        ShownIsMirrored(live[place], x);
      }
    }
  }

  /** A mirror passed over although its home was fetched is excused. */
  lemma PassedOver(hist: History, r: Replica, v: Visit, home: string -> Place, x: string)
    requires Inv(hist, r, home) && Answered(v.ex) && Honest(hist, r.state, v)
    requires home(x).url == v.ex.url && Fetched(Resources(v.ex), home(x).href)
    requires Passes(r, v.ex, x) && Id(x) in r.mirrors
    ensures x in Excused(After(r, v, home))
  {
    assert Tracks(hist, r, home(x), x);
    if x in Excused(r) {
      StaysExcused(r, v, home, x);
    } else if FullListing(r.state, v.ex) {
      ExcusedByListing(r, v, home, x);
    } else {
      ExcusedByHome(hist, r, v, home, x);
    }
  }

  /** The home was fetched: its resource decides. */
  lemma ContentFetched(hist: History, r: Replica, v: Visit, home: string -> Place, x: string)
    requires Inv(hist, r, home) && Answered(v.ex) && Honest(hist, r.state, v)
    requires home(x).url == v.ex.url && Fetched(Resources(v.ex), home(x).href)
    ensures Position(v) <= |hist| && ContentTracks(hist, After(r, v, home), Position(v), home(x), x)
  {
    var place, live, r' := home(x), LiveAt(hist, v.fetch), After(r, v, home);
    AfterLookup(hist, r, v, home, x);
    FetchedContent(hist, r.state, v, place);
    SaysIffMentioned(live[place], x);
    if x in Excused(r') {
      ExcusedIsMirrored(hist, r, v, home, x);
      PassedHome(hist, r, v, home, x);
    } else if Passes(r, v.ex, x) {
      PassedHome(hist, r, v, home, x);
      MirrorIsLookup(r.mirrors, x);
      if Id(x) in r.mirrors { PassedOver(hist, r, v, home, x); }
    }
  }

  lemma TracksFetched(hist: History, r: Replica, v: Visit, home: string -> Place, x: string)
    requires Inv(hist, r, home) && Answered(v.ex) && Honest(hist, r.state, v)
    requires home(x).url == v.ex.url && Fetched(Resources(v.ex), home(x).href)
    ensures Tracks(hist, After(r, v, home), home(x), x)
  {
    if x in Excused(After(r, v, home)) { ExcusedIsMirrored(hist, r, v, home, x); }
    MemoryFetched(hist, r, v, home, x);
    ContentFetched(hist, r, v, home, x);
  }

  /** Passing over a mirror of the calendar excuses it, unless it was an increment that left its memory alone. */
  lemma PassedUnfetched(hist: History, r: Replica, v: Visit, home: string -> Place, x: string)
    requires Inv(hist, r, home) && Answered(v.ex) && Honest(hist, r.state, v)
    requires home(x).url == v.ex.url && !Fetched(Resources(v.ex), home(x).href)
    requires Passes(r, v.ex, x) && Id(x) in r.mirrors && x !in Excused(After(r, v, home))
    ensures x !in Excused(r) && v.ex.Reported? && !FullListing(r.state, v.ex)
    ensures home(x).url in r.asOf && r.asOf[home(x).url] == TokenOf(r.state, v.ex.url).value
    ensures home(x).href !in Gone(v.ex) && Remembers(ItemsOf(r.state, v.ex.url), home(x).href, x)
  {
    AfterLookup(hist, r, v, home, x);
    assert Tracks(hist, r, home(x), x);
    if x in Excused(r) { StaysExcused(r, v, home, x); }
    if FullListing(r.state, v.ex) { ExcusedByListing(r, v, home, x); }
  }

  /** The href was reported gone: what the memory listed is removed. */
  lemma TracksGone(hist: History, r: Replica, v: Visit, home: string -> Place, x: string)
    requires Inv(hist, r, home) && Answered(v.ex) && Honest(hist, r.state, v)
    requires home(x).url == v.ex.url && !Fetched(Resources(v.ex), home(x).href) && home(x).href in Gone(v.ex)
    ensures Tracks(hist, After(r, v, home), home(x), x)
  {
    var place, r' := home(x), After(r, v, home);
    AfterLookup(hist, r, v, home, x);
    MirrorIsLookup(r.mirrors, x);
    MirrorIsLookup(r'.mirrors, x);
    assert ListsGone(v.ex.reply, place.href);
    assert Place(v.ex.url, place.href) == place;
    assert place !in LiveAt(hist, Position(v));
    if x in Excused(r') {
      ExcusedIsMirrored(hist, r, v, home, x);
    } else if Id(x) in r'.mirrors {
      PassedUnfetched(hist, r, v, home, x);
    }
  }

  /** A living resource left unfetched and untouched since the report was not reported as changed. */
  lemma UnfetchedIsUnchanged(hist: History, state: State, v: Visit, place: Place)
    requires v.ex.Reported? && Honest(hist, state, v)
    requires place.url == v.ex.url && !Fetched(Resources(v.ex), place.href)
    requires place in LiveAt(hist, v.report) && !Touched(hist, v.report, |hist|, place)
    ensures !ListsChanged(v.ex.reply, place.href)
  {
    TouchedSplits(hist, v.report, v.fetch, |hist|, place);
    UntouchedStays(hist, v.report, v.fetch, place);
    assert place in LiveAt(hist, v.fetch);
    var asked := MergeTombstones(v.ex.reply).changed;
    assert ListsChanged(v.ex.reply, place.href) <==> HasHref(asked, place.href);
    assert ListsChanged(v.ex.reply, place.href) ==> Fetched(Resources(v.ex), place.href);
  }

  /** A settled resource an exchange is silent about is absent, or as it was at the last report. */
  lemma UnreportedContent(hist: History, state: State, v: Visit, place: Place)
    requires Answered(v.ex) && Honest(hist, state, v)
    requires place.url == v.ex.url && !Fetched(Resources(v.ex), place.href) && place.href !in Gone(v.ex)
    requires Settled(hist, Position(v), place)
    ensures FullListing(state, v.ex) ==> place !in LiveAt(hist, Position(v))
    ensures !FullListing(state, v.ex) ==>
              var t := TokenOf(state, place.url).value;
              && t <= |hist| && Settled(hist, t, place)
              && (place in LiveAt(hist, Position(v)) <==> place in LiveAt(hist, t))
              && (place in LiveAt(hist, t) ==> LiveAt(hist, Position(v))[place] == LiveAt(hist, t)[place])
  {
    if v.ex.Unsupported? {
    } else if place in LiveAt(hist, v.report) {
      UnfetchedIsUnchanged(hist, state, v, place);
      var t := TokenOf(state, place.url).value;
      TouchedSplits(hist, t, v.report, |hist|, place);
      UntouchedStays(hist, t, v.report, place);
    } else if TokenOf(state, place.url).Some? {
      assert !ListsGone(v.ex.reply, place.href);
    }
  }

  /** The exchange said nothing about the href, whose memory stays. */
  lemma MemoryUnreported(hist: History, r: Replica, v: Visit, home: string -> Place, x: string)
    requires Inv(hist, r, home) && Answered(v.ex) && Honest(hist, r.state, v)
    requires home(x).url == v.ex.url && !Fetched(Resources(v.ex), home(x).href) && home(x).href !in Gone(v.ex)
    ensures MemoryTracks(After(r, v, home), home(x), x)
  {
    AfterLookup(hist, r, v, home, x);
    MirrorIsLookup(r.mirrors, x);
    MirrorIsLookup(After(r, v, home).mirrors, x);
    TurnItems(r.state, v.ex, home, LiveAt(hist, v.fetch), home(x).href);
    if Id(x) in r.mirrors && x !in Excused(After(r, v, home)) {
      PassedUnfetched(hist, r, v, home, x);
    }
  }

  lemma ContentUnreported(hist: History, r: Replica, v: Visit, home: string -> Place, x: string)
    requires Inv(hist, r, home) && Answered(v.ex) && Honest(hist, r.state, v)
    requires home(x).url == v.ex.url && !Fetched(Resources(v.ex), home(x).href) && home(x).href !in Gone(v.ex)
    ensures Position(v) <= |hist| && ContentTracks(hist, After(r, v, home), Position(v), home(x), x)
  {
    var place, r' := home(x), After(r, v, home);
    AfterLookup(hist, r, v, home, x);
    assert Tracks(hist, r, place, x);
    MirrorIsLookup(r.mirrors, x);
    if Settled(hist, Position(v), place) {
      UnreportedContent(hist, r.state, v, place);
      if FullListing(r.state, v.ex) {
        if Id(x) in r.mirrors { ExcusedByListing(r, v, home, x); }
        if x in Excused(r') { ExcusedIsMirrored(hist, r, v, home, x); }
      } else {
        ExcusedUnfetched(hist, r, v, home, x);
      }
    }
  }

  lemma TracksUnreported(hist: History, r: Replica, v: Visit, home: string -> Place, x: string)
    requires Inv(hist, r, home) && Answered(v.ex) && Honest(hist, r.state, v)
    requires home(x).url == v.ex.url && !Fetched(Resources(v.ex), home(x).href) && home(x).href !in Gone(v.ex)
    ensures Tracks(hist, After(r, v, home), home(x), x)
  {
    if x in Excused(After(r, v, home)) { ExcusedIsMirrored(hist, r, v, home, x); }
    MemoryUnreported(hist, r, v, home, x);
    ContentUnreported(hist, r, v, home, x);
  }

  /** Every visit keeps the invariant, whatever the server answered and however it was edited meanwhile. */
  lemma VisitKeepsInv(hist: History, r: Replica, v: Visit, home: string -> Place)
    requires Inv(hist, r, home) && Answered(v.ex) && Honest(hist, r.state, v)
    ensures Inv(hist, After(r, v, home), home)
  {
    AfterLookup(hist, r, v, home, "");
    TurnItemsAtHome(r.state, v.ex, home, LiveAt(hist, v.fetch));
    forall x {:trigger home(x)} ensures Tracks(hist, After(r, v, home), home(x), x) {
      if home(x).url != v.ex.url {
        TracksElsewhere(hist, r, v, home, x);
      } else if Fetched(Resources(v.ex), home(x).href) {
        TracksFetched(hist, r, v, home, x);
      } else if home(x).href in Gone(v.ex) {
        TracksGone(hist, r, v, home, x);
      } else {
        TracksUnreported(hist, r, v, home, x);
      }
    }
  }

  /** Edits on the server keep the invariant: they only unsettle resources. */
  lemma EditsKeepInv(hist: History, later: History, r: Replica, home: string -> Place)
    requires Inv(hist, r, home) && AtHome(hist + later, home)
    ensures Inv(hist + later, r, home)
  {
    forall x {:trigger home(x)} ensures Tracks(hist + later, r, home(x), x) {
      assert Tracks(hist, r, home(x), x);
      var place := home(x);
      if place.url in r.asOf {
        var a := r.asOf[place.url];
        LiveInPrefix(hist, hist + later, a);
        TouchedSplits(hist + later, a, |hist|, |hist + later|, place);
        assert Touched(hist + later, a, |hist|, place) <==> Touched(hist, a, |hist|, place);
      }
    }
  }
}
