/**
 A CalDAV server as an append-only history of edits, sync tokens being positions in it
 (RFC 6578), and what an honest server may answer to the REPORTs of the connector.
 */
module IcloudServer {
  import opened Wrappers
  import opened ConnectorModels
  import opened MirrorFold

  type Url = string
  type Href = string

  /** One resource of one calendar. */
  datatype Place = Place(url: Url, href: Href)

  /** One VEVENT as `parse_events` decodes it. */
  datatype IcsEvent = IcsEvent(identity: string, cancelled: bool, fields: EventFields)

  type Resource = seq<IcsEvent>

  /** A resource is stored (created or replaced) or removed. */
  datatype Edit = Put(place: Place, resource: Resource) | Expunge(place: Place)

  type History = seq<Edit>

  /** The resources alive after the first n edits. */
  function LiveAt(hist: History, n: nat): map<Place, Resource>
    requires n <= |hist|
  {
    if n == 0 then map[]
    else match hist[n - 1]
      case Put(place, resource) => LiveAt(hist, n - 1)[place := resource]
      case Expunge(place) => LiveAt(hist, n - 1) - {place}
  }

  predicate Touched(hist: History, lo: nat, hi: nat, place: Place)
    requires hi <= |hist|
  {
    exists i | lo <= i < hi :: hist[i].place == place
  }

  lemma {:induction false} UntouchedStays(hist: History, lo: nat, hi: nat, place: Place)
    requires lo <= hi <= |hist| && !Touched(hist, lo, hi, place)
    ensures place in LiveAt(hist, lo) <==> place in LiveAt(hist, hi)
    ensures place in LiveAt(hist, lo) ==> LiveAt(hist, lo)[place] == LiveAt(hist, hi)[place]
  {
    if lo < hi {
      assert hist[hi - 1].place != place;
      UntouchedStays(hist, lo, hi - 1, place);
    }
  }

  lemma {:induction false} LiveInPrefix(hist: History, longer: History, n: nat)
    requires n <= |hist| && hist <= longer
    ensures LiveAt(hist, n) == LiveAt(longer, n)
  {
    if n > 0 { LiveInPrefix(hist, longer, n - 1); }
  }

  /** What a resource shows of an identity: its last event with that identity decides. */
  function Says(r: Resource, identity: string): Verdict {
    if r == [] then Silent
    else
      var last := r[|r| - 1];
      if last.identity != identity then Says(r[..|r| - 1], identity)
      else if last.cancelled then Remove
      else Show(last.fields)
  }

  predicate Mentioned(r: Resource, identity: string) {
    exists e <- r :: e.identity == identity
  }

  lemma {:induction false} SaysIffMentioned(r: Resource, identity: string)
    ensures Says(r, identity) == Silent <==> !Mentioned(r, identity)
  {
    if r != [] {
      var init := r[..|r| - 1];
      assert r == init + [r[|r| - 1]];
      SaysIffMentioned(init, identity);
    }
  }

  /** The event a member sees on the server under an identity that lives at `place`. */
  function Shown(live: map<Place, Resource>, place: Place, identity: string): Option<EventFields> {
    if place in live then Overlay(None, Says(live[place], identity)) else None
  }

  /**
   Identities stay at one href: every event ever stored sits at the home of its identity.
   Every decoded event carries weekdays in 0..6 (`series_weekdays`).
   */
  ghost predicate AtHome(hist: History, home: string -> Place) {
    forall i | 0 <= i < |hist| :: hist[i].Put? ==>
      forall e <- hist[i].resource :: home(e.identity) == hist[i].place && ValidWeekdays(e.fields.recurrenceWeekdays)
  }

  lemma {:induction false} LiveAtHome(hist: History, home: string -> Place, n: nat, place: Place)
    requires n <= |hist| && AtHome(hist, home) && place in LiveAt(hist, n)
    ensures forall e <- LiveAt(hist, n)[place] ::
              home(e.identity) == place && ValidWeekdays(e.fields.recurrenceWeekdays)
  {
    if hist[n - 1].place != place { LiveAtHome(hist, home, n - 1, place); }
  }

  // ---------------------------------------------------------------------------
  // Replies
  // ---------------------------------------------------------------------------

  type Etag = string

  /** A parsed sync-collection reply: a removed resource comes as a bare href, or without an etag. */
  datatype ParsedReply = ParsedReply(changed: seq<(Href, Option<Etag>)>, deleted: seq<Href>, syncToken: Option<nat>)

  /** The connector's normal form of it. */
  datatype SyncChanges = SyncChanges(changed: seq<(Href, Etag)>, deleted: seq<Href>, token: Option<nat>)

  datatype FetchedIcs = FetchedIcs(href: Href, ics: Resource)

  /** The reply speaks of the href as changed: it lists it with an etag. */
  predicate ListsChanged(reply: ParsedReply, href: Href) {
    exists entry <- reply.changed :: entry.0 == href && entry.1.Some?
  }

  /** The reply speaks of the href as gone, in either of the two 404 shapes. */
  predicate ListsGone(reply: ParsedReply, href: Href) {
    href in reply.deleted || exists entry <- reply.changed :: entry.0 == href && entry.1.None?
  }

  /**
   A reply to a sync-collection REPORT answered at position p (sections 3.4 and 3.5 of
   RFC 6578): changed members are alive and removed ones are not; with an honoured token every
   member edited since it and still alive is reported as changed, and every member that was
   alive at the token and is gone is reported as removed; without a token the whole collection
   is reported. The reply may say more than that, in any order.
   */
  ghost predicate HonestReply(hist: History, url: Url, token: Option<nat>, p: nat, reply: ParsedReply)
    requires p <= |hist| && (token.Some? ==> token.value <= p)
  {
    var live := LiveAt(hist, p);
    && (forall entry <- reply.changed :: entry.1.Some? ==> Place(url, entry.0) in live)
    && (forall href :: ListsGone(reply, href) ==> Place(url, href) !in live)
    && (forall place <- live ::
          (place.url == url && (token.None? || Touched(hist, token.value, p, place)) ==>
              ListsChanged(reply, place.href)))
    && (token.Some? ==> forall place <- LiveAt(hist, token.value) ::
          (place.url == url && place !in live ==> ListsGone(reply, place.href)))
    && (reply.syncToken.Some? ==> reply.syncToken.value == p)
  }

  /** What a multiget answered at position q returns: the resources asked for that still exist. */
  ghost predicate HonestFetch(hist: History, url: Url, q: nat, asked: Href -> bool, fetched: seq<FetchedIcs>)
    requires q <= |hist|
  {
    var live := LiveAt(hist, q);
    && (forall f <- fetched :: asked(f.href) && Place(url, f.href) in live && f.ics == live[Place(url, f.href)])
    && (forall place <- live :: (place.url == url && asked(place.href) ==> Fetched(fetched, place.href)))
  }

  predicate Fetched(fetched: seq<FetchedIcs>, href: Href) {
    exists f <- fetched :: f.href == href
  }
}
