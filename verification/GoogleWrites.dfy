/**
 No lost update: any number of get-merge-put updates interleaved with edits by others, against
 a server that checks `If-Match` (section 13.1.1 of RFC 9110). The client sends the header
 only when the fetched event carries a non-empty etag
 (src/nidaro/connectors/google_calendar/client.py).
 */
module GoogleWrites {
  import opened Wrappers
  import opened Zones
  import opened GoogleMerge

  /** Who stored a version: somebody else, or an update merged from version `base`. */
  datatype Origin = Outside | Update(base: nat, fields: UpdateFields)

  /** One state of the event on the server. */
  datatype Version = Version(body: Body, origin: Origin)

  /** `existing.get("etag")`, when it is truthy. */
  function EtagOf(body: Body): Option<string> {
    if Etag in body && body[Etag].Text? && body[Etag].text != "" then Some(body[Etag].text) else None
  }

  /** The server stores a PUT unless it carries an `If-Match` that is not the current etag. */
  predicate Accepts(current: Body, ifMatch: Option<string>) {
    ifMatch.None? || EtagOf(current) == ifMatch
  }

  /** The versions so far, oldest first, and the version each running update has fetched. */
  datatype World = World(versions: seq<Version>, fetched: map<nat, nat>)

  datatype Step =
    | Edit(body: Body)
    | Fetch(client: nat)
    | Store(client: nat, fields: UpdateFields, served: Body)

  /** The update of this client reaches the server and is stored. */
  predicate Lands(w: World, client: nat, fields: UpdateFields) {
    && client in w.fetched && w.fetched[client] < |w.versions|
    && var existing := w.versions[w.fetched[client]].body;
       !Refused(existing, fields) && Accepts(w.versions[|w.versions| - 1].body, EtagOf(existing))
  }

  function Next(w: World, step: Step): World {
    match step
    case Edit(body) => w.(versions := w.versions + [Version(body, Outside)])
    case Fetch(client) => if w.versions == [] then w else w.(fetched := w.fetched[client := |w.versions| - 1])
    case Store(client, fields, served) =>
      if Lands(w, client, fields)
      then w.(versions := w.versions + [Version(served, Update(w.fetched[client], fields))])
      else w
  }

  /** A new version's etag has not been used before. */
  ghost predicate NewEtag(versions: seq<Version>, body: Body) {
    EtagOf(body).Some? ==> forall v <- versions :: EtagOf(v.body) != EtagOf(body)
  }

  /** Etags are fresh, and the server stores what it was sent except for what it manages. */
  ghost predicate ValidStep(w: World, step: Step, tz: Zone) {
    match step
    case Edit(body) => NewEtag(w.versions, body)
    case Fetch(_) => true
    case Store(client, fields, served) =>
      Lands(w, client, fields) ==>
        && NewEtag(w.versions, served)
        && forall key: Key | !ReadOnly(key) ::
             Get(served, key) == Get(Merged(w.versions[w.fetched[client]].body, fields, tz), key)
  }

  function RunWorld(w: World, steps: seq<Step>): World {
    if steps == [] then w else Next(RunWorld(w, steps[..|steps| - 1]), steps[|steps| - 1])
  }

  ghost predicate ValidRun(w: World, steps: seq<Step>, tz: Zone) {
    steps != [] ==>
      && ValidRun(w, steps[..|steps| - 1], tz)
      && ValidStep(RunWorld(w, steps[..|steps| - 1]), steps[|steps| - 1], tz)
  }

  function Start(body: Body): World {
    World([Version(body, Outside)], map[])
  }

  /** An update's version amends the version it was merged from, and that was the current one or had no etag. */
  ghost predicate Faithful(versions: seq<Version>, n: nat, tz: Zone)
    requires n < |versions|
  {
    var v := versions[n];
    v.origin.Update? ==>
      && v.origin.base < n
      && var base := versions[v.origin.base].body;
         && !Refused(base, v.origin.fields) && Amends(base, v.origin.fields, tz, v.body)
         && (EtagOf(base).Some? ==> v.origin.base == n - 1)
  }

  ghost predicate FreshEtags(versions: seq<Version>) {
    forall i, j | 0 <= i < j < |versions| ::
      EtagOf(versions[j].body).Some? ==> EtagOf(versions[i].body) != EtagOf(versions[j].body)
  }

  ghost predicate Inv(w: World, tz: Zone) {
    && w.versions != []
    && (forall c <- w.fetched :: w.fetched[c] < |w.versions|)
    && FreshEtags(w.versions)
    && forall n | 0 <= n < |w.versions| :: Faithful(w.versions, n, tz)
  }

  /** An update lands exactly when nothing was stored since its fetch, or what it fetched has no etag. */
  lemma LandsIffUnchanged(w: World, client: nat, fields: UpdateFields, tz: Zone)
    requires Inv(w, tz) && client in w.fetched
    requires !Refused(w.versions[w.fetched[client]].body, fields)
    ensures Lands(w, client, fields)
       <==> w.fetched[client] == |w.versions| - 1 || EtagOf(w.versions[w.fetched[client]].body).None?
  {
  }

  lemma AppendFresh(versions: seq<Version>, v: Version)
    requires FreshEtags(versions) && NewEtag(versions, v.body)
    ensures FreshEtags(versions + [v])
  {
  }

  lemma AppendFaithful(versions: seq<Version>, v: Version, tz: Zone)
    requires forall n | 0 <= n < |versions| :: Faithful(versions, n, tz)
    requires Faithful(versions + [v], |versions|, tz)
    ensures forall n | 0 <= n < |versions + [v]| :: Faithful(versions + [v], n, tz)
  {
    forall n | 0 <= n < |versions| ensures Faithful(versions + [v], n, tz) {
      assert Faithful(versions, n, tz);
    }
  }

  lemma StepKeepsInv(w: World, step: Step, tz: Zone)
    requires Inv(w, tz) && ValidStep(w, step, tz)
    ensures Inv(Next(w, step), tz)
  {
    match step
    case Fetch(client) =>
    case Edit(body) =>
      AppendFresh(w.versions, Version(body, Outside));
      AppendFaithful(w.versions, Version(body, Outside), tz);
    case Store(client, fields, served) =>
      if Lands(w, client, fields) {
        var v := Version(served, Update(w.fetched[client], fields));
        LandsIffUnchanged(w, client, fields, tz);
        MergedAmends(w.versions[w.fetched[client]].body, fields, tz, Id);
        AppendFresh(w.versions, v);
        AppendFaithful(w.versions, v, tz);
      }
  }

  lemma {:induction false} RunKeepsInv(w: World, steps: seq<Step>, tz: Zone)
    requires Inv(w, tz) && ValidRun(w, steps, tz)
    ensures Inv(RunWorld(w, steps), tz)
  {
    if steps != [] {
      RunKeepsInv(w, steps[..|steps| - 1], tz);
      StepKeepsInv(RunWorld(w, steps[..|steps| - 1]), steps[|steps| - 1], tz);
    }
  }

  // ---------------------------------------------------------------------------
  // Main results
  // ---------------------------------------------------------------------------

  /**
   No lost update: over every interleaving, a stored update whose fetched version carried an
   etag replaced exactly that version, and differs from it only in the keys it governs, as
   requested, and in the server-managed ones.
   */
  lemma NoLostUpdate(body: Body, steps: seq<Step>, tz: Zone, n: nat)
    requires ValidRun(Start(body), steps, tz)
    requires n < |RunWorld(Start(body), steps).versions|
    ensures var versions := RunWorld(Start(body), steps).versions;
            var v := versions[n];
            v.origin.Update? ==>
              && v.origin.base < n
              && var base := versions[v.origin.base].body;
                 && !Refused(base, v.origin.fields) && Amends(base, v.origin.fields, tz, v.body)
                 && (EtagOf(base).Some? ==> v.origin.base == n - 1)
  {
    RunKeepsInv(Start(body), steps, tz);
    assert Faithful(RunWorld(Start(body), steps).versions, n, tz);
  }

  /** Version n and all after it, up to m, leave this key to earlier versions. */
  ghost predicate LeftAlone(versions: seq<Version>, n: nat, m: nat, key: Key) {
    forall i | n < i <= m < |versions| ::
      && versions[i].origin.Update? && versions[i].origin.base < |versions|
      && !Governs(versions[versions[i].origin.base].body, versions[i].origin.fields, key)
      && EtagOf(versions[versions[i].origin.base].body).Some?
  }

  /** Whatever anybody stored under a key survives all later updates that do not govern it. */
  lemma EditSurvives(body: Body, steps: seq<Step>, tz: Zone, n: nat, m: nat, key: Key)
    requires ValidRun(Start(body), steps, tz) && !ReadOnly(key)
    requires n <= m < |RunWorld(Start(body), steps).versions|
    requires LeftAlone(RunWorld(Start(body), steps).versions, n, m, key)
    ensures var versions := RunWorld(Start(body), steps).versions;
            Get(versions[m].body, key) == Get(versions[n].body, key)
  {
    RunKeepsInv(Start(body), steps, tz);
    Survives(RunWorld(Start(body), steps), tz, n, m, key);
  }

  lemma {:induction false} Survives(w: World, tz: Zone, n: nat, m: nat, key: Key)
    requires Inv(w, tz) && !ReadOnly(key) && n <= m < |w.versions| && LeftAlone(w.versions, n, m, key)
    ensures Get(w.versions[m].body, key) == Get(w.versions[n].body, key)
    decreases m
  {
    if n < m {
      Survives(w, tz, n, m - 1, key);
      assert Faithful(w.versions, m, tz);
    }
  }

  /**
   The etag is needed: whenever the fetched version carries none, an edit made between fetch
   and store is overwritten, in every key the update does not govern, with what it replaced.
   */
  lemma EditLostWithoutEtag(w: World, client: nat, fields: UpdateFields, edit: Body, served: Body, tz: Zone, key: Key)
    requires Inv(w, tz) && EtagOf(w.versions[|w.versions| - 1].body).None?
    requires !Refused(w.versions[|w.versions| - 1].body, fields)
    requires ValidStep(Next(Next(w, Fetch(client)), Edit(edit)), Store(client, fields, served), tz)
    requires !ReadOnly(key) && !Governs(w.versions[|w.versions| - 1].body, fields, key)
    ensures var edited := Next(Next(w, Fetch(client)), Edit(edit));
            var after := Next(edited, Store(client, fields, served)).versions;
            && edited.versions == w.versions + [Version(edit, Outside)]
            && after == edited.versions + [Version(served, Update(|w.versions| - 1, fields))]
            && Get(served, key) == Get(w.versions[|w.versions| - 1].body, key)
  {
    var n := |w.versions|;
    var existing := w.versions[n - 1].body;
    var edited := Next(Next(w, Fetch(client)), Edit(edit));
    assert edited.versions[n - 1] == w.versions[n - 1];
    assert edited.fetched[client] == n - 1 && Lands(edited, client, fields);
    assert Get(served, key) == Get(Merged(existing, fields, tz), key);
    MergedAmends(existing, fields, tz, key);
  }
}
