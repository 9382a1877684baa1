/**
 What the batch of one iCloud exchange says about one identity, when identities stay at one
 href: the fetched resource decides, else a remembered deletion removes, else nothing.
 */
module IcloudBatch {
  import opened ConnectorModels
  import opened MirrorFold
  import opened IcloudServer
  import opened IcloudSync

  function Id(x: string): Identity {
    Identity(CONNECTOR_NAME, x)
  }

  /** The memory lists an identity only under the href it lives at. */
  ghost predicate ItemsAtHome(items: Items, url: Url, home: string -> Place) {
    forall href <- items :: forall x <- items[href] :: home(x) == Place(url, href)
  }

  predicate Remembers(items: Items, href: Href, x: string) {
    href in items && x in items[href]
  }

  /** Fetched resources carry the content the server holds at their hrefs. */
  ghost predicate FromServer(fetched: seq<FetchedIcs>, url: Url, live: map<Place, Resource>) {
    forall f <- fetched :: Place(url, f.href) in live && f.ics == live[Place(url, f.href)]
  }

  /** Every event alive on the server sits at the home of its identity and has valid weekdays. */
  ghost predicate EventsAtHome(live: map<Place, Resource>, home: string -> Place) {
    forall place <- live :: forall e <- live[place] ::
      home(e.identity) == place && ValidWeekdays(e.fields.recurrenceWeekdays)
  }

  lemma {:induction false} TombstonesVerdict(ids: seq<string>, x: string)
    ensures Decide(Tombstones(ids), Id(x)) == if x in ids then Remove else Silent
    ensures WellFormed(Tombstones(ids))
  {
    if ids != [] {
      var init := ids[..|ids| - 1];
      assert ids == init + [ids[|ids| - 1]];
      assert Tombstones(ids)[..|ids| - 1] == Tombstones(init);
      TombstonesVerdict(init, x);
    }
  }

  lemma {:induction false} RecordsVerdict(ics: Resource, x: string)
    requires forall e <- ics :: ValidWeekdays(e.fields.recurrenceWeekdays)
    ensures Decide(RecordsOf(ics), Id(x)) == Says(ics, x)
    ensures WellFormed(RecordsOf(ics))
    ensures Mentions(RecordsOf(ics), Id(x)) <==> Mentioned(ics, x)
  {
    if ics != [] {
      var init, last := ics[..|ics| - 1], ics[|ics| - 1];
      assert ics == init + [last];
      assert RecordsOf(ics) == RecordsOf(init) + [RecordOf(last)];
      RecordsVerdict(init, x);
    }
  }

  /** The deletions of a reply. */
  lemma {:induction false} ForgetVerdict(items: Items, url: Url, home: string -> Place, deleted: seq<Href>, x: string)
    requires ItemsAtHome(items, url, home)
    ensures var p := Forget(Progress(items, []), deleted);
            && p.items == items - (set href | href in deleted)
            && WellFormed(p.records)
            && Decide(p.records, Id(x))
               == if home(x).url == url && home(x).href in deleted && Remembers(items, home(x).href, x)
                  then Remove else Silent
  {
    if deleted != [] {
      var init, href := deleted[..|deleted| - 1], deleted[|deleted| - 1];
      assert deleted == init + [href];
      ForgetVerdict(items, url, home, init, x);
      var before := Forget(Progress(items, []), init);
      if href in before.items {
        TombstonesVerdict(before.items[href], x);
        WellFormedConcat(before.records, Tombstones(before.items[href]));
        DecideAppend(before.records, Tombstones(before.items[href]), Id(x));
      }
    }
  }

  /** The resources of a fetch, on top of whatever the batch held before. */
  lemma {:induction false} LearnVerdict(p: Progress, url: Url, home: string -> Place, live: map<Place, Resource>,
                                        fetched: seq<FetchedIcs>, x: string)
    requires FromServer(fetched, url, live) && EventsAtHome(live, home) && WellFormed(p.records)
    ensures var q := Learn(p, fetched);
            && WellFormed(q.records)
            && Decide(q.records, Id(x))
               == if home(x).url == url && Fetched(fetched, home(x).href) && Mentioned(live[home(x)], x)
                  then Says(live[home(x)], x) else Decide(p.records, Id(x))
  {
    if fetched != [] {
      var init, f := fetched[..|fetched| - 1], fetched[|fetched| - 1];
      assert fetched == init + [f];
      assert FromServer(init, url, live);
      assert f in fetched;
      var place := Place(url, f.href);
      LearnVerdict(p, url, home, live, init, x);
      RecordsVerdict(f.ics, x);
      SaysIffMentioned(f.ics, x);
      WellFormedConcat(Learn(p, init).records, RecordsOf(f.ics));
      DecideAppend(Learn(p, init).records, RecordsOf(f.ics), Id(x));
      assert Fetched(fetched, home(x).href) <==> Fetched(init, home(x).href) || f.href == home(x).href;
    }
  }

  lemma {:induction false} LearnItems(p: Progress, url: Url, live: map<Place, Resource>, fetched: seq<FetchedIcs>,
                                      href: Href)
    requires FromServer(fetched, url, live)
    ensures var q := Learn(p, fetched);
            if Fetched(fetched, href)
            then href in q.items && q.items[href] == MirroredIds(live[Place(url, href)])
            else (href in q.items <==> href in p.items) && (href in p.items ==> q.items[href] == p.items[href])
  {
    if fetched != [] {
      var init, f := fetched[..|fetched| - 1], fetched[|fetched| - 1];
      assert fetched == init + [f];
      assert FromServer(init, url, live);
      LearnItems(p, url, live, init, href);
      assert Fetched(fetched, href) <==> Fetched(init, href) || f.href == href;
    }
  }

  /** The verdict of one exchange's whole batch on one identity. */
  function TurnVerdict(items: Items, ex: Exchange, place: Place, live: map<Place, Resource>, x: string): Verdict {
    if place.url != ex.url then Silent
    else if Fetched(Resources(ex), place.href) && place in live && Mentioned(live[place], x) then Says(live[place], x)
    else if place.href in Gone(ex) && Remembers(items, place.href, x) then Remove
    else Silent
  }

  lemma TurnDecides(state: State, ex: Exchange, home: string -> Place, live: map<Place, Resource>, x: string)
    requires ItemsAtHome(ItemsOf(state, ex.url), ex.url, home)
    requires FromServer(Resources(ex), ex.url, live) && EventsAtHome(live, home)
    ensures WellFormed(Turn(state, ex).records)
    ensures Decide(Turn(state, ex).records, Id(x)) == TurnVerdict(ItemsOf(state, ex.url), ex, home(x), live, x)
  {
    var items := ItemsOf(state, ex.url);
    ForgetVerdict(items, ex.url, home, Gone(ex), x);
    LearnVerdict(Forget(Progress(items, []), Gone(ex)), ex.url, home, live, Resources(ex), x);
  }

  lemma TurnItems(state: State, ex: Exchange, home: string -> Place, live: map<Place, Resource>, href: Href)
    requires ItemsAtHome(ItemsOf(state, ex.url), ex.url, home)
    requires FromServer(Resources(ex), ex.url, live)
    ensures var before, after := ItemsOf(state, ex.url), Turn(state, ex).items;
            if Fetched(Resources(ex), href)
            then href in after && after[href] == MirroredIds(live[Place(ex.url, href)])
            else (href in after <==> href in before && href !in Gone(ex))
                 && (href in after ==> after[href] == before[href])
  {
    var items := ItemsOf(state, ex.url);
    ForgetVerdict(items, ex.url, home, Gone(ex), "");
    LearnItems(Forget(Progress(items, []), Gone(ex)), ex.url, live, Resources(ex), href);
  }

  lemma TurnItemsAtHome(state: State, ex: Exchange, home: string -> Place, live: map<Place, Resource>)
    requires ItemsAtHome(ItemsOf(state, ex.url), ex.url, home)
    requires FromServer(Resources(ex), ex.url, live) && EventsAtHome(live, home)
    ensures ItemsAtHome(Turn(state, ex).items, ex.url, home)
  {
    forall href | href in Turn(state, ex).items
      ensures forall x <- Turn(state, ex).items[href] :: home(x) == Place(ex.url, href)
    {
      TurnItems(state, ex, home, live, href);
    }
  }
}
