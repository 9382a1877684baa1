/**
 The iCloud connector's sync run (`IcloudCalendarConnector.sync`,
 src/nidaro/connectors/icloud_calendar.py): one exchange with the server per calendar, the
 cursor carrying a sync token and the href-to-identities memory of each calendar.
 */
module IcloudSync {
  import opened Wrappers
  import opened ConnectorModels
  import opened CursorRules
  import opened IcloudServer

  const CONNECTOR_NAME := "icloud_calendar"

  type Items = map<Href, seq<string>>

  /** What the cursor remembers of one calendar. */
  datatype Entry = Entry(token: Option<nat>, items: Items)

  type State = map<Url, Entry>

  /** How the server met the connector's requests for one calendar. */
  datatype Exchange =
    | Reported(url: Url, reply: ParsedReply, fetched: seq<FetchedIcs>)
    | Unsupported(url: Url, listing: seq<FetchedIcs>)
    | Unauthorized(url: Url)
    | Broken(url: Url)

  // ---------------------------------------------------------------------------
  // Replies to plain values
  // ---------------------------------------------------------------------------

  predicate HasHref(changed: seq<(Href, Etag)>, href: Href) {
    exists c <- changed :: c.0 == href
  }

  function WithEtag(changed: seq<(Href, Option<Etag>)>): seq<(Href, Etag)> {
    if changed == [] then []
    else
      var last := changed[|changed| - 1];
      WithEtag(changed[..|changed| - 1]) + if last.1.Some? then [(last.0, last.1.value)] else []
  }

  lemma {:induction false} WithEtagLists(changed: seq<(Href, Option<Etag>)>, href: Href)
    ensures HasHref(WithEtag(changed), href) <==> exists c <- changed :: c.0 == href && c.1.Some?
  {
    if changed != [] {
      var init, last := changed[..|changed| - 1], changed[|changed| - 1];
      assert changed == init + [last];
      WithEtagLists(init, href);
      var rest := WithEtag(init);
      assert forall c :: c in WithEtag(changed) <==> c in rest || (last.1.Some? && c == (last.0, last.1.value));
    }
  }

  function WithoutEtag(changed: seq<(Href, Option<Etag>)>): (r: seq<Href>)
    ensures forall href :: href in r <==> exists c <- changed :: c.0 == href && c.1.None?
  {
    if changed == [] then []
    else
      var last := changed[|changed| - 1];
      assert changed == changed[..|changed| - 1] + [last];
      WithoutEtag(changed[..|changed| - 1]) + if last.1.None? then [last.0] else []
  }

  /** `merge_tombstones`: both 404 shapes count as deleted, only entries with an etag as changed. */
  function MergeTombstones(parsed: ParsedReply): (r: SyncChanges)
    ensures forall href {:trigger HasHref(r.changed, href)} :: HasHref(r.changed, href) <==> ListsChanged(parsed, href)
    ensures forall href :: href in r.deleted <==> ListsGone(parsed, href)
    ensures r.token == parsed.syncToken
  {
    assert forall href {:trigger HasHref(WithEtag(parsed.changed), href)} ::
        HasHref(WithEtag(parsed.changed), href) <==> ListsChanged(parsed, href) by {
      forall href { WithEtagLists(parsed.changed, href); }
    }
    SyncChanges(WithEtag(parsed.changed), parsed.deleted + WithoutEtag(parsed.changed), parsed.syncToken)
  }

  // ---------------------------------------------------------------------------
  // Records and href memory
  // ---------------------------------------------------------------------------

  function RecordOf(e: IcsEvent): ExternalRecord {
    ExternalRecord(CONNECTOR_NAME, CALENDAR_EVENT, e.identity, Dump(e.fields), e.cancelled)
  }

  function RecordsOf(ics: Resource): seq<ExternalRecord> {
    seq(|ics|, i requires 0 <= i < |ics| => RecordOf(ics[i]))
  }

  function MirroredIds(ics: Resource): (ids: seq<string>)
    ensures forall x :: x in ids <==> exists e <- ics :: e.identity == x && !e.cancelled
  {
    if ics == [] then []
    else
      var last := ics[|ics| - 1];
      assert ics == ics[..|ics| - 1] + [last];
      MirroredIds(ics[..|ics| - 1]) + if last.cancelled then [] else [last.identity]
  }

  /** `_records_for_resource`. */
  method RecordsForResource(resource: FetchedIcs) returns (records: seq<ExternalRecord>, mirroredIds: seq<string>)
    ensures records == RecordsOf(resource.ics)
    ensures mirroredIds == MirroredIds(resource.ics)
  {
    records, mirroredIds := [], [];
    for i := 0 to |resource.ics|
      invariant records == RecordsOf(resource.ics[..i])
      invariant mirroredIds == MirroredIds(resource.ics[..i])
    {
      var event := resource.ics[i];
      assert resource.ics[..i + 1][..i] == resource.ics[..i];
      if !event.cancelled {
        mirroredIds := mirroredIds + [event.identity];
      }
      records := records + [RecordOf(event)];
    }
    assert resource.ics[..|resource.ics|] == resource.ics;
  }

  function Tombstones(ids: seq<string>): seq<ExternalRecord> {
    seq(|ids|, i requires 0 <= i < |ids| => Tombstone(CONNECTOR_NAME, ids[i]))
  }

  /** A calendar's memory and the records produced so far. */
  datatype Progress = Progress(items: Items, records: seq<ExternalRecord>)

  /** The deletions of a reply: each remembered href is popped, its identities tombstoned. */
  function Forget(p: Progress, deleted: seq<Href>): Progress {
    if deleted == [] then p
    else
      var before, href := Forget(p, deleted[..|deleted| - 1]), deleted[|deleted| - 1];
      if href in before.items
      then Progress(before.items - {href}, before.records + Tombstones(before.items[href]))
      else before
  }

  /** The fetched resources: each is recorded and its memory replaced. */
  function Learn(p: Progress, fetched: seq<FetchedIcs>): Progress {
    if fetched == [] then p
    else
      var before, f := Learn(p, fetched[..|fetched| - 1]), fetched[|fetched| - 1];
      Progress(before.items[f.href := MirroredIds(f.ics)], before.records + RecordsOf(f.ics))
  }

  function ItemsOf(state: State, url: Url): Items {
    if url in state then state[url].items else map[]
  }

  function TokenOf(state: State, url: Url): Option<nat> {
    if url in state then state[url].token else None
  }

  /** The resources an exchange brought in: a multiget happens only when something changed. */
  function Resources(ex: Exchange): seq<FetchedIcs> {
    match ex
    case Reported(_, reply, fetched) => if MergeTombstones(reply).changed == [] then [] else fetched
    case Unsupported(_, listing) => listing
    case Unauthorized(_) => []
    case Broken(_) => []
  }

  /** The hrefs an exchange reported as gone: none when it degraded to a full listing. */
  function Gone(ex: Exchange): seq<Href> {
    if ex.Reported? then MergeTombstones(ex.reply).deleted else []
  }

  function NextToken(ex: Exchange): Option<nat> {
    if ex.Reported? then ex.reply.syncToken else None
  }

  function Answered(ex: Exchange): bool {
    ex.Reported? || ex.Unsupported?
  }

  /** What one answered exchange makes of a calendar's memory. */
  function Turn(state: State, ex: Exchange): Progress {
    Learn(Forget(Progress(ItemsOf(state, ex.url), []), Gone(ex)), Resources(ex))
  }

  function StateAfter(state: State, ex: Exchange): State {
    state[ex.url := Entry(NextToken(ex), Turn(state, ex).items)]
  }

  datatype Run = Running(state: State, records: seq<ExternalRecord>) | Raised(error: SyncError)

  /** One more calendar. */
  function RunStep(before: Run, ex: Exchange): Run {
    if before.Raised? then before
    else if Answered(ex) then
      Running(StateAfter(before.state, ex), before.records + Turn(before.state, ex).records)
    else Raised(if ex.Unauthorized? then StaleCursor else OtherFailure)
  }

  /** The run, calendar after calendar. */
  function RunOver(state: State, exchanges: seq<Exchange>): Run {
    if exchanges == [] then Running(state, [])
    else RunStep(RunOver(state, exchanges[..|exchanges| - 1]), exchanges[|exchanges| - 1])
  }

  lemma RunSnoc(state: State, exchanges: seq<Exchange>, i: nat)
    requires i < |exchanges|
    ensures RunOver(state, exchanges[..i + 1]) == RunStep(RunOver(state, exchanges[..i]), exchanges[i])
  {
    assert exchanges[..i + 1][..i] == exchanges[..i];
  }

  function OutcomeOf(run: Run): Outcome<State, ExternalRecord> {
    match run
    case Running(state, records) => Success(SyncResult(records, Some(state)))
    case Raised(error) => Failure(error)
  }

  lemma LearnStep(p: Progress, fetched: seq<FetchedIcs>, i: nat)
    requires i < |fetched|
    ensures var before := Learn(p, fetched[..i]);
            Learn(p, fetched[..i + 1])
            == Progress(before.items[fetched[i].href := MirroredIds(fetched[i].ics)],
                        before.records + RecordsOf(fetched[i].ics))
  {
    assert fetched[..i + 1][..i] == fetched[..i];
  }

  /** Record every resource of a batch and replace its memory. */
  method LearnAll(items: Items, records: seq<ExternalRecord>, fetched: seq<FetchedIcs>)
    returns (items': Items, records': seq<ExternalRecord>)
    ensures Progress(items', records') == Learn(Progress(items, records), fetched)
  {
    items', records' := items, records;
    for i := 0 to |fetched|
      invariant Progress(items', records') == Learn(Progress(items, records), fetched[..i])
    {
      var mirrorRecords, mirroredIds := RecordsForResource(fetched[i]);
      LearnStep(Progress(items, records), fetched, i);
      records' := records' + mirrorRecords;
      items' := items'[fetched[i].href := mirroredIds];
    }
    assert fetched[..|fetched|] == fetched;
  }

  lemma LearnAppends(p: Progress, base: seq<ExternalRecord>, fetched: seq<FetchedIcs>)
    ensures Learn(p.(records := base + p.records), fetched)
         == Learn(p, fetched).(records := base + Learn(p, fetched).records)
  {
    if fetched != [] {
      var init, f := fetched[..|fetched| - 1], fetched[|fetched| - 1];
      LearnAppends(p, base, init);
      assert base + (Learn(p, init).records + RecordsOf(f.ics)) == (base + Learn(p, init).records) + RecordsOf(f.ics);
    }
  }

  lemma ForgetAppends(p: Progress, base: seq<ExternalRecord>, deleted: seq<Href>)
    ensures Forget(p.(records := base + p.records), deleted)
         == Forget(p, deleted).(records := base + Forget(p, deleted).records)
  {
    if deleted != [] {
      var init, href := deleted[..|deleted| - 1], deleted[|deleted| - 1];
      ForgetAppends(p, base, init);
      var before := Forget(p, init);
      if href in before.items {
        assert base + (before.records + Tombstones(before.items[href]))
            == (base + before.records) + Tombstones(before.items[href]);
      }
    }
  }

  lemma TurnAppends(state: State, ex: Exchange, base: seq<ExternalRecord>)
    ensures Learn(Forget(Progress(ItemsOf(state, ex.url), base), Gone(ex)), Resources(ex))
         == Turn(state, ex).(records := base + Turn(state, ex).records)
  {
    var start := Progress(ItemsOf(state, ex.url), []);
    assert base + [] == base;
    ForgetAppends(start, base, Gone(ex));
    LearnAppends(Forget(start, Gone(ex)), base, Resources(ex));
  }

  /** One calendar of a run: the deletions first, then the changed resources. */
  method SyncCalendar(calendars: State, records: seq<ExternalRecord>, ex: Exchange)
    returns (calendars': State, records': seq<ExternalRecord>)
    requires Answered(ex)
    ensures calendars' == StateAfter(calendars, ex)
    ensures records' == records + Turn(calendars, ex).records
  {
    var items := ItemsOf(calendars, ex.url);
    records' := records;
    TurnAppends(calendars, ex, records);
    if ex.Unsupported? {
      items, records' := LearnAll(items, records', ex.listing);
      calendars' := calendars[ex.url := Entry(None, items)];
      return;
    }
    var changes := MergeTombstones(ex.reply);
    ghost var p := Progress(items, records);
    for j := 0 to |changes.deleted|
      invariant Progress(items, records') == Forget(p, changes.deleted[..j])
    {
      var href := changes.deleted[j];
      assert changes.deleted[..j + 1][..j] == changes.deleted[..j];
      if href in items {
        records' := records' + Tombstones(items[href]);
        items := items - {href};
      }
    }
    assert changes.deleted[..|changes.deleted|] == changes.deleted;
    if changes.changed != [] {
      items, records' := LearnAll(items, records', ex.fetched);
    }
    calendars' := calendars[ex.url := Entry(changes.token, items)];
  }

  /**
   One sync run against the exchanges the server will offer, in the order of the calendars;
   a stored cursor that does not decode counts as none.
   */
  method Sync(cursor: Option<State>, exchanges: seq<Exchange>) returns (outcome: Outcome<State, ExternalRecord>)
    ensures outcome == OutcomeOf(RunOver(if cursor.Some? then cursor.value else map[], exchanges))
  {
    var calendars: State := if cursor.Some? then cursor.value else map[];
    ghost var start := calendars;
    var records: seq<ExternalRecord> := [];
    for i := 0 to |exchanges|
      invariant RunOver(start, exchanges[..i]) == Running(calendars, records)
    {
      var ex := exchanges[i];
      RunSnoc(start, exchanges, i);
      if !Answered(ex) {
        RaisedStays(start, exchanges, i + 1);
        return Failure(if ex.Unauthorized? then StaleCursor else OtherFailure);
      }
      calendars, records := SyncCalendar(calendars, records, ex);
    }
    assert exchanges[..|exchanges|] == exchanges;
    outcome := Success(SyncResult(records, Some(calendars)));
  }

  lemma {:induction false} RaisedStays(state: State, exchanges: seq<Exchange>, k: nat)
    requires k <= |exchanges| && RunOver(state, exchanges[..k]).Raised?
    ensures RunOver(state, exchanges) == RunOver(state, exchanges[..k])
  {
    if k < |exchanges| {
      var init := exchanges[..|exchanges| - 1];
      assert init[..k] == exchanges[..k];
      RaisedStays(state, init, k);
    } else {
      assert exchanges[..k] == exchanges;
    }
  }

  /** The first k calendars are answered, and not all of them or the next one is not. */
  predicate AnsweredUpTo(exchanges: seq<Exchange>, k: nat) {
    && k <= |exchanges|
    && (forall i | 0 <= i < k :: Answered(exchanges[i]))
    && (k < |exchanges| ==> !Answered(exchanges[k]))
  }

  lemma {:induction false} AnsweredRuns(state: State, exchanges: seq<Exchange>)
    requires forall ex <- exchanges :: Answered(ex)
    ensures RunOver(state, exchanges).Running?
  {
    if exchanges != [] {
      assert exchanges[|exchanges| - 1] in exchanges;
      assert forall ex <- exchanges[..|exchanges| - 1] :: ex in exchanges;
      AnsweredRuns(state, exchanges[..|exchanges| - 1]);
    }
  }

  /**
   How a run ends is decided by the first calendar that is not answered: a refusal of the
   credentials rejects the cursor, anything else that breaks off raises and no more, and a run
   without such a calendar succeeds and names a next cursor.
   */
  lemma FirstUnansweredDecides(state: State, exchanges: seq<Exchange>, k: nat)
    requires AnsweredUpTo(exchanges, k)
    ensures var outcome := OutcomeOf(RunOver(state, exchanges));
            if k == |exchanges| then outcome.Success? && outcome.value.nextCursor.Some?
            else match exchanges[k]
              case Unauthorized(_) => outcome == Failure(StaleCursor)
              case Broken(_) => outcome == Failure(OtherFailure)
              case _ => false
  {
    var before := exchanges[..k];
    assert forall ex <- before :: Answered(ex);
    AnsweredRuns(state, before);
    if k < |exchanges| {
      RunSnoc(state, exchanges, k);
      RaisedStays(state, exchanges, k + 1);
    } else {
      assert before == exchanges;
    }
  }
}
