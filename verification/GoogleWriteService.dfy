/**
 The write service (`GoogleCalendarWriteService`,
 src/nidaro/connectors/google_calendar/writes.py): resolve the account, fetch, merge, put with
 the fetched etag, land Google's answer in the local mirrors.
 */
module GoogleWriteService {
  import opened Wrappers
  import opened ConnectorModels
  import opened MirrorFold
  import opened CalendarStore
  import opened ExternalIds
  import opened Zones
  import opened GoogleMerge
  import opened GoogleWrites
  import Events = GoogleEvents

  type EventKey = (Account, string)

  function TextAt(body: Body, key: Key): Option<string> {
    if key in body && body[key].Text? then Some(body[key].text) else None
  }

  function ListedWhen(body: Body, key: Key): Events.When {
    match WhenAt(body, key)
    case None => Events.Missing
    case Some(DateJson(day)) => Events.Date(day)
    case Some(TimeJson(wall, offset)) => Events.DateTime(wall - offset)
  }

  /** An event body as `to_external_record` reads it. */
  function ItemOf(body: Body): Events.Item {
    Events.Item(if TextAt(body, Id).Some? then TextAt(body, Id).value else "",
                TextAt(body, Status) == Some("cancelled"),
                TextAt(body, Summary), TextAt(body, Description), TextAt(body, Location),
                ListedWhen(body, GoogleMerge.Start), ListedWhen(body, End))
  }

  /** The account and event a mirror's identity names, if that account is connected. */
  function Target(accounts: seq<Account>, externalId: string): Option<EventKey> {
    match SplitExternalId(externalId)
    case Failure(_) => None
    case Success((email, calendarId, eventId)) =>
      if Account(email, calendarId) in accounts then Some((Account(email, calendarId), eventId)) else None
  }

  datatype WriteError = RecurringRefused | NoAccount | ApiError | BadRequest | Conflict | NoStart | DidNotLand

  /** What the server makes of a body it is sent: the server-managed values are its own. */
  function StoredAs(sent: Body, managed: Body): Body {
    map key | key in sent.Keys + managed.Keys && (if ReadOnly(key) then key in managed else key in sent) ::
      if ReadOnly(key) then managed[key] else sent[key]
  }

  /** The states of every event of a calendar server, oldest first. */
  class RemoteCalendar {
    var events: map<EventKey, seq<Body>>

    function StatesOf(key: EventKey): seq<Body>
      reads this
    {
      if key in events then events[key] else []
    }

    constructor () {
      events := map[];
    }

    method GetEvent(key: EventKey) returns (r: Option<Body>)
      ensures r == if StatesOf(key) == [] then None else Some(StatesOf(key)[|StatesOf(key)| - 1])
    {
      var states := StatesOf(key);
      r := if states == [] then None else Some(states[|states| - 1]);
    }

    /** POST under a client-supplied id, which must be new. */
    method InsertEvent(key: EventKey, body: Body, managed: Body) returns (answer: Option<Body>)
      modifies this
      ensures answer == if old(StatesOf(key)) == [] then Some(StoredAs(body, managed)) else None
      ensures events == if answer.Some? then old(events)[key := [answer.value]] else old(events)
    {
      if StatesOf(key) != [] { return None; }
      events := events[key := [StoredAs(body, managed)]];
      answer := Some(StoredAs(body, managed));
    }

    /** Other people's edits. */
    method Edit(key: EventKey, edits: seq<Body>)
      modifies this
      ensures events == old(events)[key := old(StatesOf(key)) + edits]
    {
      events := events[key := StatesOf(key) + edits];
    }

    /** PUT: stored, and answered, unless `If-Match` names another state than the current one. */
    method UpdateEvent(key: EventKey, body: Body, ifMatch: Option<string>, managed: Body) returns (answer: Option<Body>)
      requires StatesOf(key) != []
      modifies this
      ensures answer == if Accepts(old(StatesOf(key))[|old(StatesOf(key))| - 1], ifMatch)
                        then Some(StoredAs(body, managed)) else None
      ensures events == if answer.Some? then old(events)[key := old(StatesOf(key)) + [answer.value]] else old(events)
    {
      var states := StatesOf(key);
      if !Accepts(states[|states| - 1], ifMatch) { return None; }
      events := events[key := states + [StoredAs(body, managed)]];
      answer := Some(StoredAs(body, managed));
    }

    /** DELETE, answered by a status the caller cannot foresee. */
    method DeleteEvent(key: EventKey, status: DeleteStatus, served: Body) returns (ok: bool)
      modifies this
      ensures ok == !status.Errored?
      ensures events == if status.Deleted? then old(events)[key := old(StatesOf(key)) + [served]] else old(events)
    {
      if status.Deleted? { events := events[key := StatesOf(key) + [served]]; }
      ok := !status.Errored?;
    }
  }

  /** How a DELETE is answered: done, 410 for what is gone already, or an error. */
  datatype DeleteStatus = Deleted | AlreadyGone | Errored

  /** How an update must end: its result, the event's states on the server and the mirrors. */
  datatype Ending = Ending(result: Result<EventFields, WriteError>, states: seq<Body>, mirrors: Mirrors)

  /** Landing Google's answer: its record is applied, then read back. */
  function Landed(m: Mirrors, account: Account, served: Body, tz: Zone): (Result<EventFields, WriteError>, Mirrors) {
    match Events.ToRecord(account, ItemOf(served), tz)
    case Failure(_) => (Failure(NoStart), m)
    case Success(record) =>
      var after := Land(m, [record]);
      match Lookup(after, IdentityOf(record))
      case None => (Failure(DidNotLand), after)
      case Some(shown) => (Success(shown), after)
  }

  /** How the exchange with Google ends, and the event's states after it. */
  datatype Exchange = Exchange(answer: Result<Body, WriteError>, states: seq<Body>)

  /** Fetch, merge and put, `meanwhile` being stored by others between the fetch and the put. */
  function Exchanged(states: seq<Body>, fields: UpdateFields, tz: Zone, meanwhile: seq<Body>, managed: Body): Exchange {
    if states == [] then Exchange(Failure(ApiError), states)
    else
      var existing := states[|states| - 1];
      if Refused(existing, fields) then Exchange(Failure(BadRequest), states)
      else
        var now := states + meanwhile;
        if !Accepts(now[|now| - 1], EtagOf(existing)) then Exchange(Failure(Conflict), now)
        else
          var served := StoredAs(Merged(existing, fields, tz), managed);
          Exchange(Success(served), now + [served])
  }

  /** An update of an event with the given states: the exchange and, if stored, the landing. */
  function AfterUpdate(m: Mirrors, account: Account, states: seq<Body>, fields: UpdateFields, tz: Zone,
                       meanwhile: seq<Body>, managed: Body): Ending
  {
    var x := Exchanged(states, fields, tz, meanwhile, managed);
    match x.answer
    case Failure(error) => Ending(Failure(error), x.states, m)
    case Success(served) => var (r, after) := Landed(m, account, served, tz); Ending(r, x.states, after)
  }

  class GoogleCalendarWriteService {
    const accounts: seq<Account>
    const remote: RemoteCalendar
    const calendar: CalendarService

    constructor (accounts: seq<Account>, remote: RemoteCalendar, calendar: CalendarService)
      ensures this.accounts == accounts && this.remote == remote && this.calendar == calendar
    {
      this.accounts, this.remote, this.calendar := accounts, remote, calendar;
    }

    function MirrorsFor(household: string): Mirrors
      reads calendar.repository
    {
      MirrorsOf(calendar.repository.rows, household)
    }

    method AccountOf(externalId: string) returns (r: Option<EventKey>)
      ensures r == Target(accounts, externalId)
    {
      var found := AccountFor(accounts, externalId);
      if found.Failure? {
        if Target(accounts, externalId).Some? { JoinUndoesSplit(externalId); }
        return None;
      }
      r := Some(found.value);
    }

    /** Create on Google in the household's first account and land the answer: the mirror is the request. */
    method CreateEvent(household: string, request: CreateRequest, eventId: string, managed: Body, tz: Zone)
      returns (r: Result<EventFields, WriteError>)
      requires calendar.repository.Valid()
      modifies remote, calendar.repository
      ensures calendar.repository.Valid()
      ensures OnlyMirrorsOf(household, old(calendar.repository.rows), calendar.repository.rows)
      ensures r == if Recurring(request) then Failure(RecurringRefused)
                   else if accounts == [] then Failure(NoAccount)
                   else if old(remote.StatesOf((accounts[0], eventId))) != [] then Failure(ApiError)
                   else Success(FieldsAsked(request, tz))
      ensures r.Failure? ==> remote.events == old(remote.events) && MirrorsFor(household) == old(MirrorsFor(household))
      ensures r.Success? ==>
                MirrorsFor(household) == old(MirrorsFor(household))[Events.MirrorId(accounts[0], eventId) := r.value]
      ensures r.Success? ==> exists body ::
                Asks(body, eventId, request, tz)
                && remote.events == old(remote.events)[(accounts[0], eventId) := [StoredAs(body, managed)]]
    {
      if Recurring(request) { return Failure(RecurringRefused); }
      if accounts == [] { return Failure(NoAccount); }
      var body := BuildEventBody(eventId, request, tz);
      var served := remote.InsertEvent((accounts[0], eventId), body, managed);
      if served.None? { return Failure(ApiError); }
      CreatedItem(body, eventId, request, managed, tz);
      LandedIs(MirrorsFor(household), accounts[0], served.value, tz);
      r := LandAnswer(household, accounts[0], served.value, tz);
    }

    /** Etag-checked get, merge and put, then land the answer. */
    method UpdateEvent(household: string, externalId: string, fields: UpdateFields, tz: Zone,
                       meanwhile: seq<Body>, managed: Body)
      returns (r: Result<EventFields, WriteError>)
      requires calendar.repository.Valid()
      modifies remote, calendar.repository
      ensures calendar.repository.Valid()
      ensures OnlyMirrorsOf(household, old(calendar.repository.rows), calendar.repository.rows)
      ensures match Target(accounts, externalId)
              case None => r == Failure(NoAccount) && remote.events == old(remote.events)
                           && MirrorsFor(household) == old(MirrorsFor(household))
              case Some(key) =>
                && Ending(r, remote.StatesOf(key), MirrorsFor(household))
                   == AfterUpdate(old(MirrorsFor(household)), key.0, old(remote.StatesOf(key)), fields, tz,
                                  meanwhile, managed)
                && remote.events - {key} == old(remote.events) - {key}
    {
      var target := AccountOf(externalId);
      if target.None? { return Failure(NoAccount); }
      r := Replace(household, target.value, fields, tz, meanwhile, managed);
    }

    method Replace(household: string, key: EventKey, fields: UpdateFields, tz: Zone, meanwhile: seq<Body>,
                   managed: Body)
      returns (r: Result<EventFields, WriteError>)
      requires calendar.repository.Valid()
      modifies remote, calendar.repository
      ensures calendar.repository.Valid()
      ensures OnlyMirrorsOf(household, old(calendar.repository.rows), calendar.repository.rows)
      ensures Ending(r, remote.StatesOf(key), MirrorsFor(household))
           == AfterUpdate(old(MirrorsFor(household)), key.0, old(remote.StatesOf(key)), fields, tz, meanwhile, managed)
      ensures remote.events - {key} == old(remote.events) - {key}
    {
      var answer := Negotiate(key, fields, tz, meanwhile, managed);
      if answer.Failure? { return Failure(answer.error); }
      r := LandAnswer(household, key.0, answer.value, tz);
    }

    /** Get, merge, and put with the fetched etag. */
    method Negotiate(key: EventKey, fields: UpdateFields, tz: Zone, meanwhile: seq<Body>, managed: Body)
      returns (answer: Result<Body, WriteError>)
      modifies remote
      ensures Exchange(answer, remote.StatesOf(key))
          == Exchanged(old(remote.StatesOf(key)), fields, tz, meanwhile, managed)
      ensures remote.events - {key} == old(remote.events) - {key}
    {
      var existing := remote.GetEvent(key);
      if existing.None? { return Failure(ApiError); }
      var body := MergeEventUpdate(existing.value, fields, tz);
      if body.Failure? { return Failure(BadRequest); }
      remote.Edit(key, meanwhile);
      var served := remote.UpdateEvent(key, body.value, EtagOf(existing.value), managed);
      if served.None? { return Failure(Conflict); }
      answer := Success(served.value);
    }

    /** `_land`: the answer's record through the sync's own path, and read back. */
    method LandAnswer(household: string, account: Account, served: Body, tz: Zone)
      returns (r: Result<EventFields, WriteError>)
      requires calendar.repository.Valid()
      modifies calendar.repository
      ensures calendar.repository.Valid()
      ensures OnlyMirrorsOf(household, old(calendar.repository.rows), calendar.repository.rows)
      ensures (r, MirrorsFor(household)) == Landed(old(MirrorsFor(household)), account, served, tz)
    {
      var record := Events.ToRecord(account, ItemOf(served), tz);
      if record.Failure? { return Failure(NoStart); }
      var _ := calendar.ApplyExternalRecords(household, [record.value]);
      var shown := calendar.GetMirror(household, IdentityOf(record.value));
      r := if shown.None? then Failure(DidNotLand) else Success(shown.value);
    }

    /**
     Delete on Google, and drop the mirror by a tombstone of its own identity; deleting what is
     gone already is a success too, and an API error changes nothing.
     */
    method DeleteEvent(household: string, externalId: string, status: DeleteStatus, served: Body)
      returns (r: Result<bool, WriteError>)
      requires calendar.repository.Valid()
      modifies remote, calendar.repository
      ensures calendar.repository.Valid()
      ensures OnlyMirrorsOf(household, old(calendar.repository.rows), calendar.repository.rows)
      ensures r.Failure? ==> remote.events == old(remote.events) && MirrorsFor(household) == old(MirrorsFor(household))
      ensures r == if Target(accounts, externalId).None? then Failure(NoAccount)
                   else if status.Errored? then Failure(ApiError)
                   else Success(Identity(Events.CONNECTOR_NAME, externalId) in old(MirrorsFor(household)))
      ensures r.Success? ==>
                && MirrorsFor(household) == old(MirrorsFor(household)) - {Identity(Events.CONNECTOR_NAME, externalId)}
                && var key := Target(accounts, externalId).value;
                   remote.events
                   == if status.Deleted? then old(remote.events)[key := old(remote.StatesOf(key)) + [served]]
                      else old(remote.events)
    {
      var target := AccountOf(externalId);
      if target.None? { return Failure(NoAccount); }
      var ok := remote.DeleteEvent(target.value, status, served);
      if !ok { return Failure(ApiError); }
      var removed := Drop(household, externalId);
      r := Success(removed);
    }

    /** Land the tombstone of one identity. */
    method Drop(household: string, externalId: string) returns (removed: bool)
      requires calendar.repository.Valid()
      modifies calendar.repository
      ensures calendar.repository.Valid()
      ensures OnlyMirrorsOf(household, old(calendar.repository.rows), calendar.repository.rows)
      ensures var id := Identity(Events.CONNECTOR_NAME, externalId);
              && MirrorsFor(household) == old(MirrorsFor(household)) - {id}
              && removed == (id in old(MirrorsFor(household)))
    {
      var tombstone := Tombstone(Events.CONNECTOR_NAME, externalId);
      ghost var before := MirrorsFor(household);
      FoldOne(before, tombstone);
      var report := calendar.ApplyExternalRecords(household, [tombstone]);
      removed := report.value.removed == 1;
    }
  }

  /** Where a requested moment shows up in a mirror: its own instant, or the midnight of its own date. */
  function ShownAt(m: Moment, allDay: bool, tz: Zone): Instant {
    if allDay then Midnight(tz, DayOf(m.wall)) else if m.Fixed? then m.wall - m.offset else Utc(tz, m.wall)
  }

  /** What a mirror of a new event holds: the request. */
  function FieldsAsked(request: CreateRequest, tz: Zone): EventFields {
    EventFields(request.title, ShownAt(request.startsAt, request.isAllDay, tz),
                if request.endsAt.Some? then Some(ShownAt(request.endsAt.value, request.isAllDay, tz))
                else if request.isAllDay then Some(Midnight(tz, DayOf(request.startsAt.wall) + 1)) else None,
                request.description, request.location, request.isAllDay, None)
  }

  lemma JsonShows(body: Body, key: Key, m: Moment, allDay: bool, tz: Zone)
    requires Get(body, key) == Some(Json(Aware(m), allDay, tz))
    ensures Events.ParseWhen(ListedWhen(body, key), tz) == (Some(ShownAt(m, allDay, tz)), allDay)
  {
  }

  /** Reading a new event back gives the request. */
  lemma CreatedItem(body: Body, eventId: string, request: CreateRequest, managed: Body, tz: Zone)
    requires Asks(body, eventId, request, tz)
    ensures var item := ItemOf(StoredAs(body, managed));
            item.id == eventId && Events.MirrorOf(item, tz) == Some(FieldsAsked(request, tz))
  {
    var served := StoredAs(body, managed);
    StoredTexts(body, managed);
    AskedTexts(body, eventId, request, tz);
    CreatedTimes(body, eventId, request, served, tz);
  }

  lemma AskedTexts(body: Body, eventId: string, request: CreateRequest, tz: Zone)
    requires Asks(body, eventId, request, tz)
    ensures TextAt(body, Id) == Some(eventId) && TextAt(body, Status) == None
        && TextAt(body, Summary) == Some(request.title)
    ensures TextAt(body, Description) == request.description && TextAt(body, Location) == request.location
  {
    assert Get(body, Id) == Some(Text(eventId)) && Get(body, Status) == None;
    assert Get(body, Summary) == Some(Text(request.title));
    assert Get(body, Description) == TextOf(request.description) && Get(body, Location) == TextOf(request.location);
  }

  lemma StoredTexts(body: Body, managed: Body)
    ensures var served := StoredAs(body, managed);
            && Get(served, GoogleMerge.Start) == Get(body, GoogleMerge.Start) && Get(served, End) == Get(body, End)
            && TextAt(served, Id) == TextAt(body, Id) && TextAt(served, Status) == TextAt(body, Status)
            && TextAt(served, Summary) == TextAt(body, Summary)
            && TextAt(served, Description) == TextAt(body, Description)
            && TextAt(served, Location) == TextAt(body, Location)
  {
    forall key: Key | !ReadOnly(key) ensures Get(StoredAs(body, managed), key) == Get(body, key) {
      Stored(body, managed, key);
    }
  }

  lemma CreatedTimes(body: Body, eventId: string, request: CreateRequest, served: Body, tz: Zone)
    requires Asks(body, eventId, request, tz)
    requires Get(served, GoogleMerge.Start) == Get(body, GoogleMerge.Start) && Get(served, End) == Get(body, End)
    ensures var asked := FieldsAsked(request, tz);
            && Events.ParseWhen(ListedWhen(served, GoogleMerge.Start), tz) == (Some(asked.startsAt), request.isAllDay)
            && Events.ParseWhen(ListedWhen(served, End), tz).0 == asked.endsAt
  {
    JsonShows(served, GoogleMerge.Start, request.startsAt, request.isAllDay, tz);
    if request.endsAt.Some? {
      JsonShows(served, End, request.endsAt.value, request.isAllDay, tz);
    } else if request.isAllDay {
      JsonShows(served, End, Aware(request.startsAt).PlusDay(), true, tz);
      NextDay(request.startsAt.wall);
    }
  }

  lemma NextDay(wall: int)
    ensures DayOf(wall + DAY) == DayOf(wall) + 1
  {
  }

  /** Landing an answer that has a mirror adds exactly that mirror. */
  lemma LandedIs(m: Mirrors, account: Account, served: Body, tz: Zone)
    requires Events.MirrorOf(ItemOf(served), tz).Some?
    ensures var fields := Events.MirrorOf(ItemOf(served), tz).value;
            Landed(m, account, served, tz)
                == (Success(fields), m[Events.MirrorId(account, ItemOf(served).id) := fields])
  {
    FoldOne(m, Events.ToRecord(account, ItemOf(served), tz).value);
  }

  lemma FoldOne(m: Mirrors, r: ExternalRecord)
    ensures Fold(m, [r]) == MirrorFold.Step(Landing(m, Report(0, 0, 0), false), r)
  {
    assert [r][..0] == [];
  }

  /**
   A stored update amends the state it fetched as requested; only the event's own mirror
   changes, and the update succeeds exactly when Google's answer has a mirror, which it shows.
   */
  lemma UpdateShowsWhatGoogleStored(m: Mirrors, account: Account, states: seq<Body>, fields: UpdateFields, tz: Zone,
                                    meanwhile: seq<Body>, managed: Body, id: Identity)
    requires Exchanged(states, fields, tz, meanwhile, managed).answer.Success?
    ensures var end := AfterUpdate(m, account, states, fields, tz, meanwhile, managed);
            var served := end.states[|end.states| - 1];
            var mine := Events.MirrorId(account, ItemOf(states[|states| - 1]).id);
            && end.states == states + meanwhile + [served]
            && Amends(states[|states| - 1], fields, tz, served)
            && (id != mine ==> Lookup(end.mirrors, id) == Lookup(m, id))
            && (end.result.Success? <==> Events.MirrorOf(ItemOf(served), tz).Some?)
            && (end.result.Success? ==> Some(end.result.value) == Events.MirrorOf(ItemOf(served), tz)
                                        && Lookup(end.mirrors, mine) == Some(end.result.value))
  {
    var existing := states[|states| - 1];
    var served := StoredAs(Merged(existing, fields, tz), managed);
    MergedAmends(existing, fields, tz, Id);
    assert Get(served, Id) == Get(existing, Id);
    LandedShows(m, account, served, tz, id);
  }

  lemma LandedShows(m: Mirrors, account: Account, served: Body, tz: Zone, id: Identity)
    ensures var (r, after) := Landed(m, account, served, tz);
            var mine := Events.MirrorId(account, ItemOf(served).id);
            && (id != mine ==> Lookup(after, id) == Lookup(m, id))
            && (r.Success? <==> Events.MirrorOf(ItemOf(served), tz).Some?)
            && (r.Success? ==> Some(r.value) == Events.MirrorOf(ItemOf(served), tz))
            && (r.Success? ==> Lookup(after, mine) == Some(r.value))
  {
    var record := Events.ToRecord(account, ItemOf(served), tz);
    if record.Success? { FoldOne(m, record.value); }
  }

  ghost predicate DistinctEtags(states: seq<Body>) {
    forall i, j | 0 <= i < j < |states| ::
      TextAt(states[j], Etag) !in {None, Some("")} ==> TextAt(states[i], Etag) != TextAt(states[j], Etag)
  }

  /**
   An update of an event that carries an etag conflicts exactly when somebody stored a state
   in between; it then changes no mirror and leaves the others' states in place.
   */
  lemma ConflictIffEdited(m: Mirrors, account: Account, states: seq<Body>, fields: UpdateFields, tz: Zone,
                          meanwhile: seq<Body>, managed: Body)
    requires states != [] && !Refused(states[|states| - 1], fields)
    requires TextAt(states[|states| - 1], Etag) !in {None, Some("")} && DistinctEtags(states + meanwhile)
    ensures var end := AfterUpdate(m, account, states, fields, tz, meanwhile, managed);
            && (end.result == Failure(Conflict) <==> meanwhile != [])
            && (end.result == Failure(Conflict) ==> end.states == states + meanwhile && end.mirrors == m)
  {
    var now := states + meanwhile;
    assert now[|states| - 1] == states[|states| - 1];
    if meanwhile == [] { assert now == states; }
  }

  /** Without an etag, or with an empty one, the put is unconditional: no edit in between is ever noticed. */
  lemma NoEtagNeverConflicts(states: seq<Body>, fields: UpdateFields, tz: Zone, meanwhile: seq<Body>, managed: Body)
    requires states != [] && TextAt(states[|states| - 1], Etag) in {None, Some("")}
    ensures Exchanged(states, fields, tz, meanwhile, managed).answer != Failure(Conflict)
  {
  }

  /** An update is refused exactly when it asks for the other mode while neither it nor the event has a start. */
  lemma UpdateRefusedIff(states: seq<Body>, fields: UpdateFields, tz: Zone, meanwhile: seq<Body>, managed: Body)
    requires states != []
    ensures Exchanged(states, fields, tz, meanwhile, managed).answer == Failure(BadRequest)
       <==> && fields.isAllDay.Some? && fields.startsAt.None? && WhenAt(states[|states| - 1], GoogleMerge.Start).None?
            && fields.isAllDay.value
  {
  }

  /** When Google answers with a cancelled event, the update reports that nothing landed, and its mirror is gone. */
  lemma CancelledAnswerDropsMirror(m: Mirrors, account: Account, served: Body, tz: Zone)
    requires TextAt(served, Status) == Some("cancelled")
    ensures var (r, after) := Landed(m, account, served, tz);
            r == Failure(DidNotLand) && after == m - {Events.MirrorId(account, ItemOf(served).id)}
  {
    var record := Events.ToRecord(account, ItemOf(served), tz).value;
    FoldOne(m, record);
    assert IdentityOf(record) !in m ==> m - {IdentityOf(record)} == m;
  }

  /** Texts, mode and start as requested, and what was not requested as it was. */
  predicate Effected(existing: Body, fields: UpdateFields, tz: Zone, shown: EventFields) {
    && shown.title == (if fields.title.Some? then fields.title.value
                       else if TextAt(existing, Summary).Some? then TextAt(existing, Summary).value else "")
    && shown.description == (if fields.description.Some? then fields.description else TextAt(existing, Description))
    && shown.location == (if fields.location.Some? then fields.location else TextAt(existing, Location))
    && shown.isAllDay == (if fields.isAllDay.Some? then fields.isAllDay.value
                          else IsDate(WhenAt(existing, GoogleMerge.Start)))
    && (fields.startsAt.Some? ==> shown.startsAt == ShownAt(fields.startsAt.value, shown.isAllDay, tz))
    && (fields.startsAt.None? && !Flips(existing, fields) ==>
          Some(shown.startsAt) == Events.ParseWhen(ListedWhen(existing, GoogleMerge.Start), tz).0)
    && (fields.startsAt.None? && Flips(existing, fields) ==>
          match WhenAt(existing, GoogleMerge.Start)
          case None => false
          case Some(DateJson(day)) => shown.startsAt == Midnight(tz, day)
          case Some(TimeJson(wall, _)) => shown.startsAt == Midnight(tz, DayOf(wall)))
    && (!Flips(existing, fields) ==> shown.endsAt == EndShown(existing, fields, tz))
  }

  /** Without a flip the end is the requested one, in the mode of the existing one, or the existing one. */
  function EndShown(existing: Body, fields: UpdateFields, tz: Zone): Option<Instant> {
    if fields.endsAt.Some? then Some(ShownAt(fields.endsAt.value, IsDate(WhenAt(existing, End)), tz))
    else Events.ParseWhen(ListedWhen(existing, End), tz).0
  }

  /** A successful update shows what it asked for. */
  lemma UpdateTakesEffect(m: Mirrors, account: Account, states: seq<Body>, fields: UpdateFields, tz: Zone,
                          meanwhile: seq<Body>, managed: Body)
    requires AfterUpdate(m, account, states, fields, tz, meanwhile, managed).result.Success?
    ensures states != []
    ensures Effected(states[|states| - 1], fields, tz,
                     AfterUpdate(m, account, states, fields, tz, meanwhile, managed).result.value)
  {
    var existing := states[|states| - 1];
    var served := StoredAs(Merged(existing, fields, tz), managed);
    LandedShows(m, account, served, tz, Identity("", ""));
    StoredTakesEffect(existing, fields, tz, managed);
  }

  /** The server keeps what it is sent, save for what it manages. */
  lemma Stored(sent: Body, managed: Body, key: Key)
    requires !ReadOnly(key)
    ensures Get(StoredAs(sent, managed), key) == Get(sent, key)
  {
  }

  lemma StoredTakesEffect(existing: Body, fields: UpdateFields, tz: Zone, managed: Body)
    requires !Refused(existing, fields)
    requires Events.FieldsOf(ItemOf(StoredAs(Merged(existing, fields, tz), managed)), tz).Some?
    ensures Effected(existing, fields, tz,
                     Events.FieldsOf(ItemOf(StoredAs(Merged(existing, fields, tz), managed)), tz).value)
  {
    var merged := Merged(existing, fields, tz);
    var served := StoredAs(merged, managed);
    Stored(merged, managed, Summary);
    Stored(merged, managed, Description);
    Stored(merged, managed, Location);
    Stored(merged, managed, GoogleMerge.Start);
    TextsTakeEffect(existing, fields, tz);
    StartTakesEffect(existing, fields, tz, served);
    Stored(merged, managed, End);
    if !Flips(existing, fields) { EndTakesEffect(existing, fields, tz, served); }
    assert TextAt(served, Summary) == TextAt(merged, Summary);
    assert TextAt(served, Description) == TextAt(merged, Description);
    assert TextAt(served, Location) == TextAt(merged, Location);
  }

  lemma TextsTakeEffect(existing: Body, fields: UpdateFields, tz: Zone)
    requires !Refused(existing, fields)
    ensures var merged := Merged(existing, fields, tz);
            && TextAt(merged, Summary) == (if fields.title.Some? then fields.title else TextAt(existing, Summary))
            && TextAt(merged, Description)
               == (if fields.description.Some? then fields.description else TextAt(existing, Description))
            && TextAt(merged, Location)
               == (if fields.location.Some? then fields.location else TextAt(existing, Location))
  {
  }

  lemma EndTakesEffect(existing: Body, fields: UpdateFields, tz: Zone, served: Body)
    requires !Refused(existing, fields) && !Flips(existing, fields)
    requires Get(served, End) == Get(Merged(existing, fields, tz), End)
    ensures Events.ParseWhen(ListedWhen(served, End), tz).0 == EndShown(existing, fields, tz)
  {
    GetMerged(existing, fields, tz, End);
    if fields.endsAt.Some? {
      JsonShows(served, End, fields.endsAt.value, IsDate(WhenAt(existing, End)), tz);
    }
  }

  lemma StartTakesEffect(existing: Body, fields: UpdateFields, tz: Zone, served: Body)
    requires !Refused(existing, fields)
        && Get(served, GoogleMerge.Start) == Get(Merged(existing, fields, tz), GoogleMerge.Start)
    ensures var (startsAt, allDay) := Events.ParseWhen(ListedWhen(served, GoogleMerge.Start), tz);
            && allDay == (if fields.isAllDay.Some? then fields.isAllDay.value
                          else IsDate(WhenAt(existing, GoogleMerge.Start)))
            && (fields.startsAt.Some? ==> startsAt == Some(ShownAt(fields.startsAt.value, allDay, tz)))
            && (fields.startsAt.None? && !Flips(existing, fields) ==>
                  startsAt == Events.ParseWhen(ListedWhen(existing, GoogleMerge.Start), tz).0)
            && (fields.startsAt.None? && Flips(existing, fields) ==>
                  match WhenAt(existing, GoogleMerge.Start)
                  case None => false
                  case Some(DateJson(day)) => startsAt == Some(Midnight(tz, day))
                  case Some(TimeJson(wall, _)) => startsAt == Some(Midnight(tz, DayOf(wall))))
  {
    if Flips(existing, fields) {
      JsonShows(served, GoogleMerge.Start, FlipStart(existing, fields).value, fields.isAllDay.value, tz);
    } else if fields.startsAt.Some? {
      JsonShows(served, GoogleMerge.Start, fields.startsAt.value, IsDate(WhenAt(existing, GoogleMerge.Start)), tz);
    }
  }

  /** One day on from a shown moment: the next midnight, or a day later on the moment's own clock. */
  ghost predicate OneDay(m: Moment, allDay: bool, tz: Zone, from: Instant, to: Instant) {
    if allDay then
      exists day: int ::
        day * DAY <= m.wall < (day + 1) * DAY && from == Midnight(tz, day) && to == Midnight(tz, day + 1)
    else if m.Fixed? then from == m.wall - m.offset && to == from + DAY
    else from == Utc(tz, m.wall) && to == Utc(tz, m.wall + DAY)
  }

  lemma PlusDayIsOneDay(m: Moment, allDay: bool, tz: Zone)
    ensures OneDay(m, allDay, tz, ShownAt(m, allDay, tz), ShownAt(Aware(m).PlusDay(), allDay, tz))
  {
    NextDay(m.wall);
    var day := DayOf(m.wall);
    assert day * DAY <= m.wall < (day + 1) * DAY;
  }

  /** A flipped event takes the requested mode and lasts one day from its requested or existing start. */
  lemma FlipLastsOneDay(existing: Body, fields: UpdateFields, tz: Zone, managed: Body)
    requires Flips(existing, fields) && !Refused(existing, fields)
    ensures var item := ItemOf(StoredAs(Merged(existing, fields, tz), managed));
            var (startsAt, allDay) := Events.ParseWhen(item.start, tz);
            var (endsAt, _) := Events.ParseWhen(item.end, tz);
            && allDay == fields.isAllDay.value && startsAt.Some? && endsAt.Some?
            && OneDay(FlipStart(existing, fields).value, allDay, tz, startsAt.value, endsAt.value)
  {
    var merged := Merged(existing, fields, tz);
    var served := StoredAs(merged, managed);
    var start, allDay := FlipStart(existing, fields).value, fields.isAllDay.value;
    Stored(merged, managed, GoogleMerge.Start);
    Stored(merged, managed, End);
    JsonShows(served, GoogleMerge.Start, start, allDay, tz);
    JsonShows(served, End, Aware(start).PlusDay(), allDay, tz);
    PlusDayIsOneDay(start, allDay, tz);
  }
}
