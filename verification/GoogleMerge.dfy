/**
 The body of an update (`merge_event_update`, src/nidaro/connectors/google_calendar/mapping.py):
 the fetched event with the requested fields written over it and the server-managed ones left
 out, for a full-resource PUT.
 */
module GoogleMerge {
  import opened Wrappers
  import opened Zones

  /** A non-empty `start` or `end` object: a calendar date, or a wall clock reading with its offset. */
  datatype WhenJson = DateJson(day: int) | TimeJson(wall: int, offset: int)

  /**
   A JSON value of an event: `When(None)` is an empty object, `Weekly` the RRULE that repeats on
   these days, `Marker` the mirror-loop marker; everything else is opaque.
   */
  datatype Value =
    | Text(text: string)
    | When(when: Option<WhenJson>)
    | Weekly(days: seq<int>)
    | Guests(emails: seq<string>)
    | Marker
    | Opaque(content: nat)

  /** The keys of an event; `Other` is any key the program never names. */
  datatype Key =
    | Id | Status | Summary | Description | Location | Start | End | Recurs | Attendees | ExtendedProperties
    | Kind | Etag | HtmlLink | Created | Updated | Creator | Organizer | EventType
    | Other(name: string)

  type Body = map<Key, Value>

  /** `READ_ONLY_EVENT_FIELDS`: what the server manages and a merge must not send back. */
  predicate ReadOnly(key: Key) {
    key.Kind? || key.Etag? || key.HtmlLink? || key.Created? || key.Updated? || key.Creator? || key.Organizer?
    || key.EventType?
  }

  /** A `datetime`: without zone, in the household's zone, or at a fixed offset. */
  datatype Moment = Naive(wall: int) | InZone(wall: int) | Fixed(wall: int, offset: int) {
    function PlusDay(): Moment {
      match this
      case Naive(wall) => Naive(wall + DAY)
      case InZone(wall) => InZone(wall + DAY)
      case Fixed(wall, offset) => Fixed(wall + DAY, offset)
    }
  }

  datatype UpdateFields = UpdateFields(
    title: Option<string>,
    description: Option<string>,
    location: Option<string>,
    startsAt: Option<Moment>,
    endsAt: Option<Moment>,
    isAllDay: Option<bool>
  )

  function Get(body: Body, key: Key): Option<Value> {
    if key in body then Some(body[key]) else None
  }

  /** `body.get(key) or {}`, where an empty object counts as none. */
  function WhenAt(body: Body, key: Key): Option<WhenJson> {
    if key in body && body[key].When? then body[key].when else None
  }

  predicate IsDate(w: Option<WhenJson>) {
    w.Some? && w.value.DateJson?
  }

  /** `_aware`. */
  function Aware(m: Moment): Moment {
    if m.Naive? then InZone(m.wall) else m
  }

  /** `_when_json` of an aware moment: the date its own clock shows, or its ISO form. */
  function Json(m: Moment, allDay: bool, tz: Zone): Value {
    When(Some(if allDay then DateJson(DayOf(m.wall))
              else TimeJson(m.wall, if m.Fixed? then m.offset else m.wall - Utc(tz, m.wall))))
  }

  /** `_existing_start`. */
  function ExistingStart(existing: Body): Option<Moment> {
    match WhenAt(existing, Start)
    case None => None
    case Some(DateJson(day)) => Some(InZone(day * DAY))
    case Some(TimeJson(wall, offset)) => Some(Fixed(wall, offset))
  }

  // ---------------------------------------------------------------------------
  // What an update asks for, key by key
  // ---------------------------------------------------------------------------

  /** The request turns a timed event into an all-day one, or back. */
  predicate Flips(existing: Body, fields: UpdateFields) {
    fields.isAllDay.Some? && fields.isAllDay.value != IsDate(WhenAt(existing, Start))
  }

  /** Where a flipped event starts. */
  function FlipStart(existing: Body, fields: UpdateFields): Option<Moment> {
    if fields.startsAt.Some? then fields.startsAt else ExistingStart(existing)
  }

  /** A flip with no start to go by, requested or existing. */
  predicate Refused(existing: Body, fields: UpdateFields) {
    Flips(existing, fields) && FlipStart(existing, fields).None?
  }

  /** The request decides what this key holds. */
  predicate Governs(existing: Body, fields: UpdateFields, key: Key) {
    match key
    case Summary => fields.title.Some?
    case Description => fields.description.Some?
    case Location => fields.location.Some?
    case Start => Flips(existing, fields) || fields.startsAt.Some?
    case End => Flips(existing, fields) || fields.endsAt.Some?
    case _ => false
  }

  /**
   The requested value of a governed key. A flip decides start and end together, the end one
   day after the start whatever end was asked for; otherwise each keeps its own mode.
   */
  function Requested(existing: Body, fields: UpdateFields, tz: Zone, key: Key): Value
    requires Governs(existing, fields, key) && !Refused(existing, fields)
  {
    if key == Summary then Text(fields.title.value)
    else if key == Description then Text(fields.description.value)
    else if key == Location then Text(fields.location.value)
    else if Flips(existing, fields) then
      var start := Aware(FlipStart(existing, fields).value);
      Json(if key == Start then start else start.PlusDay(), fields.isAllDay.value, tz)
    else if key == Start then Json(Aware(fields.startsAt.value), IsDate(WhenAt(existing, Start)), tz)
    else Json(Aware(fields.endsAt.value), IsDate(WhenAt(existing, End)), tz)
  }

  /** `to` differs from `existing` in the governed keys, as requested, and in server-managed ones. */
  ghost predicate Amends(existing: Body, fields: UpdateFields, tz: Zone, to: Body)
    requires !Refused(existing, fields)
  {
    forall key: Key | !ReadOnly(key) ::
      Get(to, key) == if Governs(existing, fields, key) then Some(Requested(existing, fields, tz, key))
                      else Get(existing, key)
  }

  /** What a key holds after the merge. */
  function MergedValue(existing: Body, fields: UpdateFields, tz: Zone, key: Key): Option<Value>
    requires !Refused(existing, fields)
  {
    if Governs(existing, fields, key) then Some(Requested(existing, fields, tz, key))
    else if ReadOnly(key) then None else Get(existing, key)
  }

  /** The merged body: the fetched one without its server-managed keys, amended as requested. */
  function Merged(existing: Body, fields: UpdateFields, tz: Zone): Body
    requires !Refused(existing, fields)
  {
    map key | key in existing.Keys + {Summary, Description, Location, Start, End}
              && MergedValue(existing, fields, tz, key).Some? :: MergedValue(existing, fields, tz, key).value
  }

  lemma GetMerged(existing: Body, fields: UpdateFields, tz: Zone, key: Key)
    requires !Refused(existing, fields)
    ensures Get(Merged(existing, fields, tz), key) == MergedValue(existing, fields, tz, key)
  {
  }

  /**
   What a PUT sends back of the fetched event: none of the eight keys the server manages, and of
   the keys no request can name, whatever they hold, every one as it was.
   */
  lemma SentBack(existing: Body, fields: UpdateFields, tz: Zone, key: Key)
    requires !Refused(existing, fields)
    ensures key in {Kind, Etag, HtmlLink, Created, Updated, Creator, Organizer, EventType} ==>
              key !in Merged(existing, fields, tz)
    ensures key !in {Kind, Etag, HtmlLink, Created, Updated, Creator, Organizer, EventType}
            && key !in {Summary, Description, Location, Start, End} ==>
              Get(Merged(existing, fields, tz), key) == Get(existing, key)
  {
    GetMerged(existing, fields, tz, key);
  }

  lemma MergedAmends(existing: Body, fields: UpdateFields, tz: Zone, key: Key)
    requires !Refused(existing, fields)
    ensures ReadOnly(key) ==> key !in Merged(existing, fields, tz)
    ensures Amends(existing, fields, tz, Merged(existing, fields, tz))
  {
    forall k { GetMerged(existing, fields, tz, k); }
  }

  lemma SameValues(a: Body, b: Body)
    requires forall key {:trigger Get(a, key)} :: Get(a, key) == Get(b, key)
    ensures a == b
  {
    forall key ensures key in a <==> key in b {
      assert Get(a, key) == Get(b, key);
    }
    forall key | key in a ensures a[key] == b[key] {
      assert Get(a, key) == Get(b, key);
    }
  }

  /** `body[key] = value` when there is a value. */
  function With(body: Body, key: Key, value: Option<Value>): Body {
    if value.Some? then body[key := value.value] else body
  }

  function TextOf(text: Option<string>): Option<Value> {
    if text.Some? then Some(Text(text.value)) else None
  }

  /** A body with the requested texts and times over the stripped original is the merged one. */
  lemma Assembled(existing: Body, fields: UpdateFields, tz: Zone, body: Body)
    requires !Refused(existing, fields)
    requires forall key: Key | !key.Start? && !key.End? :: Get(body, key) == AskedText(existing, fields, key)
    requires Get(body, Start)
          == if Governs(existing, fields, Start) then Some(Requested(existing, fields, tz, Start))
              else Get(existing, Start)
    requires Get(body, End)
          == if Governs(existing, fields, End) then Some(Requested(existing, fields, tz, End)) else Get(existing, End)
    ensures body == Merged(existing, fields, tz)
  {
    forall key {:trigger Get(body, key)} ensures Get(body, key) == Get(Merged(existing, fields, tz), key) {
      if !key.Start? && !key.End? { assert Get(body, key) == AskedText(existing, fields, key); }
    }
    SameValues(body, Merged(existing, fields, tz));
  }

  /** What a key other than start and end holds after the merge. */
  function AskedText(existing: Body, fields: UpdateFields, key: Key): Option<Value> {
    if key.Summary? && fields.title.Some? then Some(Text(fields.title.value))
    else if key.Description? && fields.description.Some? then Some(Text(fields.description.value))
    else if key.Location? && fields.location.Some? then Some(Text(fields.location.value))
    else if ReadOnly(key) then None else Get(existing, key)
  }

  /** The fetched body without its server-managed keys, the requested texts written over it. */
  method WriteTexts(existing: Body, fields: UpdateFields) returns (body: Body)
    ensures forall key {:trigger Get(body, key)} :: Get(body, key) == AskedText(existing, fields, key)
  {
    body := map key | key in existing && !ReadOnly(key) :: existing[key];
    body := With(body, Summary, TextOf(fields.title));
    body := With(body, Description, TextOf(fields.description));
    body := With(body, Location, TextOf(fields.location));
  }

  /** `merge_event_update`: the fetched body rewritten key by key. */
  method MergeEventUpdate(existing: Body, fields: UpdateFields, tz: Zone) returns (r: Result<Body, string>)
    ensures r == if Refused(existing, fields) then Failure("changing all-day mode requires starts_at")
                 else Success(Merged(existing, fields, tz))
  {
    var body := WriteTexts(existing, fields);
    ghost var texts := body;
    var currentlyAllDay := IsDate(WhenAt(existing, Start));
    if fields.isAllDay.Some? && fields.isAllDay.value != currentlyAllDay {
      var startsAt := if fields.startsAt.Some? then fields.startsAt else ExistingStart(existing);
      if startsAt.None? { return Failure("changing all-day mode requires starts_at"); }
      body := body[Start := Json(Aware(startsAt.value), fields.isAllDay.value, tz)];
      body := body[End := Json(Aware(startsAt.value).PlusDay(), fields.isAllDay.value, tz)];
    } else {
      assert Get(texts, Start) == Get(existing, Start) && Get(texts, End) == Get(existing, End);
      if fields.startsAt.Some? {
        body := body[Start := Json(Aware(fields.startsAt.value), IsDate(WhenAt(body, Start)), tz)];
      }
      if fields.endsAt.Some? {
        body := body[End := Json(Aware(fields.endsAt.value), IsDate(WhenAt(body, End)), tz)];
      }
    }
    assert forall key: Key | !key.Start? && !key.End? :: Get(body, key) == Get(texts, key);
    Assembled(existing, fields, tz, body);
    r := Success(body);
  }

  // ---------------------------------------------------------------------------
  // New events
  // ---------------------------------------------------------------------------

  /** A request to create an event, its weekdays already validated to 0..6. */
  datatype CreateRequest = CreateRequest(
    title: string,
    startsAt: Moment,
    endsAt: Option<Moment>,
    description: Option<string>,
    location: Option<string>,
    isAllDay: bool,
    recurrenceWeekdays: Option<seq<int>>,
    attendees: seq<string>
  )

  predicate Recurring(request: CreateRequest) {
    request.recurrenceWeekdays.Some? && request.recurrenceWeekdays.value != []
  }

  /** What a new event's body holds under each key. */
  function Asked(eventId: string, request: CreateRequest, tz: Zone, key: Key): Option<Value> {
    match key
    case Id => Some(Text(eventId))
    case Summary => Some(Text(request.title))
    case Start => Some(Json(Aware(request.startsAt), request.isAllDay, tz))
    case End =>
      if request.endsAt.Some? then Some(Json(Aware(request.endsAt.value), request.isAllDay, tz))
      else if request.isAllDay then Some(Json(Aware(request.startsAt).PlusDay(), true, tz))
      else None
    case ExtendedProperties => Some(Marker)
    case _ => AskedBeside(request, key)
  }

  /** A body that asks for exactly this event: the request and the mirror-loop marker, and no more. */
  ghost predicate Asks(body: Body, eventId: string, request: CreateRequest, tz: Zone) {
    forall key {:trigger Get(body, key)} :: Get(body, key) == Asked(eventId, request, tz, key)
  }

  /** A key every new event fills, as far as its time is concerned. */
  predicate Basic(key: Key) {
    key.Id? || key.Summary? || key.Start? || key.End? || key.ExtendedProperties?
  }

  /** `build_event_body`: an all-day event without an end gets the next day as its exclusive one. */
  method BuildEventBody(eventId: string, request: CreateRequest, tz: Zone) returns (body: Body)
    ensures Asks(body, eventId, request, tz)
  {
    body := map[Id := Text(eventId), Summary := Text(request.title),
                Start := Json(Aware(request.startsAt), request.isAllDay, tz), ExtendedProperties := Marker];
    if request.endsAt.Some? {
      body := body[End := Json(Aware(request.endsAt.value), request.isAllDay, tz)];
    } else if request.isAllDay {
      var day := DayOf(Aware(request.startsAt).wall) + 1;
      assert DayOf(Aware(request.startsAt).wall + DAY) == day;
      body := body[End := When(Some(DateJson(day)))];
    }
    ghost var basic := body;
    assert forall key {:trigger Get(basic, key)} ::
        Get(basic, key) == if Basic(key) then Asked(eventId, request, tz, key) else None;
    body := FillOptional(body, request);
    forall key {:trigger Get(body, key)} ensures Get(body, key) == Asked(eventId, request, tz, key) {
      assert Get(basic, key) == if Basic(key) then Asked(eventId, request, tz, key) else None;
    }
  }

  /** The keys a new event fills only on request. */
  function AskedBeside(request: CreateRequest, key: Key): Option<Value> {
    match key
    case Description => TextOf(request.description)
    case Location => TextOf(request.location)
    case Recurs => if Recurring(request) then Some(Weekly(request.recurrenceWeekdays.value)) else None
    case Attendees => if request.attendees != [] then Some(Guests(request.attendees)) else None
    case _ => None
  }

  method FillOptional(basic: Body, request: CreateRequest) returns (body: Body)
    ensures forall key {:trigger Get(body, key)} ::
              Get(body, key) == if AskedBeside(request, key).Some? then AskedBeside(request, key) else Get(basic, key)
  {
    body := With(basic, Description, TextOf(request.description));
    body := With(body, Location, TextOf(request.location));
    if Recurring(request) { body := body[Recurs := Weekly(request.recurrenceWeekdays.value)]; }
    if request.attendees != [] { body := body[Attendees := Guests(request.attendees)]; }
  }

  predicate Invites(body: Body, email: string) {
    var guests := Get(body, Attendees);
    guests.Some? && guests.value.Guests? && email in guests.value.emails
  }

  predicate RepeatsOn(body: Body, day: int) {
    var rule := Get(body, Recurs);
    rule.Some? && rule.value.Weekly? && day in rule.value.days
  }

  /** A new event's body invites exactly the attendees, repeats on exactly the weekdays and carries the marker. */
  lemma NewEventReachesEveryone(body: Body, eventId: string, request: CreateRequest, tz: Zone, email: string, day: int)
    requires Asks(body, eventId, request, tz)
    ensures Invites(body, email) <==> email in request.attendees
    ensures RepeatsOn(body, day) <==> request.recurrenceWeekdays.Some? && day in request.recurrenceWeekdays.value
    ensures Get(body, ExtendedProperties) == Some(Marker)
  {
  }

  // ---------------------------------------------------------------------------
  // All-day mode
  // ---------------------------------------------------------------------------

  /** Start and end are not one a date and the other a time. */
  predicate ModesAgree(body: Body) {
    var start, end := WhenAt(body, Start), WhenAt(body, End);
    start.Some? && end.Some? ==> start.value.DateJson? == end.value.DateJson?
  }

  /** A requested start or end takes timed form because the event has none, beside an all-day other. */
  predicate MixesIn(existing: Body, fields: UpdateFields) {
    var start, end := WhenAt(existing, Start), WhenAt(existing, End);
    || (fields.endsAt.Some? && end.None? && IsDate(start))
    || (fields.startsAt.Some? && start.None? && IsDate(end))
  }

  /** An update leaves start and end in one mode exactly when it flips, or they were and none is mixed in. */
  lemma ModesAgreeIff(existing: Body, fields: UpdateFields, tz: Zone)
    requires !Refused(existing, fields)
    ensures ModesAgree(Merged(existing, fields, tz))
       <==> Flips(existing, fields) || (ModesAgree(existing) && !MixesIn(existing, fields))
  {
    MergedAmends(existing, fields, tz, Start);
    var merged := Merged(existing, fields, tz);
    assert Get(merged, Start) == Get(existing, Start) || Governs(existing, fields, Start);
    assert Get(merged, End) == Get(existing, End) || Governs(existing, fields, End);
  }

  /** A request for a mode is met, and one for none leaves the mode alone, unless there was no start at all. */
  lemma ModeAsRequested(existing: Body, fields: UpdateFields, tz: Zone)
    requires !Refused(existing, fields)
    ensures IsDate(WhenAt(Merged(existing, fields, tz), Start))
         == if fields.isAllDay.Some? then fields.isAllDay.value else IsDate(WhenAt(existing, Start))
  {
    MergedAmends(existing, fields, tz, Start);
    assert Get(Merged(existing, fields, tz), Start) == Get(existing, Start)
           || Governs(existing, fields, Start);
  }

  /** The end asked for with a flip is dropped: the flip's own end is written instead. */
  predicate DropsEnd(existing: Body, fields: UpdateFields, tz: Zone)
    requires !Refused(existing, fields)
  {
    Flips(existing, fields) && fields.endsAt.Some?
    && Requested(existing, fields, tz, End) != Json(Aware(fields.endsAt.value), fields.isAllDay.value, tz)
  }

  /** Making the same request again on its own result changes nothing exactly when no end was dropped. */
  lemma RepeatIsIdempotentIff(existing: Body, fields: UpdateFields, tz: Zone)
    requires !Refused(existing, fields)
    ensures var once := Merged(existing, fields, tz);
            && !Flips(once, fields)
            && (Merged(once, fields, tz) == once <==> !DropsEnd(existing, fields, tz))
  {
    var once := Merged(existing, fields, tz);
    ModeAsRequested(existing, fields, tz);
    var twice := Merged(once, fields, tz);
    forall key {:trigger Get(twice, key)} | key != End ensures Get(twice, key) == Get(once, key) {
      RepeatAt(existing, fields, tz, key);
    }
    RepeatAtEnd(existing, fields, tz);
    if !DropsEnd(existing, fields, tz) { SameValues(twice, once); }
  }

  lemma RepeatAt(existing: Body, fields: UpdateFields, tz: Zone, key: Key)
    requires !Refused(existing, fields) && key != End
    requires !Flips(Merged(existing, fields, tz), fields)
    ensures var once := Merged(existing, fields, tz);
            Get(Merged(once, fields, tz), key) == Get(once, key)
  {
    GetMerged(existing, fields, tz, key);
    GetMerged(Merged(existing, fields, tz), fields, tz, key);
    if key == Start { RepeatAtStart(existing, fields, tz); }
  }

  lemma RepeatAtStart(existing: Body, fields: UpdateFields, tz: Zone)
    requires !Refused(existing, fields) && !Flips(Merged(existing, fields, tz), fields)
    ensures var once := Merged(existing, fields, tz);
            Get(Merged(once, fields, tz), Start) == Get(once, Start)
  {
  }

  lemma RepeatAtEnd(existing: Body, fields: UpdateFields, tz: Zone)
    requires !Refused(existing, fields) && !Flips(Merged(existing, fields, tz), fields)
    ensures var once := Merged(existing, fields, tz);
            Get(Merged(once, fields, tz), End) == Get(once, End) <==> !DropsEnd(existing, fields, tz)
  {
  }
}
