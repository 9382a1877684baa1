/**
 Google events and their translation into connector records
 (`to_external_record`, `parse_when`, src/nidaro/connectors/google_calendar/mapping.py), and a
 Google calendar server as an append-only history of event states.
 */
module GoogleEvents {
  import opened Wrappers
  import opened ConnectorModels
  import opened ExternalIds
  import opened Zones

  const CONNECTOR_NAME := "google_calendar"
  const FULL_SYNC_DAYS := 365

  /** `start` and `end` of an event: missing, a calendar date, or an instant. */
  datatype When = Missing | Date(day: int) | DateTime(instant: Instant)

  datatype Item = Item(
    id: string,
    cancelled: bool,
    summary: Option<string>,
    description: Option<string>,
    location: Option<string>,
    start: When,
    end: When
  )

  /** `parse_when`: a date is pinned to midnight in the household zone. */
  function ParseWhen(w: When, tz: Zone): (Option<Instant>, bool) {
    match w
    case Missing => (None, false)
    case Date(day) => (Some(Midnight(tz, day)), true)
    case DateTime(instant) => (Some(instant), false)
  }

  /** The mirrored fields of a live event, unless it carries no start. */
  function FieldsOf(item: Item, tz: Zone): Option<EventFields> {
    var (startsAt, isAllDay) := ParseWhen(item.start, tz);
    var (endsAt, _) := ParseWhen(item.end, tz);
    if startsAt.None? then None
    else Some(EventFields(if item.summary.Some? then item.summary.value else "", startsAt.value, endsAt,
                          item.description, item.location, isAllDay, None))
  }

  /** `to_external_record`. */
  function ToRecord(account: Account, item: Item, tz: Zone): Result<ExternalRecord, string> {
    var identity := ExternalId(account.email, account.calendarId, item.id);
    if item.cancelled then Success(Tombstone(CONNECTOR_NAME, identity))
    else match FieldsOf(item, tz)
      case None => Failure("event carries no start time")
      case Some(fields) => Success(ExternalRecord(CONNECTOR_NAME, CALENDAR_EVENT, identity, Dump(fields), false))
  }

  function MirrorId(account: Account, eventId: string): Identity {
    Identity(CONNECTOR_NAME, ExternalId(account.email, account.calendarId, eventId))
  }

  /** What a mirror of an event in this state holds. */
  function MirrorOf(item: Item, tz: Zone): Option<EventFields> {
    if item.cancelled then None else FieldsOf(item, tz)
  }

  // ---------------------------------------------------------------------------
  // The server
  // ---------------------------------------------------------------------------

  /** An event of a calendar enters a new state. */
  datatype Edit = Edit(account: Account, item: Item)

  type History = seq<Edit>

  predicate Concerns(e: Edit, account: Account, eventId: string) {
    e.account == account && e.item.id == eventId
  }

  /** The state of an event after the first n edits. */
  function StateAt(hist: History, n: nat, account: Account, eventId: string): Option<Item>
    requires n <= |hist|
  {
    if n == 0 then None
    else if Concerns(hist[n - 1], account, eventId) then Some(hist[n - 1].item)
    else StateAt(hist, n - 1, account, eventId)
  }

  predicate Changed(hist: History, lo: nat, hi: nat, account: Account, eventId: string)
    requires hi <= |hist|
  {
    exists i | lo <= i < hi :: Concerns(hist[i], account, eventId)
  }

  lemma {:induction false} UnchangedStays(hist: History, lo: nat, hi: nat, account: Account, eventId: string)
    requires lo <= hi <= |hist| && !Changed(hist, lo, hi, account, eventId)
    ensures StateAt(hist, lo, account, eventId) == StateAt(hist, hi, account, eventId)
  {
    if lo < hi {
      assert !Concerns(hist[hi - 1], account, eventId);
      UnchangedStays(hist, lo, hi - 1, account, eventId);
    }
  }

  lemma ChangedSplits(hist: History, lo: nat, mid: nat, hi: nat, account: Account, eventId: string)
    requires lo <= mid <= hi <= |hist|
    ensures Changed(hist, lo, hi, account, eventId)
       <==> Changed(hist, lo, mid, account, eventId) || Changed(hist, mid, hi, account, eventId)
  {
  }

  lemma {:induction false} StateInPrefix(hist: History, longer: History, n: nat, account: Account, eventId: string)
    requires n <= |hist| && hist <= longer
    ensures StateAt(hist, n, account, eventId) == StateAt(longer, n, account, eventId)
  {
    if n > 0 { StateInPrefix(hist, longer, n - 1, account, eventId); }
  }

  /** The full sync's lower bound on an event's end: a year back on the household's clock. */
  function TimeMin(tz: Zone, now: Instant): Instant {
    Utc(tz, Local(tz, now) - FULL_SYNC_DAYS * DAY)
  }

  /** It lies a year back, give or take what the zone's offset varies by. */
  lemma HorizonIsAYear(tz: Zone, now: Instant, lo: int, hi: int)
    requires lo <= tz.initial <= hi && forall t <- tz.transitions :: lo <= t.offset <= hi
    ensures var year := 365 * 24 * 60 * 60 * 1_000_000;
            year - (hi - lo) <= now - TimeMin(tz, now) <= year + (hi - lo)
  {
    OffsetWithin(tz, UtcIndex(tz, now, |tz.transitions|), lo, hi);
    OffsetWithin(tz, WallIndex(tz, Local(tz, now) - FULL_SYNC_DAYS * DAY, |tz.transitions|), lo, hi);
  }

  lemma OffsetWithin(tz: Zone, i: nat, lo: int, hi: int)
    requires lo <= tz.initial <= hi && forall t <- tz.transitions :: lo <= t.offset <= hi
    requires i <= |tz.transitions|
    ensures lo <= OffsetBefore(tz, i) <= hi
  {
  }

  /** A live event that a listing bounded below by `timeMin` includes. */
  predicate InHorizon(item: Item, tz: Zone, timeMin: Instant) {
    !item.cancelled &&
    var (endsAt, _) := ParseWhen(if item.end.Missing? then item.start else item.end, tz);
    endsAt.Some? && endsAt.value > timeMin
  }
}
