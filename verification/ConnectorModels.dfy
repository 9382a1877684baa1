/**
 The connector contract (src/nidaro/connectors/models.py) and the payload validation that
 every live calendar record passes on its way into the calendar
 (src/nidaro/calendar/schemas.py).
 */
module ConnectorModels {
  import opened Wrappers

  const CALENDAR_EVENT := "calendar_event"

  /** Microseconds since an arbitrary epoch, in UTC. */
  type Instant = int

  /** The writable columns of a mirrored event: what a validated payload dumps to. */
  datatype EventFields = EventFields(
    title: string,
    startsAt: Instant,
    endsAt: Option<Instant>,
    description: Option<string>,
    location: Option<string>,
    isAllDay: bool,
    recurrenceWeekdays: Option<seq<int>>
  )

  /** The payload dictionary of a record, of which only the two mandatory keys can be missing. */
  datatype Payload = Payload(
    title: Option<string>,
    startsAt: Option<Instant>,
    endsAt: Option<Instant>,
    description: Option<string>,
    location: Option<string>,
    isAllDay: bool,
    recurrenceWeekdays: Option<seq<int>>
  )

  const EMPTY_PAYLOAD := Payload(None, None, None, None, None, false, None)

  datatype ExternalRecord = ExternalRecord(
    connector: string,
    externalType: string,
    externalId: string,
    payload: Payload,
    deleted: bool
  )

  /** What makes a mirror unique inside one household. */
  datatype Identity = Identity(connector: string, externalId: string)

  function IdentityOf(r: ExternalRecord): Identity {
    Identity(r.connector, r.externalId)
  }

  /** `check_weekdays`: every listed day lies in 0..6; an absent list passes. */
  predicate ValidWeekdays(days: Option<seq<int>>) {
    days.Some? ==> forall d <- days.value :: 0 <= d < 7
  }

  /** `ExternalEventPayload.model_validate`. */
  function Validate(p: Payload): Result<EventFields, string> {
    if p.title.None? then Failure("title is missing")
    else if p.startsAt.None? then Failure("starts_at is missing")
    else if !ValidWeekdays(p.recurrenceWeekdays) then Failure("recurrence_weekdays must contain integers 0..6")
    else Success(EventFields(p.title.value, p.startsAt.value, p.endsAt, p.description, p.location,
                             p.isAllDay, p.recurrenceWeekdays))
  }

  /** `model_dump`: the payload a connector builds from already decoded fields. */
  function Dump(f: EventFields): Payload {
    Payload(Some(f.title), Some(f.startsAt), f.endsAt, f.description, f.location, f.isAllDay,
            f.recurrenceWeekdays)
  }

  function Tombstone(connector: string, externalId: string): ExternalRecord {
    ExternalRecord(connector, CALENDAR_EVENT, externalId, EMPTY_PAYLOAD, true)
  }
}
