/**
 The staging table of WhatsApp events (src/nidaro/connectors/whatsapp/repository.py) and the
 connector that drains it (src/nidaro/connectors/whatsapp/connector.py).
 */
module WhatsAppStaging {
  import opened Wrappers
  import opened CursorRules

  const DEFAULT_BATCH := 500

  datatype Event = Event(
    wamid: string,
    source: string,
    kind: string,
    body: Option<string>,
    sender: Option<string>,
    context: Option<string>,
    forwarded: bool
  )

  /** One staged event; the table numbers its rows. */
  datatype Row = Row(id: nat, household: string, event: Event)

  type Table = seq<Row>

  datatype Message = Message(externalType: string, externalId: string, payload: Event)

  /** The cursor text: a row id, or anything `int` rejects. */
  datatype CursorText = RowId(id: int) | Foreign(text: string)

  predicate Staged(t: Table, wamid: string) {
    exists r <- t :: r.event.wamid == wamid
  }

  /** Ids grow down the table and no wamid is staged twice. */
  ghost predicate WellKept(t: Table, nextId: nat) {
    && (forall r <- t :: r.id < nextId)
    && (forall i, j | 0 <= i < j < |t| :: t[i].id < t[j].id && t[i].event.wamid != t[j].event.wamid)
  }

  predicate Beyond(r: Row, household: string, after: Option<int>) {
    r.household == household && (after.Some? ==> r.id > after.value)
  }

  /** A household's rows beyond an id, in table order. */
  function Pending(t: Table, household: string, after: Option<int>): seq<Row> {
    if t == [] then []
    else
      var last := t[|t| - 1];
      Pending(t[..|t| - 1], household, after) + if Beyond(last, household, after) then [last] else []
  }

  function Take(rows: seq<Row>, limit: nat): seq<Row> {
    if |rows| <= limit then rows else rows[..limit]
  }

  class WhatsAppEventRepository {
    var rows: Table
    var nextId: nat

    ghost predicate Valid() reads this { WellKept(rows, nextId) }

    constructor ()
      ensures Valid() && rows == []
    {
      rows, nextId := [], 0;
    }

    /** `stage`: park one event, unless its wamid is staged already; the sequence moves on either way. */
    method Stage(household: string, event: Event) returns (r: Option<Row>)
      requires Valid()
      modifies this
      ensures Valid() && nextId == old(nextId) + 1
      ensures r == if Staged(old(rows), event.wamid) then None else Some(Row(old(nextId), household, event))
      ensures rows == if r.Some? then old(rows) + [r.value] else old(rows)
    {
      nextId := nextId + 1;
      for i := 0 to |rows|
        invariant forall j | 0 <= j < i :: rows[j].event.wamid != event.wamid
        invariant rows == old(rows)
      {
        if rows[i].event.wamid == event.wamid { return None; }
      }
      var row := Row(nextId - 1, household, event);
      rows := rows + [row];
      r := Some(row);
    }

    /** `unprocessed`: the first `limit` rows of a household beyond an id. */
    method Unprocessed(household: string, after: Option<int>, limit: nat) returns (found: seq<Row>)
      ensures found == Take(Pending(rows, household, after), limit)
    {
      found := [];
      for i := 0 to |rows|
        invariant found == Take(Pending(rows[..i], household, after), limit)
      {
        assert rows[..i + 1][..i] == rows[..i];
        if |found| < limit && Beyond(rows[i], household, after) {
          found := found + [rows[i]];
        }
      }
      assert rows[..|rows|] == rows;
    }
  }

  /** `_record`. */
  function Record(r: Row): Message {
    Message(if r.event.kind == "edit" then "message.edit"
            else if r.event.kind == "revoke" then "message.revoked" else "message",
            r.event.wamid, r.event)
  }

  function Records(rows: seq<Row>): seq<Message> {
    seq(|rows|, i requires 0 <= i < |rows| => Record(rows[i]))
  }

  /** `sync` over a table. */
  function Drain(t: Table, household: string, cursor: Option<CursorText>): Outcome<CursorText, Message> {
    if cursor.Some? && cursor.value.Foreign? then Failure(StaleCursor)
    else
      var batch := Take(Pending(t, household, AfterId(cursor)), DEFAULT_BATCH);
      Success(SyncResult(Records(batch), if batch == [] then None else Some(RowId(batch[|batch| - 1].id))))
  }

  function AfterId(cursor: Option<CursorText>): Option<int> {
    if cursor.Some? && cursor.value.RowId? then Some(cursor.value.id) else None
  }

  class WhatsAppConnector {
    const events: WhatsAppEventRepository

    constructor (events: WhatsAppEventRepository)
      ensures this.events == events
    {
      this.events := events;
    }

    /** Read what lies beyond the cursor; write nothing. */
    method Sync(household: string, cursor: Option<CursorText>) returns (outcome: Outcome<CursorText, Message>)
      ensures outcome == Drain(events.rows, household, cursor)
    {
      if cursor.Some? && cursor.value.Foreign? { return Failure(StaleCursor); }
      var rows := events.Unprocessed(household, AfterId(cursor), DEFAULT_BATCH);
      outcome := Success(SyncResult(Records(rows), if rows == [] then None else Some(RowId(rows[|rows| - 1].id))));
    }
  }
}
