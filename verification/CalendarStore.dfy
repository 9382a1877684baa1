/**
 The events table and the service that lands connector batches in it
 (src/nidaro/calendar/repository.py, src/nidaro/calendar/service.py), proved to refine the
 fold of `MirrorFold` on the map of one household's mirrors.
 */
module CalendarStore {
  import opened Wrappers
  import opened ConnectorModels
  import opened MirrorFold

  /** One row of the events table; a human-created event has no identity. */
  datatype EventRow = EventRow(
    id: nat,
    household: string,
    identity: Option<Identity>,
    fields: EventFields,
    status: string,
    participants: seq<nat>
  )

  predicate IsMirror(r: EventRow, household: string, id: Identity) {
    r.household == household && r.identity == Some(id)
  }

  /** The partial unique index: one mirror per household and identity. */
  ghost predicate OneMirrorEach(rows: seq<EventRow>) {
    forall i, j | 0 <= i < j < |rows| ::
      rows[i].identity.Some? ==> !IsMirror(rows[j], rows[i].household, rows[i].identity.value)
  }

  function MirrorIds(rows: seq<EventRow>, household: string): set<Identity> {
    set r | r in rows && r.household == household && r.identity.Some? :: r.identity.value
  }

  /** Position of the first mirror row of an identity, |rows| when there is none. */
  function Position(rows: seq<EventRow>, household: string, id: Identity): (k: nat)
    ensures k <= |rows|
    ensures k < |rows| ==> IsMirror(rows[k], household, id)
    ensures forall i | 0 <= i < k :: !IsMirror(rows[i], household, id)
  {
    if rows == [] then 0
    else if IsMirror(rows[0], household, id) then 0
    else 1 + Position(rows[1..], household, id)
  }

  /** The mirrors of one household as a plain map. */
  function MirrorsOf(rows: seq<EventRow>, household: string): Mirrors {
    map id | id in MirrorIds(rows, household) && Position(rows, household, id) < |rows| ::
      rows[Position(rows, household, id)].fields
  }

  lemma MirrorAt(rows: seq<EventRow>, household: string, id: Identity, k: nat)
    requires OneMirrorEach(rows)
    requires k < |rows| && IsMirror(rows[k], household, id)
    ensures Position(rows, household, id) == k
    ensures Lookup(MirrorsOf(rows, household), id) == Some(rows[k].fields)
  {
    assert rows[k] in rows;
  }

  lemma NoMirror(rows: seq<EventRow>, household: string, id: Identity)
    requires forall i | 0 <= i < |rows| :: !IsMirror(rows[i], household, id)
    ensures Lookup(MirrorsOf(rows, household), id) == None
  {
  }

  /** Rewriting the fields of a row rewrites that one mirror. */
  lemma MirrorsAfterRewrite(rows: seq<EventRow>, k: nat, fields: EventFields, household: string)
    requires OneMirrorEach(rows) && k < |rows| && rows[k].identity.Some?
    ensures OneMirrorEach(rows[k := rows[k].(fields := fields)])
    ensures MirrorsOf(rows[k := rows[k].(fields := fields)], household)
         == if rows[k].household == household
            then MirrorsOf(rows, household)[rows[k].identity.value := fields]
            else MirrorsOf(rows, household)
  {
    var after := rows[k := rows[k].(fields := fields)];
    var old' := MirrorsOf(rows, household);
    var want := if rows[k].household == household then old'[rows[k].identity.value := fields] else old';
    forall id ensures Lookup(MirrorsOf(after, household), id) == Lookup(want, id) {
      var p := Position(rows, household, id);
      if p < |rows| {
        MirrorAt(rows, household, id, p);
        assert IsMirror(after[p], household, id);
        MirrorAt(after, household, id, p);
        if rows[k].household == household && rows[k].identity.value == id {
          MirrorAt(rows, household, id, k);
        }
      } else {
        NoMirror(rows, household, id);
        NoMirror(after, household, id);
      }
    }
    SameLookups(MirrorsOf(after, household), want);
  }

  lemma MirrorsAfterInsert(rows: seq<EventRow>, row: EventRow, household: string)
    requires OneMirrorEach(rows) && row.identity.Some?
    requires forall r <- rows :: !IsMirror(r, row.household, row.identity.value)
    ensures OneMirrorEach(rows + [row])
    ensures MirrorsOf(rows + [row], household)
         == if row.household == household
            then MirrorsOf(rows, household)[row.identity.value := row.fields]
            else MirrorsOf(rows, household)
  {
    var after := rows + [row];
    forall i, j | 0 <= i < j < |after| && after[i].identity.Some?
      ensures !IsMirror(after[j], after[i].household, after[i].identity.value)
    {
      if j == |rows| { assert rows[i] in rows; }
    }
    var want := if row.household == household
                then MirrorsOf(rows, household)[row.identity.value := row.fields]
                else MirrorsOf(rows, household);
    forall id ensures Lookup(MirrorsOf(after, household), id) == Lookup(want, id) {
      var p := Position(rows, household, id);
      if p < |rows| {
        assert rows[p] in rows;
        MirrorAt(rows, household, id, p);
        MirrorAt(after, household, id, p);
      } else {
        NoMirror(rows, household, id);
        if IsMirror(row, household, id) {
          MirrorAt(after, household, id, |rows|);
        } else {
          NoMirror(after, household, id);
        }
      }
    }
    SameLookups(MirrorsOf(after, household), want);
  }

  lemma MirrorsAfterDelete(rows: seq<EventRow>, k: nat, household: string)
    requires OneMirrorEach(rows) && k < |rows| && rows[k].identity.Some?
    ensures OneMirrorEach(rows[..k] + rows[k + 1..])
    ensures MirrorsOf(rows[..k] + rows[k + 1..], household)
         == if rows[k].household == household
            then MirrorsOf(rows, household) - {rows[k].identity.value}
            else MirrorsOf(rows, household)
  {
    var after := rows[..k] + rows[k + 1..];
    var old' := MirrorsOf(rows, household);
    var want := if rows[k].household == household then old' - {rows[k].identity.value} else old';
    forall id ensures Lookup(MirrorsOf(after, household), id) == Lookup(want, id) {
      var p := Position(rows, household, id);
      if p == k {
        assert IsMirror(rows[k], household, id);
        NoMirror(after, household, id);
      } else if p < |rows| {
        MirrorAt(rows, household, id, p);
        MirrorAt(after, household, id, if p < k then p else p - 1);
      } else {
        NoMirror(rows, household, id);
        NoMirror(after, household, id);
      }
    }
    SameLookups(MirrorsOf(after, household), want);
  }

  /** The rows no connector owns, in table order. */
  function HumanRows(rows: seq<EventRow>): seq<EventRow> {
    if rows == [] then []
    else HumanRows(rows[..|rows| - 1]) + if rows[|rows| - 1].identity.None? then [rows[|rows| - 1]] else []
  }

  lemma {:induction false} HumanRowsConcat(a: seq<EventRow>, b: seq<EventRow>)
    ensures HumanRows(a + b) == HumanRows(a) + HumanRows(b)
  {
    if b == [] {
      assert a + b == a;
    } else {
      assert (a + b)[..|a + b| - 1] == a + b[..|b| - 1];
      HumanRowsConcat(a, b[..|b| - 1]);
    }
  }

  lemma HumanRowsAround(a: seq<EventRow>, row: EventRow, b: seq<EventRow>)
    requires row.identity.Some?
    ensures HumanRows(a + [row] + b) == HumanRows(a + b)
  {
    HumanRowsConcat(a + [row], b);
    HumanRowsConcat(a, [row]);
    HumanRowsConcat(a, b);
  }

  lemma HumanRowsUntouched(rows: seq<EventRow>, k: nat, row: EventRow)
    requires k < |rows| && rows[k].identity.Some? && row.identity.Some?
    ensures HumanRows(rows[k := row]) == HumanRows(rows)
    ensures HumanRows(rows[..k] + rows[k + 1..]) == HumanRows(rows)
  {
    HumanRowsAround(rows[..k], row, rows[k + 1..]);
    HumanRowsAround(rows[..k], rows[k], rows[k + 1..]);
    assert rows[k := row] == rows[..k] + [row] + rows[k + 1..];
    assert rows == rows[..k] + [rows[k]] + rows[k + 1..];
  }

  /** Nothing but the mirrors of `household` differs between two states of the table. */
  ghost predicate OnlyMirrorsOf(household: string, before: seq<EventRow>, after: seq<EventRow>) {
    && HumanRows(after) == HumanRows(before)
    && forall h | h != household :: MirrorsOf(after, h) == MirrorsOf(before, h)
  }

  /** A scan that stops inside the table has found the mirror; one that runs off it has found none. */
  lemma {:induction false} PositionIsLookup(rows: seq<EventRow>, household: string, id: Identity)
    requires OneMirrorEach(rows)
    ensures var k := Position(rows, household, id);
            && Lookup(MirrorsOf(rows, household), id) == (if k < |rows| then Some(rows[k].fields) else None)
            && (id in MirrorsOf(rows, household) <==> k < |rows|)
  {
    var k := Position(rows, household, id);
    if k < |rows| { MirrorAt(rows, household, id, k); } else { NoMirror(rows, household, id); }
  }

  lemma InsertRefines(rows: seq<EventRow>, row: EventRow)
    requires OneMirrorEach(rows) && row.identity.Some?
    requires forall r <- rows :: !IsMirror(r, row.household, row.identity.value)
    ensures OneMirrorEach(rows + [row]) && OnlyMirrorsOf(row.household, rows, rows + [row])
    ensures MirrorsOf(rows + [row], row.household)
         == MirrorsOf(rows, row.household)[row.identity.value := row.fields]
  {
    MirrorsAfterInsert(rows, row, row.household);
    forall h { MirrorsAfterInsert(rows, row, h); }
    HumanRowsConcat(rows, [row]);
  }

  lemma RewriteRefines(rows: seq<EventRow>, k: nat, fields: EventFields)
    requires OneMirrorEach(rows) && k < |rows| && rows[k].identity.Some?
    ensures var after := rows[k := rows[k].(fields := fields)];
            && OneMirrorEach(after) && OnlyMirrorsOf(rows[k].household, rows, after)
            && MirrorsOf(after, rows[k].household)
               == MirrorsOf(rows, rows[k].household)[rows[k].identity.value := fields]
  {
    MirrorsAfterRewrite(rows, k, fields, rows[k].household);
    forall h { MirrorsAfterRewrite(rows, k, fields, h); }
    HumanRowsUntouched(rows, k, rows[k].(fields := fields));
  }

  lemma DeleteRefines(rows: seq<EventRow>, k: nat)
    requires OneMirrorEach(rows) && k < |rows| && rows[k].identity.Some?
    ensures var after := rows[..k] + rows[k + 1..];
            && OneMirrorEach(after) && OnlyMirrorsOf(rows[k].household, rows, after)
            && MirrorsOf(after, rows[k].household)
               == MirrorsOf(rows, rows[k].household) - {rows[k].identity.value}
  {
    MirrorsAfterDelete(rows, k, rows[k].household);
    forall h { MirrorsAfterDelete(rows, k, h); }
    HumanRowsUntouched(rows, k, rows[k]);
  }

  class CalendarRepository {
    var rows: seq<EventRow>
    var nextId: nat

    ghost predicate Valid() reads this {
      OneMirrorEach(rows) && forall r <- rows :: r.id < nextId
    }

    constructor ()
      ensures Valid() && rows == []
    {
      rows, nextId := [], 0;
    }

    /** `_mirror_row`: scan for the row of one identity. */
    method FindMirror(household: string, id: Identity) returns (k: nat)
      ensures k == Position(rows, household, id)
    {
      k := 0;
      while k < |rows| && !IsMirror(rows[k], household, id)
        invariant k <= |rows|
        invariant forall i | 0 <= i < k :: !IsMirror(rows[i], household, id)
      {
        k := k + 1;
      }
    }

    /**
     Insert or rewrite the mirror of one item. A rewrite keeps the row's id, status and
     participants; an insert takes a fresh id and status "scheduled"; no other row changes.
     */
    method UpsertMirror(household: string, id: Identity, fields: EventFields)
      requires Valid()
      modifies this
      ensures Valid()
      ensures MirrorsOf(rows, household) == old(MirrorsOf(rows, household))[id := fields]
      ensures OnlyMirrorsOf(household, old(rows), rows)
      ensures var k := Position(old(rows), household, id);
              rows == if k < |old(rows)| then old(rows)[k := old(rows)[k].(fields := fields)]
                      else old(rows) + [EventRow(old(nextId), household, Some(id), fields, "scheduled", [])]
    {
      var k := FindMirror(household, id);
      if k == |rows| {
        var row := EventRow(nextId, household, Some(id), fields, "scheduled", []);
        InsertRefines(rows, row);
        rows := rows + [row];
        nextId := nextId + 1;
      } else {
        RewriteRefines(rows, k, fields);
        rows := rows[k := rows[k].(fields := fields)];
      }
    }

    /** Drop the mirror of one item; false, and no change, when there is none. */
    method RemoveMirror(household: string, id: Identity) returns (found: bool)
      requires Valid()
      modifies this
      ensures Valid()
      ensures found == (id in old(MirrorsOf(rows, household)))
      ensures MirrorsOf(rows, household) == old(MirrorsOf(rows, household)) - {id}
      ensures OnlyMirrorsOf(household, old(rows), rows)
      ensures var k := Position(old(rows), household, id);
              rows == if k < |old(rows)| then old(rows)[..k] + old(rows)[k + 1..] else old(rows)
      ensures nextId == old(nextId)
    {
      var k := FindMirror(household, id);
      PositionIsLookup(rows, household, id);
      found := k < |rows|;
      if found {
        DeleteRefines(rows, k);
        rows := rows[..k] + rows[k + 1..];
      } else {
        assert MirrorsOf(rows, household) - {id} == MirrorsOf(rows, household);
      }
    }
  }

  class CalendarService {
    const repository: CalendarRepository

    constructor (repository: CalendarRepository)
      ensures this.repository == repository
    {
      this.repository := repository;
    }

    /**
     Land a connector batch: exactly the fold, on the mirrors of this household only. A
     malformed live payload raises with the records before it already committed.
     */
    method ApplyExternalRecords(household: string, records: seq<ExternalRecord>)
      returns (r: Result<Report, string>)
      requires repository.Valid()
      modifies repository
      ensures repository.Valid()
      ensures var landing := Fold(old(MirrorsOf(repository.rows, household)), records);
              && MirrorsOf(repository.rows, household) == landing.mirrors
              && r.Failure? == landing.aborted
              && (r.Success? ==> r.value == landing.report)
      ensures OnlyMirrorsOf(household, old(repository.rows), repository.rows)
    {
      var report := Report(0, 0, 0);
      ghost var before := MirrorsOf(repository.rows, household);
      for i := 0 to |records|
        invariant repository.Valid()
        invariant Fold(before, records[..i]) == Landing(MirrorsOf(repository.rows, household), report, false)
        invariant OnlyMirrorsOf(household, old(repository.rows), repository.rows)
      {
        var record := records[i];
        assert records[..i + 1] == records[..i] + [record];
        FoldSnoc(before, records[..i], record);
        if record.deleted {
          var found := repository.RemoveMirror(household, IdentityOf(record));
          if found {
            report := report.(removed := report.removed + 1);
          } else {
            report := report.(skipped := report.skipped + 1);
          }
          continue;
        }
        if record.externalType != CALENDAR_EVENT {
          report := report.(skipped := report.skipped + 1);
          continue;
        }
        var payload := Validate(record.payload);
        if payload.Failure? {
          AbortedStays(before, records, i + 1);
          return Failure(payload.error);
        }
        repository.UpsertMirror(household, IdentityOf(record), payload.value);
        report := report.(applied := report.applied + 1);
      }
      assert records[..|records|] == records;
      r := Success(report);
    }

    /** `get_mirror`: the landed fields of one external item. */
    method GetMirror(household: string, id: Identity) returns (found: Option<EventFields>)
      requires repository.Valid()
      ensures found == Lookup(MirrorsOf(repository.rows, household), id)
    {
      var k := repository.FindMirror(household, id);
      PositionIsLookup(repository.rows, household, id);
      found := if k < |repository.rows| then Some(repository.rows[k].fields) else None;
    }
  }

  /** Once a batch has raised, no later record of it has any effect. */
  lemma {:induction false} AbortedStays(m: Mirrors, rs: seq<ExternalRecord>, k: nat)
    requires k <= |rs| && Fold(m, rs[..k]).aborted
    ensures Fold(m, rs) == Fold(m, rs[..k])
  {
    if k < |rs| {
      var init := rs[..|rs| - 1];
      assert init[..k] == rs[..k];
      AbortedStays(m, init, k);
      assert rs == init + [rs[|rs| - 1]];
    } else {
      assert rs[..k] == rs;
    }
  }
}
