/**
 The Google connector's sync run (src/nidaro/connectors/google_calendar/connector.py): every
 connected account paged to the end from its own sync token, restarted in full on a 410, and
 skipped when its grant is dead.
 */
module GoogleSync {
  import opened Wrappers
  import opened ConnectorModels
  import opened CursorRules
  import opened ExternalIds
  import opened Zones
  import opened GoogleEvents

  /** One answer of the API to a `list_events` call. */
  datatype Response =
    | Page(items: seq<Item>, nextPage: Option<string>, nextSync: Option<nat>)
    | Gone
    | InvalidGrant
    | ApiError

  /** How paging one listing ended, and how many answers it used. */
  datatype Listing =
    | Listed(records: seq<ExternalRecord>, token: nat, used: nat)
    | Stale(used: nat)
    | NoGrant
    | Failed

  /** The records of a page's events, in order; an event that cannot be converted raises. */
  function ConvertAll(account: Account, items: seq<Item>, tz: Zone): Result<seq<ExternalRecord>, string> {
    if items == [] then Success([])
    else
      match ConvertAll(account, items[..|items| - 1], tz)
      case Failure(error) => Failure(error)
      case Success(init) =>
        match ToRecord(account, items[|items| - 1], tz)
        case Failure(error) => Failure(error)
        case Success(record) => Success(init + [record])
  }

  /** `_sync_account` against the answers to come; when they run out the connection has failed. */
  function PageThrough(account: Account, script: seq<Response>, tz: Zone): Listing {
    if script == [] then Failed
    else match script[0]
      case Gone => Stale(1)
      case InvalidGrant => NoGrant
      case ApiError => Failed
      case Page(items, nextPage, nextSync) =>
        match ConvertAll(account, items, tz)
        case Failure(_) => Failed
        case Success(records) =>
          if nextPage.Some? then
            match PageThrough(account, script[1..], tz)
            case Listed(rest, token, used) => Listed(records + rest, token, used + 1)
            case Stale(used) => Stale(used + 1)
            case NoGrant => NoGrant
            case Failed => Failed
          else if nextSync.None? then Failed
          else Listed(records, nextSync.value, 1)
  }

  lemma {:induction false} UsedWithinScript(account: Account, script: seq<Response>, tz: Zone)
    ensures var l := PageThrough(account, script, tz);
            && (l.Listed? ==> 1 <= l.used <= |script|) && (l.Stale? ==> 1 <= l.used <= |script|)
  {
    if script != [] { UsedWithinScript(account, script[1..], tz); }
  }

  method Convert(account: Account, items: seq<Item>, tz: Zone) returns (r: Result<seq<ExternalRecord>, string>)
    ensures r == ConvertAll(account, items, tz)
  {
    var records: seq<ExternalRecord> := [];
    for i := 0 to |items|
      invariant ConvertAll(account, items[..i], tz) == Success(records)
    {
      assert items[..i + 1][..i] == items[..i];
      var record := ToRecord(account, items[i], tz);
      if record.Failure? {
        ConvertFailsOn(account, items, tz, i + 1);
        return ConvertAll(account, items, tz);
      }
      records := records + [record.value];
    }
    assert items[..|items|] == items;
    r := Success(records);
  }

  lemma {:induction false} ConvertFailsOn(account: Account, items: seq<Item>, tz: Zone, k: nat)
    requires k <= |items| && ConvertAll(account, items[..k], tz).Failure?
    ensures ConvertAll(account, items, tz) == ConvertAll(account, items[..k], tz)
  {
    if k < |items| {
      var init := items[..|items| - 1];
      assert init[..k] == items[..k];
      ConvertFailsOn(account, init, tz, k);
    } else {
      assert items[..k] == items;
    }
  }

  /** What paging will yield, given the records of the pages already read. */
  function Continue(records: seq<ExternalRecord>, read: nat, rest: Listing): Listing {
    match rest
    case Listed(more, token, used) => Listed(records + more, token, read + used)
    case Stale(used) => Stale(read + used)
    case NoGrant => NoGrant
    case Failed => Failed
  }

  /** `_sync_account`: page after page until one carries no next page. */
  method SyncAccount(account: Account, script: seq<Response>, tz: Zone) returns (r: Listing)
    ensures r == PageThrough(account, script, tz)
  {
    var records: seq<ExternalRecord> := [];
    var n := 0;
    while n < |script|
      invariant 0 <= n <= |script|
      invariant PageThrough(account, script, tz) == Continue(records, n, PageThrough(account, script[n..], tz))
    {
      var page := script[n];
      assert script[n..][1..] == script[n + 1..];
      if page.Gone? { return Stale(n + 1); }
      if page.InvalidGrant? { return NoGrant; }
      if page.ApiError? { return Failed; }
      var converted := Convert(account, page.items, tz);
      if converted.Failure? { return Failed; }
      if page.nextPage.None? {
        if page.nextSync.None? { return Failed; }
        return Listed(records + converted.value, page.nextSync.value, n + 1);
      }
      ContinueTwice(records, n, converted.value, PageThrough(account, script[n + 1..], tz));
      records := records + converted.value;
      n := n + 1;
    }
    r := Failed;
  }

  lemma ContinueTwice(records: seq<ExternalRecord>, read: nat, page: seq<ExternalRecord>, rest: Listing)
    ensures Continue(records, read, Continue(page, 1, rest)) == Continue(records + page, read + 1, rest)
  {
    if rest.Listed? {
      assert records + (page + rest.records) == (records + page) + rest.records;
    }
  }

  // ---------------------------------------------------------------------------
  // Restart on 410, then all accounts
  // ---------------------------------------------------------------------------

  datatype CursorEntry = CursorEntry(calendarId: string, syncToken: nat)

  /** The stored cursor: per account email, the calendar and the token it was synced to. */
  type Cursor = map<string, CursorEntry>

  /** The token an account starts from: its own, if it was for the same calendar. */
  function TokenFor(state: Cursor, account: Account): Option<nat> {
    if account.email in state && state[account.email].calendarId == account.calendarId
    then Some(state[account.email].syncToken) else None
  }

  /** What one account's turn came to, and whether its listing was a full one. */
  datatype Turn =
    | Synced(records: seq<ExternalRecord>, token: nat, full: bool)
    | Skipped
    | Raised(error: SyncError)

  function TurnOf(listing: Listing, full: bool): Turn {
    match listing
    case Listed(records, token, _) => Synced(records, token, full)
    case Stale(_) => Turn.Raised(StaleCursor)
    case NoGrant => Skipped
    case Failed => Turn.Raised(OtherFailure)
  }

  /** `_sync_account_resetting_stale_token`: a 410 restarts the account in full, once. */
  function TakeTurn(account: Account, token: Option<nat>, script: seq<Response>, tz: Zone): Turn {
    UsedWithinScript(account, script, tz);
    var first := PageThrough(account, script, tz);
    if first.Stale? then TurnOf(PageThrough(account, script[first.used..], tz), true)
    else TurnOf(first, token.None?)
  }

  /** A member account, the time of its turn and the answers the API will give to its calls. */
  datatype Call = Call(account: Account, now: Instant, script: seq<Response>)

  datatype Run = Running(entries: Cursor, records: seq<ExternalRecord>) | Aborted(error: SyncError)

  function RunStep(before: Run, state: Cursor, call: Call, tz: Zone): Run {
    if before.Aborted? then before
    else match TakeTurn(call.account, TokenFor(state, call.account), call.script, tz)
      case Synced(records, token, _) =>
        Running(before.entries[call.account.email := CursorEntry(call.account.calendarId, token)],
                before.records + records)
      case Skipped => before
      case Raised(error) => Aborted(error)
  }

  function RunOver(state: Cursor, calls: seq<Call>, tz: Zone): Run {
    if calls == [] then Running(map[], [])
    else RunStep(RunOver(state, calls[..|calls| - 1], tz), state, calls[|calls| - 1], tz)
  }

  function OutcomeOf(run: Run): Outcome<Cursor, ExternalRecord> {
    match run
    case Running(entries, records) =>
      Success(SyncResult(records, if entries == map[] then None else Some(entries)))
    case Aborted(error) => Failure(error)
  }

  function StateOf(cursor: Option<Cursor>): Cursor {
    if cursor.Some? then cursor.value else map[]
  }

  /** `sync` over the household's accounts; an unreadable cursor counts as none. */
  method Sync(cursor: Option<Cursor>, calls: seq<Call>, tz: Zone) returns (outcome: Outcome<Cursor, ExternalRecord>)
    ensures outcome == OutcomeOf(RunOver(StateOf(cursor), calls, tz))
  {
    var state := StateOf(cursor);
    var records: seq<ExternalRecord> := [];
    var entries: Cursor := map[];
    for i := 0 to |calls|
      invariant RunOver(state, calls[..i], tz) == Running(entries, records)
    {
      var account, script := calls[i].account, calls[i].script;
      assert calls[..i + 1][..i] == calls[..i];
      var token := TokenFor(state, account);
      var full := token.None?;
      var listing := SyncAccount(account, script, tz);
      UsedWithinScript(account, script, tz);
      if listing.Stale? {
        listing := SyncAccount(account, script[listing.used..], tz);
        full := true;
      }
      var turn := TurnOf(listing, full);
      assert turn == TakeTurn(account, token, script, tz);
      if turn.Skipped? { continue; }
      if turn.Raised? {
        AbortedStays(state, calls, tz, i + 1);
        return Failure(turn.error);
      }
      entries := entries[account.email := CursorEntry(account.calendarId, turn.token)];
      records := records + turn.records;
    }
    assert calls[..|calls|] == calls;
    outcome := Success(SyncResult(records, if entries == map[] then None else Some(entries)));
  }

  lemma {:induction false} AbortedStays(state: Cursor, calls: seq<Call>, tz: Zone, k: nat)
    requires k <= |calls| && RunOver(state, calls[..k], tz).Aborted?
    ensures RunOver(state, calls, tz) == RunOver(state, calls[..k], tz)
  {
    if k < |calls| {
      var init := calls[..|calls| - 1];
      assert init[..k] == calls[..k];
      AbortedStays(state, init, tz, k);
    } else {
      assert calls[..k] == calls;
    }
  }
}
