/**
 How an account's turn and a household's run end, read off the answers of the API alone: the
 first answer that does not continue the paging decides, and a 410 gets one restart in full.
 */
module GoogleTurns {
  import opened Wrappers
  import opened ConnectorModels
  import opened CursorRules
  import opened ExternalIds
  import opened Zones
  import opened GoogleEvents
  import opened GoogleSync

  // ---------------------------------------------------------------------------
  // Pages
  // ---------------------------------------------------------------------------

  /** Every event of the page is cancelled or has a start. */
  predicate Convertible(items: seq<Item>) {
    forall item <- items :: item.cancelled || !item.start.Missing?
  }

  /** The records of a page are its events', one each and in order. */
  ghost predicate PageRecords(account: Account, items: seq<Item>, tz: Zone, records: seq<ExternalRecord>) {
    && |records| == |items|
    && forall i | 0 <= i < |items| :: ToRecord(account, items[i], tz) == Success(records[i])
  }

  lemma {:induction false} ConvertsIff(account: Account, items: seq<Item>, tz: Zone)
    ensures ConvertAll(account, items, tz).Success? <==> Convertible(items)
    ensures Convertible(items) ==> PageRecords(account, items, tz, ConvertAll(account, items, tz).value)
  {
    if items != [] {
      var init, last := items[..|items| - 1], items[|items| - 1];
      ConvertsIff(account, init, tz);
      assert items == init + [last];
    }
  }

  /** The answer is a page that can be converted and names a next one. */
  predicate Continues(r: Response) {
    r.Page? && Convertible(r.items) && r.nextPage.Some?
  }

  /** The first n answers continue the paging, and not all of them or the next one does not. */
  predicate StopsAt(script: seq<Response>, n: nat) {
    && n <= |script|
    && (forall i | 0 <= i < n :: Continues(script[i]))
    && (n < |script| ==> !Continues(script[n]))
  }

  lemma {:induction false} SomewhereStops(script: seq<Response>) returns (n: nat)
    ensures StopsAt(script, n) && forall k | StopsAt(script, k) :: k == n
  {
    if script == [] || !Continues(script[0]) {
      n := 0;
    } else {
      n := SomewhereStops(script[1..]);
      n := n + 1;
    }
  }

  /** The records of the first n pages, in order. */
  function RecordsUpTo(account: Account, script: seq<Response>, n: nat, tz: Zone): seq<ExternalRecord>
    requires n <= |script|
  {
    if n == 0 then []
    else
      RecordsUpTo(account, script, n - 1, tz)
      + if script[n - 1].Page? && ConvertAll(account, script[n - 1].items, tz).Success?
        then ConvertAll(account, script[n - 1].items, tz).value else []
  }

  lemma {:induction false} RecordsShift(account: Account, script: seq<Response>, n: nat, tz: Zone)
    requires 0 < n <= |script|
    ensures RecordsUpTo(account, script, n, tz)
         == RecordsUpTo(account, script, 1, tz) + RecordsUpTo(account, script[1..], n - 1, tz)
  {
    var first := RecordsUpTo(account, script, 1, tz);
    if n == 1 {
      assert first + [] == first;
    } else {
      RecordsShift(account, script, n - 1, tz);
      assert script[1..][n - 2] == script[n - 1];
    }
  }

  // ---------------------------------------------------------------------------
  // One listing and one turn
  // ---------------------------------------------------------------------------

  /** How a listing ends that stops at answer n. */
  function Ending(account: Account, script: seq<Response>, n: nat, tz: Zone): Listing
    requires n <= |script|
  {
    if n == |script| then Failed
    else match script[n]
      case Gone => Stale(n + 1)
      case InvalidGrant => NoGrant
      case ApiError => Failed
      case Page(items, _, nextSync) =>
        if !Convertible(items) || nextSync.None? then Failed
        else Listed(RecordsUpTo(account, script, n + 1, tz), nextSync.value, n + 1)
  }

  /** One more page in front. */
  function Behind(page: seq<ExternalRecord>, rest: Listing): Listing {
    match rest
    case Listed(records, token, used) => Listed(page + records, token, used + 1)
    case Stale(used) => Stale(used + 1)
    case NoGrant => NoGrant
    case Failed => Failed
  }

  lemma EndingBehind(account: Account, script: seq<Response>, n: nat, tz: Zone)
    requires 0 < n <= |script| && Continues(script[0])
    ensures Ending(account, script, n, tz)
         == Behind(RecordsUpTo(account, script, 1, tz), Ending(account, script[1..], n - 1, tz))
  {
    if n < |script| {
      assert script[1..][n - 1] == script[n];
      RecordsShift(account, script, n + 1, tz);
    }
  }

  lemma PagingBehind(account: Account, script: seq<Response>, tz: Zone)
    requires script != [] && Continues(script[0])
    ensures PageThrough(account, script, tz)
         == Behind(RecordsUpTo(account, script, 1, tz), PageThrough(account, script[1..], tz))
  {
    OnePage(account, script, tz);
  }

  /** A listing ends as the first answer that does not continue it dictates. */
  lemma {:induction false} ListingEnds(account: Account, script: seq<Response>, n: nat, tz: Zone)
    requires StopsAt(script, n)
    ensures PageThrough(account, script, tz) == Ending(account, script, n, tz)
    decreases n
  {
    if n > 0 {
      assert StopsAt(script[1..], n - 1);
      ListingEnds(account, script[1..], n - 1, tz);
      EndingBehind(account, script, n, tz);
      PagingBehind(account, script, tz);
    } else {
      ListingEndsHere(account, script, n, tz);
    }
  }

  lemma ListingEndsHere(account: Account, script: seq<Response>, n: nat, tz: Zone)
    requires n == 0 && StopsAt(script, n)
    ensures PageThrough(account, script, tz) == Ending(account, script, n, tz)
  {
    if script != [] && script[0].Page? {
      ConvertsIff(account, script[0].items, tz);
      if Convertible(script[0].items) { OnePage(account, script, tz); }
    }
  }

  lemma OnePage(account: Account, script: seq<Response>, tz: Zone)
    requires script != [] && script[0].Page? && Convertible(script[0].items)
    ensures ConvertAll(account, script[0].items, tz) == Success(RecordsUpTo(account, script, 1, tz))
  {
    ConvertsIff(account, script[0].items, tz);
    var records := ConvertAll(account, script[0].items, tz).value;
    assert [] + records == records;
  }

  /** What a listing's ending means for its turn: an account whose grant is dead is skipped. */
  predicate Means(listing: Listing, full: bool, turn: Turn) {
    match listing
    case Listed(records, token, _) => turn == Synced(records, token, full)
    case NoGrant => turn == Skipped
    case Stale(_) => turn == Turn.Raised(StaleCursor)
    case Failed => turn == Turn.Raised(OtherFailure)
  }

  /**
   A turn is decided by the answers alone. If its paging stops at anything but a 410, that is
   its end; at a 410 it starts over in full with the answers after it, and a second 410 raises.
   */
  lemma TurnEnds(account: Account, token: Option<nat>, script: seq<Response>, tz: Zone, n: nat, m: nat)
    requires StopsAt(script, n)
    requires n < |script| && script[n].Gone? ==> StopsAt(script[n + 1..], m)
    ensures var turn := TakeTurn(account, token, script, tz);
            if n < |script| && script[n].Gone?
            then Means(Ending(account, script[n + 1..], m, tz), true, turn)
            else Means(Ending(account, script, n, tz), token.None?, turn)
  {
    ListingEnds(account, script, n, tz);
    if n < |script| && script[n].Gone? { ListingEnds(account, script[n + 1..], m, tz); }
  }

  // ---------------------------------------------------------------------------
  // A household's run
  // ---------------------------------------------------------------------------

  function TurnFor(state: Cursor, call: Call, tz: Zone): Turn {
    TakeTurn(call.account, TokenFor(state, call.account), call.script, tz)
  }

  /** The first k accounts do not raise, and not all of them or the next one does. */
  predicate RaisesAt(state: Cursor, calls: seq<Call>, tz: Zone, k: nat) {
    && k <= |calls|
    && (forall i | 0 <= i < k :: !TurnFor(state, calls[i], tz).Raised?)
    && (k < |calls| ==> TurnFor(state, calls[k], tz).Raised?)
  }

  /** The records of the accounts that synced, in order. */
  function SyncedRecords(state: Cursor, calls: seq<Call>, tz: Zone): seq<ExternalRecord> {
    if calls == [] then []
    else
      var turn := TurnFor(state, calls[|calls| - 1], tz);
      SyncedRecords(state, calls[..|calls| - 1], tz) + if turn.Synced? then turn.records else []
  }

  /** The entry comes from an account that synced. */
  ghost predicate EntryFrom(state: Cursor, calls: seq<Call>, tz: Zone, email: string, entry: CursorEntry) {
    exists c <- calls ::
      && c.account.email == email && TurnFor(state, c, tz).Synced?
      && entry == CursorEntry(c.account.calendarId, TurnFor(state, c, tz).token)
  }

  lemma EntryFromSnoc(state: Cursor, calls: seq<Call>, tz: Zone, email: string, entry: CursorEntry)
    requires calls != []
    ensures EntryFrom(state, calls, tz, email, entry)
       <==> EntryFrom(state, calls[..|calls| - 1], tz, email, entry)
            || EntryFrom(state, [calls[|calls| - 1]], tz, email, entry)
  {
    var init, last := calls[..|calls| - 1], calls[|calls| - 1];
    assert calls == init + [last];
  }

  /** The members' addresses differ. */
  ghost predicate OwnAddresses(calls: seq<Call>) {
    forall i, j | 0 <= i < j < |calls| :: calls[i].account.email != calls[j].account.email
  }

  /** Where a run stands that has not raised. */
  ghost predicate Collected(state: Cursor, calls: seq<Call>, tz: Zone, run: Run) {
    && run.Running? && run.records == SyncedRecords(state, calls, tz)
    && forall email, entry ::
         email in run.entries && run.entries[email] == entry <==> EntryFrom(state, calls, tz, email, entry)
  }

  lemma CollectsNext(state: Cursor, calls: seq<Call>, tz: Zone, before: Run)
    requires calls != [] && OwnAddresses(calls) && before.Running?
    requires Collected(state, calls[..|calls| - 1], tz, before)
    requires !TurnFor(state, calls[|calls| - 1], tz).Raised?
    ensures RunStep(before, state, calls[|calls| - 1], tz).Running?
            && Collected(state, calls, tz, RunStep(before, state, calls[|calls| - 1], tz))
  {
    var init, last := calls[..|calls| - 1], calls[|calls| - 1];
    var after := RunStep(before, state, last, tz);
    forall email, entry
      ensures email in after.entries && after.entries[email] == entry <==> EntryFrom(state, calls, tz, email, entry)
    {
      EntryFromSnoc(state, calls, tz, email, entry);
      assert last in [last];
      assert email in before.entries && before.entries[email] == entry <==> EntryFrom(state, init, tz, email, entry);
      if email == last.account.email {
        assert !EntryFrom(state, init, tz, email, entry);
      }
    }
  }

  lemma {:induction false} RunCollects(state: Cursor, calls: seq<Call>, tz: Zone)
    requires OwnAddresses(calls) && forall c <- calls :: !TurnFor(state, c, tz).Raised?
    ensures RunOver(state, calls, tz).Running? && Collected(state, calls, tz, RunOver(state, calls, tz))
  {
    if calls != [] {
      var init := calls[..|calls| - 1];
      assert calls[|calls| - 1] in calls && forall c <- init :: c in calls;
      RunCollects(state, init, tz);
      CollectsNext(state, calls, tz, RunOver(state, init, tz));
    }
  }

  lemma RunBefore(state: Cursor, calls: seq<Call>, tz: Zone, k: nat)
    requires OwnAddresses(calls) && RaisesAt(state, calls, tz, k)
    ensures RunOver(state, calls[..k], tz).Running?
            && Collected(state, calls[..k], tz, RunOver(state, calls[..k], tz))
  {
    assert forall c <- calls[..k] :: !TurnFor(state, c, tz).Raised?;
    RunCollects(state, calls[..k], tz);
  }

  /** The first account that raises raises the run, with its own error. */
  lemma FirstRaisedDecides(state: Cursor, calls: seq<Call>, tz: Zone, k: nat)
    requires OwnAddresses(calls) && RaisesAt(state, calls, tz, k) && k < |calls|
    ensures OutcomeOf(RunOver(state, calls, tz)) == Failure(TurnFor(state, calls[k], tz).error)
  {
    RunBefore(state, calls, tz, k);
    assert calls[..k + 1][..k] == calls[..k];
    AbortedStays(state, calls, tz, k + 1);
  }

  /**
   A run none of whose accounts raises delivers the records of those that synced; its next
   cursor holds exactly their new entries, and it names none when no account synced.
   */
  lemma RunDelivers(state: Cursor, calls: seq<Call>, tz: Zone, email: string, entry: CursorEntry)
    requires OwnAddresses(calls) && RaisesAt(state, calls, tz, |calls|)
    ensures var outcome := OutcomeOf(RunOver(state, calls, tz));
            && outcome.Success? && outcome.value.records == SyncedRecords(state, calls, tz)
            && var cursor := outcome.value.nextCursor;
               && (cursor.Some? && email in cursor.value && cursor.value[email] == entry
                   <==> EntryFrom(state, calls, tz, email, entry))
               && (cursor.None? <==> forall c <- calls :: !TurnFor(state, c, tz).Synced?)
  {
    RunBefore(state, calls, tz, |calls|);
    assert calls[..|calls|] == calls;
    SyncedHasEntry(state, calls, tz, RunOver(state, calls, tz));
  }

  lemma SyncedHasEntry(state: Cursor, calls: seq<Call>, tz: Zone, run: Run)
    requires Collected(state, calls, tz, run)
    ensures run.entries == map[] <==> forall c <- calls :: !TurnFor(state, c, tz).Synced?
  {
    if c :| c in calls && TurnFor(state, c, tz).Synced? {
      var entry := CursorEntry(c.account.calendarId, TurnFor(state, c, tz).token);
      assert EntryFrom(state, calls, tz, c.account.email, entry);
    }
    if email :| email in run.entries {
      assert EntryFrom(state, calls, tz, email, run.entries[email]);
    }
  }

  /**
   The next run resumes where this one ended: an account that synced starts from its new token,
   and no other calendar under the same address does.
   */
  lemma NextRunResumes(cursor: Option<Cursor>, calls: seq<Call>, tz: Zone, c: Call, b: Account)
    requires OwnAddresses(calls) && RaisesAt(StateOf(cursor), calls, tz, |calls|)
    requires c in calls && TurnFor(StateOf(cursor), c, tz).Synced? && b.email == c.account.email
    ensures var next := StateOf(CursorAfter(cursor, OutcomeOf(RunOver(StateOf(cursor), calls, tz))));
            TokenFor(next, b) == if b == c.account then Some(TurnFor(StateOf(cursor), c, tz).token) else None
  {
    var entry := CursorEntry(c.account.calendarId, TurnFor(StateOf(cursor), c, tz).token);
    assert EntryFrom(StateOf(cursor), calls, tz, c.account.email, entry);
    RunDelivers(StateOf(cursor), calls, tz, c.account.email, entry);
  }
}
