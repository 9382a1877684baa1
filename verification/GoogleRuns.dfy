/**
 The stored Google cursor never runs ahead of what has been handed out: over every history of
 edits and sync runs, whatever the API answers, an account's stored token is one at which the
 mirrors of its covered events hold their state at that token.
 */
module GoogleRuns {
  import opened Wrappers
  import opened ConnectorModels
  import opened MirrorFold
  import opened ExternalIds
  import opened Zones
  import opened GoogleEvents
  import opened GoogleSync

  // ---------------------------------------------------------------------------
  // Honest listings
  // ---------------------------------------------------------------------------

  /** One of the first n answers is a page with this event. */
  ghost predicate Reads(script: seq<Response>, n: nat, item: Item)
    requires n <= |script|
  {
    exists i | 0 <= i < n :: script[i].Page? && item in script[i].items
  }

  ghost predicate ReadsId(script: seq<Response>, n: nat, eventId: string)
    requires n <= |script|
  {
    exists i, item | 0 <= i < n && script[i].Page? && item in script[i].items :: item.id == eventId
  }

  /**
   A listing that reached its sync token t tells the truth as of t: every event it lists is in
   its state at t, an incremental one lists every event changed between its token and t, and a
   full one every event alive at t inside the horizon.
   */
  ghost predicate HonestListing(hist: History, account: Account, token: Option<nat>, timeMin: Instant,
                                script: seq<Response>, tz: Zone)
  {
    var l := PageThrough(account, script, tz);
    l.Listed? ==>
      && l.token <= |hist| && l.used <= |script|
      && (token.Some? ==> token.value <= l.token)
      && (forall item | Reads(script, l.used, item) :: StateAt(hist, l.token, account, item.id) == Some(item))
      && forall x {:trigger ReadsId(script, l.used, x)} ::
           (if token.Some? then Changed(hist, token.value, l.token, account, x)
            else var s := StateAt(hist, l.token, account, x); s.Some? && InHorizon(s.value, tz, timeMin))
           ==> ReadsId(script, l.used, x)
  }

  ghost predicate HonestCall(hist: History, call: Call, token: Option<nat>, timeMin: Instant, tz: Zone) {
    UsedWithinScript(call.account, call.script, tz);
    var first := PageThrough(call.account, call.script, tz);
    && HonestListing(hist, call.account, token, timeMin, call.script, tz)
    && (first.Stale? ==> HonestListing(hist, call.account, None, timeMin, call.script[first.used..], tz))
  }

  // ---------------------------------------------------------------------------
  // What a listing's records say
  // ---------------------------------------------------------------------------

  predicate Named(a: Account) {
    SlashFree(a.email) && SlashFree(a.calendarId)
  }

  function VerdictFor(item: Item, tz: Zone): Verdict {
    if item.cancelled then Remove
    else match FieldsOf(item, tz)
      case Some(fields) => Show(fields)
      case None => Silent
  }

  /** One record speaks of one event of one account. */
  lemma RecordSpeaks(account: Account, item: Item, tz: Zone, b: Account, x: string)
    requires Named(account) && Named(b) && ToRecord(account, item, tz).Success?
    ensures var r := ToRecord(account, item, tz).value;
            WellFormed([r]) && Relevant(r) && (IdentityOf(r) == MirrorId(b, x) <==> account == b && item.id == x)
            && VerdictOf(r) == VerdictFor(item, tz) && VerdictOf(r) != Silent
  {
    if IdentityOf(ToRecord(account, item, tz).value) == MirrorId(b, x) {
      ExternalIdInjective(account, item.id, b, x);
    }
  }

  ghost predicate Agree(items: seq<Item>, x: string, state: Item) {
    forall item <- items :: item.id == x ==> item == state
  }

  lemma {:induction false} ConvertedSpeaks(account: Account, items: seq<Item>, tz: Zone, b: Account, x: string,
                                           state: Item)
    requires Named(account) && Named(b) && ConvertAll(account, items, tz).Success?
    requires account == b ==> Agree(items, x, state)
    ensures WellFormed(ConvertAll(account, items, tz).value)
    ensures Decide(ConvertAll(account, items, tz).value, MirrorId(b, x))
         == if account == b && exists item <- items :: item.id == x then VerdictFor(state, tz) else Silent
    ensures account == b && (exists item <- items :: item.id == x) ==> VerdictFor(state, tz) != Silent
  {
    if items != [] {
      var init, last := items[..|items| - 1], items[|items| - 1];
      assert items == init + [last];
      ConvertedSpeaks(account, init, tz, b, x, state);
      RecordSpeaks(account, last, tz, b, x);
      var records, record := ConvertAll(account, init, tz).value, ToRecord(account, last, tz).value;
      WellFormedConcat(records, [record]);
      assert (records + [record])[..|records|] == records;
    }
  }

  ghost predicate PagesAgree(script: seq<Response>, n: nat, x: string, state: Item)
    requires n <= |script|
  {
    forall i | 0 <= i < n && script[i].Page? :: Agree(script[i].items, x, state)
  }

  /** A finished listing speaks of exactly the events it read, each in its one state. */
  lemma {:induction false} ListingSpeaks(account: Account, script: seq<Response>, tz: Zone, b: Account, x: string,
                                         state: Item)
    requires Named(account) && Named(b) && PageThrough(account, script, tz).Listed?
    requires PageThrough(account, script, tz).used <= |script|
    requires account == b ==> PagesAgree(script, PageThrough(account, script, tz).used, x, state)
    ensures var l := PageThrough(account, script, tz);
            && WellFormed(l.records)
            && Decide(l.records, MirrorId(b, x))
               == (if account == b && ReadsId(script, l.used, x) then VerdictFor(state, tz) else Silent)
            && (account == b && ReadsId(script, l.used, x) ==> VerdictFor(state, tz) != Silent)
  {
    var page, l := script[0], PageThrough(account, script, tz);
    ConvertedSpeaks(account, page.items, tz, b, x, state);
    if page.nextPage.Some? {
      var rest := PageThrough(account, script[1..], tz);
      UsedWithinScript(account, script[1..], tz);
      ListingSpeaks(account, script[1..], tz, b, x, state);
      var records := ConvertAll(account, page.items, tz).value;
      WellFormedConcat(records, rest.records);
      DecideAppend(records, rest.records, MirrorId(b, x));
      ReadsIdSplits(script, rest.used, x);
    } else {
      ReadsIdSplits(script, 0, x);
    }
  }

  lemma ReadsIdSplits(script: seq<Response>, n: nat, x: string)
    requires n + 1 <= |script| && script[0].Page?
    ensures ReadsId(script, n + 1, x)
       <==> (exists item <- script[0].items :: item.id == x) || ReadsId(script[1..], n, x)
  {
    if ReadsId(script, n + 1, x) {
      var i, item :| 0 <= i < n + 1 && script[i].Page? && item in script[i].items && item.id == x;
      if i > 0 { assert script[1..][i - 1] == script[i]; }
    }
    if ReadsId(script[1..], n, x) {
      var i, item :| 0 <= i < n && script[1..][i].Page? && item in script[1..][i].items && item.id == x;
      assert script[i + 1] == script[1..][i];
    }
  }

  // ---------------------------------------------------------------------------
  // What a stored token promises
  // ---------------------------------------------------------------------------

  /** Where an account's chain of incremental listings started: a full listing and its lower bound. */
  datatype Base = Base(at: nat, timeMin: Instant)

  /** The event was inside the full listing's horizon, or has changed since. */
  ghost predicate Covered(hist: History, base: Base, n: nat, a: Account, x: string, tz: Zone)
    requires base.at <= n <= |hist|
  {
    || Changed(hist, base.at, n, a, x)
    || var s := StateAt(hist, base.at, a, x); s.Some? && InHorizon(s.value, tz, base.timeMin)
  }

  /** Every covered event has been handed out in its state at position n. */
  ghost predicate HandedOut(hist: History, m: Mirrors, base: Base, n: nat, a: Account, tz: Zone) {
    && base.at <= n <= |hist|
    && forall x {:trigger StateAt(hist, n, a, x)} ::
         var s := StateAt(hist, n, a, x);
         s.Some? && Covered(hist, base, n, a, x, tz) ==> Lookup(m, MirrorId(a, x)) == MirrorOf(s.value, tz)
  }

  /** What every entry of a cursor promises. */
  ghost predicate EntryKept(hist: History, m: Mirrors, bases: map<Account, Base>, email: string, entry: CursorEntry,
                            tz: Zone) {
    var a := Account(email, entry.calendarId);
    Named(a) && a in bases && HandedOut(hist, m, bases[a], entry.syncToken, a, tz)
  }

  /** A listing of one account leaves what was handed out of the others alone. */
  lemma OthersKept(hist: History, m: Mirrors, bases: map<Account, Base>, email: string, entry: CursorEntry,
                   account: Account, script: seq<Response>, tz: Zone)
    requires EntryKept(hist, m, bases, email, entry, tz) && Named(account) && account.email != email
    requires PageThrough(account, script, tz).Listed? && PageThrough(account, script, tz).used <= |script|
    ensures EntryKept(hist, Land(m, PageThrough(account, script, tz).records), bases, email, entry, tz)
  {
    var b, records := Account(email, entry.calendarId), PageThrough(account, script, tz).records;
    forall x {:trigger StateAt(hist, entry.syncToken, b, x)}
      ensures Lookup(Land(m, records), MirrorId(b, x)) == Lookup(m, MirrorId(b, x))
    {
      ListingSpeaks(account, script, tz, b, x, Item("", true, None, None, None, Missing, Missing));
      LastRecordWins(m, records, MirrorId(b, x));
    }
  }

  lemma PagesInState(hist: History, account: Account, token: Option<nat>, timeMin: Instant,
                     script: seq<Response>, tz: Zone, x: string, state: Item)
    requires HonestListing(hist, account, token, timeMin, script, tz)
    requires var l := PageThrough(account, script, tz);
             l.Listed? && (ReadsId(script, l.used, x) ==> StateAt(hist, l.token, account, x) == Some(state))
    ensures PagesAgree(script, PageThrough(account, script, tz).used, x, state)
  {
    var l := PageThrough(account, script, tz);
    forall i, item | 0 <= i < l.used && script[i].Page? && item in script[i].items && item.id == x
      ensures item == state
    {
      assert Reads(script, l.used, item);
      assert ReadsId(script, l.used, x);
    }
  }

  /** What one event's mirror holds after its account's listing. */
  lemma ListedLookup(hist: History, m: Mirrors, account: Account, token: Option<nat>, timeMin: Instant,
                     script: seq<Response>, tz: Zone, x: string)
    requires Named(account) && HonestListing(hist, account, token, timeMin, script, tz)
    requires PageThrough(account, script, tz).Listed?
    ensures var l := PageThrough(account, script, tz);
            var after := Lookup(Land(m, l.records), MirrorId(account, x));
            if ReadsId(script, l.used, x)
            then StateAt(hist, l.token, account, x).Some?
                 && after == MirrorOf(StateAt(hist, l.token, account, x).value, tz)
            else after == Lookup(m, MirrorId(account, x))
  {
    var l := PageThrough(account, script, tz);
    var state := Item("", true, None, None, None, Missing, Missing);
    if ReadsId(script, l.used, x) {
      var i, item :| 0 <= i < l.used && script[i].Page? && item in script[i].items && item.id == x;
      assert Reads(script, l.used, item);
      state := item;
    }
    PagesInState(hist, account, token, timeMin, script, tz, x, state);
    ListingSpeaks(account, script, tz, account, x, state);
    LastRecordWins(m, l.records, MirrorId(account, x));
  }

  /** A full listing starts a new chain at its own token. */
  lemma FullListingHandsOut(hist: History, m: Mirrors, account: Account, timeMin: Instant, script: seq<Response>,
                            tz: Zone)
    requires Named(account) && HonestListing(hist, account, None, timeMin, script, tz)
    requires PageThrough(account, script, tz).Listed?
    ensures var l := PageThrough(account, script, tz);
            HandedOut(hist, Land(m, l.records), Base(l.token, timeMin), l.token, account, tz)
  {
    var l := PageThrough(account, script, tz);
    forall x {:trigger StateAt(hist, l.token, account, x)} {
      ListedLookup(hist, m, account, None, timeMin, script, tz, x);
    }
  }

  /** An incremental listing carries the chain from its token to the next. */
  lemma IncrementHandsOut(hist: History, m: Mirrors, base: Base, token: nat, account: Account, timeMin: Instant,
                          script: seq<Response>, tz: Zone)
    requires Named(account) && HonestListing(hist, account, Some(token), timeMin, script, tz)
    requires PageThrough(account, script, tz).Listed? && HandedOut(hist, m, base, token, account, tz)
    ensures var l := PageThrough(account, script, tz);
            HandedOut(hist, Land(m, l.records), base, l.token, account, tz)
  {
    var l := PageThrough(account, script, tz);
    forall x {:trigger StateAt(hist, l.token, account, x)}
      | StateAt(hist, l.token, account, x).Some? && Covered(hist, base, l.token, account, x, tz)
      ensures Lookup(Land(m, l.records), MirrorId(account, x)) == MirrorOf(StateAt(hist, l.token, account, x).value, tz)
    {
      ListedLookup(hist, m, account, Some(token), timeMin, script, tz, x);
      if !ReadsId(script, l.used, x) {
        UnchangedStays(hist, token, l.token, account, x);
        ChangedSplits(hist, base.at, token, l.token, account, x);
        assert StateAt(hist, token, account, x).Some?;
      }
    }
  }

  // ---------------------------------------------------------------------------
  // One run
  // ---------------------------------------------------------------------------

  /** The chains after one more turn: a full listing starts the account's chain anew. */
  function BasesStep(bases: map<Account, Base>, state: Cursor, call: Call, tz: Zone): map<Account, Base> {
    match TakeTurn(call.account, TokenFor(state, call.account), call.script, tz)
    case Synced(_, token, true) => bases[call.account := Base(token, TimeMin(tz, call.now))]
    case _ => bases
  }

  function BasesAfter(bases: map<Account, Base>, state: Cursor, calls: seq<Call>, tz: Zone): map<Account, Base> {
    if calls == [] then bases
    else BasesStep(BasesAfter(bases, state, calls[..|calls| - 1], tz), state, calls[|calls| - 1], tz)
  }

  /** Every turn of a run is answered honestly, and no two members share an account address. */
  ghost predicate HonestCalls(hist: History, state: Cursor, calls: seq<Call>, tz: Zone) {
    calls != [] ==>
      var init, call := calls[..|calls| - 1], calls[|calls| - 1];
      && HonestCalls(hist, state, init, tz) && HonestTurn(hist, state, call, tz)
      && (forall c <- init :: c.account.email != call.account.email)
  }

  ghost predicate HonestTurn(hist: History, state: Cursor, call: Call, tz: Zone) {
    Named(call.account) && HonestCall(hist, call, TokenFor(state, call.account), TimeMin(tz, call.now), tz)
  }

  /** Where a run stands after some of its calls: new entries and untouched old ones keep their promise. */
  ghost predicate RunKeeps(hist: History, state: Cursor, calls: seq<Call>, run: Run, m: Mirrors,
                           bases: map<Account, Base>, tz: Zone) {
    run.Running? ==>
      && WellFormed(run.records)
      && (forall email <- run.entries :: exists c <- calls :: c.account.email == email)
      && (forall email <- run.entries :: EntryKept(hist, Land(m, run.records), bases, email, run.entries[email], tz))
      && (forall email <- state :: email !in run.entries ==>
            EntryKept(hist, Land(m, run.records), bases, email, state[email], tz))
  }

  /** What one account's turn establishes about its own entry. */
  lemma TurnKeeps(hist: History, m: Mirrors, bases: map<Account, Base>, state: Cursor, call: Call, tz: Zone)
    requires HonestTurn(hist, state, call, tz)
    requires TokenFor(state, call.account).Some? ==>
               EntryKept(hist, m, bases, call.account.email, state[call.account.email], tz)
    requires TakeTurn(call.account, TokenFor(state, call.account), call.script, tz).Synced?
    ensures var turn := TakeTurn(call.account, TokenFor(state, call.account), call.script, tz);
            && WellFormed(turn.records)
            && EntryKept(hist, Land(m, turn.records), BasesStep(bases, state, call, tz), call.account.email,
                         CursorEntry(call.account.calendarId, turn.token), tz)
  {
    var a, timeMin := call.account, TimeMin(tz, call.now);
    UsedWithinScript(a, call.script, tz);
    var first := PageThrough(a, call.script, tz);
    var script := if first.Stale? then call.script[first.used..] else call.script;
    UsedWithinScript(a, script, tz);
    WellFormedListing(hist, a, if first.Stale? then None else TokenFor(state, a), timeMin, script, tz);
    if first.Stale? || TokenFor(state, a).None? {
      FullListingHandsOut(hist, m, a, timeMin, script, tz);
    } else {
      IncrementHandsOut(hist, m, bases[a], TokenFor(state, a).value, a, timeMin, script, tz);
    }
  }

  lemma WellFormedListing(hist: History, a: Account, token: Option<nat>, timeMin: Instant, script: seq<Response>,
                          tz: Zone)
    requires Named(a) && PageThrough(a, script, tz).Listed? && PageThrough(a, script, tz).used <= |script|
    requires HonestListing(hist, a, token, timeMin, script, tz)
    ensures WellFormed(PageThrough(a, script, tz).records)
  {
    assert |a.email + "x"| != |a.email|;
    ListingSpeaks(a, script, tz, Account(a.email + "x", ""), "", Item("", true, None, None, None, Missing, Missing));
  }
}
