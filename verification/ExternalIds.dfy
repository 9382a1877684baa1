/**
 The composite identity of a mirrored Google event and the account it names
 (`external_id`, `split_external_id`, src/nidaro/connectors/google_calendar/mapping.py;
 `_account_for`, src/nidaro/connectors/google_calendar/writes.py).
 */
module ExternalIds {
  import opened Wrappers

  datatype Account = Account(email: string, calendarId: string)

  function ExternalId(email: string, calendarId: string, eventId: string): string {
    email + "/" + calendarId + "/" + eventId
  }

  /** Position of the first "/" at or after `from`, |s| when there is none. */
  function Slash(s: string, from: nat): (k: nat)
    requires from <= |s|
    ensures from <= k <= |s| && (k < |s| ==> s[k] == '/')
    ensures forall i | from <= i < k :: s[i] != '/'
    decreases |s| - from
  {
    if from == |s| || s[from] == '/' then from else Slash(s, from + 1)
  }

  /** `composite.split("/", 2)`: at most two cuts, at the first two slashes; three non-empty parts or an error. */
  function SplitExternalId(composite: string): Result<(string, string, string), string> {
    var i := Slash(composite, 0);
    if i == |composite| then Failure("not <email>/<calendar_id>/<google_event_id>")
    else
      var j := Slash(composite, i + 1);
      if j == |composite| || i == 0 || j == i + 1 || j + 1 == |composite|
      then Failure("not <email>/<calendar_id>/<google_event_id>")
      else Success((composite[..i], composite[i + 1..j], composite[j + 1..]))
  }

  predicate SlashFree(s: string) {
    forall i | 0 <= i < |s| :: s[i] != '/'
  }

  lemma SlashIs(s: string, from: nat, k: nat)
    requires from <= k < |s| && s[k] == '/' && forall i | from <= i < k :: s[i] != '/'
    ensures Slash(s, from) == k
  {
  }

  /** The first slash after a prefix whose continuation opens with a slash-free part. */
  lemma SlashAfter(prefix: string, part: string, rest: string)
    requires SlashFree(part)
    ensures Slash(prefix + part + "/" + rest, |prefix|) == |prefix| + |part|
  {
    var s := prefix + part + "/" + rest;
    assert forall i | |prefix| <= i < |prefix| + |part| :: s[i] == part[i - |prefix|];
    SlashIs(s, |prefix|, |prefix| + |part|);
  }

  lemma JoinParts(email: string, calendarId: string, eventId: string)
    ensures var s, i, j := ExternalId(email, calendarId, eventId), |email|, |email| + 1 + |calendarId|;
            |s| == j + 1 + |eventId| && s[..i] == email && s[i + 1..j] == calendarId && s[j + 1..] == eventId
  {
  }

  /** In a well-named join the first two slashes are the two separators. */
  lemma JoinShape(email: string, calendarId: string, eventId: string)
    requires SlashFree(email) && SlashFree(calendarId)
    ensures var s := ExternalId(email, calendarId, eventId);
            |email| + 1 <= |s| && Slash(s, 0) == |email| && Slash(s, |email| + 1) == |email| + 1 + |calendarId|
  {
    var s := ExternalId(email, calendarId, eventId);
    SlashAfter("", email, calendarId + "/" + eventId);
    SlashAfter(email + "/", calendarId, eventId);
    assert "" + email + "/" + (calendarId + "/" + eventId) == s;
    assert (email + "/") + calendarId + "/" + eventId == s;
  }

  /** Splitting undoes joining exactly when the parts are non-empty and the first two slash-free. */
  lemma SplitUndoesJoin(email: string, calendarId: string, eventId: string)
    ensures SplitExternalId(ExternalId(email, calendarId, eventId)) == Success((email, calendarId, eventId))
       <==> email != "" && calendarId != "" && eventId != "" && SlashFree(email) && SlashFree(calendarId)
  {
    var s := ExternalId(email, calendarId, eventId);
    if SlashFree(email) && SlashFree(calendarId) {
      JoinShape(email, calendarId, eventId);
      JoinParts(email, calendarId, eventId);
    } else if SplitExternalId(s).Success? {
      JoinUndoesSplit(s);
    }
  }

  /** Joining undoes splitting, and a split never yields an empty part or a slash in the first two. */
  lemma JoinUndoesSplit(composite: string)
    requires SplitExternalId(composite).Success?
    ensures var (email, calendarId, eventId) := SplitExternalId(composite).value;
            && ExternalId(email, calendarId, eventId) == composite
            && email != "" && calendarId != "" && eventId != "" && SlashFree(email) && SlashFree(calendarId)
  {
    var i := Slash(composite, 0);
    var j := Slash(composite, i + 1);
    assert composite == composite[..i] + "/" + composite[i + 1..j] + "/" + composite[j + 1..];
  }

  /** Two events of well-named accounts share an external id only when they are the same event. */
  lemma ExternalIdInjective(a: Account, x: string, b: Account, y: string)
    requires SlashFree(a.email) && SlashFree(a.calendarId) && SlashFree(b.email) && SlashFree(b.calendarId)
    requires ExternalId(a.email, a.calendarId, x) == ExternalId(b.email, b.calendarId, y)
    ensures a == b && x == y
  {
    JoinShape(a.email, a.calendarId, x);
    JoinShape(b.email, b.calendarId, y);
    JoinParts(a.email, a.calendarId, x);
    JoinParts(b.email, b.calendarId, y);
  }

  /** `_account_for`: the connected account a mirror's identity names. */
  method AccountFor(accounts: seq<Account>, externalId: string) returns (r: Result<(Account, string), string>)
    ensures r.Success? ==> r.value.0 in accounts
                           && SplitExternalId(externalId) == Success((r.value.0.email, r.value.0.calendarId, r.value.1))
    ensures r.Success? ==> externalId == ExternalId(r.value.0.email, r.value.0.calendarId, r.value.1)
    ensures forall a, eventId | a in accounts && externalId == ExternalId(a.email, a.calendarId, eventId) ::
              a.email != "" && a.calendarId != "" && eventId != "" && SlashFree(a.email) && SlashFree(a.calendarId)
              ==> r == Success((a, eventId))
  {
    forall a, eventId | a in accounts && externalId == ExternalId(a.email, a.calendarId, eventId) {
      SplitUndoesJoin(a.email, a.calendarId, eventId);
    }
    var parts := SplitExternalId(externalId);
    if parts.Failure? {
      return Failure(parts.error);
    }
    JoinUndoesSplit(externalId);
    var (email, calendarId, eventId) := parts.value;
    for i := 0 to |accounts|
      invariant Account(email, calendarId) !in accounts[..i]
    {
      if accounts[i].email == email && accounts[i].calendarId == calendarId {
        return Success((accounts[i], eventId));
      }
    }
    r := Failure("no connected Google account matches");
  }
}
