/**
 What one connector batch does to a household's mirrors
 (`CalendarService.apply_external_records`, src/nidaro/calendar/service.py), as a fold over a
 map from identity to mirrored fields, and the laws of that fold.
 */
module MirrorFold {
  import opened Wrappers
  import opened ConnectorModels

  type Mirrors = map<Identity, EventFields>

  datatype Report = Report(applied: nat, removed: nat, skipped: nat) {
    function Total(): nat { applied + removed + skipped }

    function Plus(other: Report): Report {
      Report(applied + other.applied, removed + other.removed, skipped + other.skipped)
    }
  }

  /** The calendar while a batch lands; `aborted` once a malformed live payload has raised. */
  datatype Landing = Landing(mirrors: Mirrors, report: Report, aborted: bool)

  /** One turn of the loop. */
  function Step(l: Landing, r: ExternalRecord): Landing {
    if l.aborted then l
    else if r.deleted then
      if IdentityOf(r) in l.mirrors
      then l.(mirrors := l.mirrors - {IdentityOf(r)}, report := l.report.(removed := l.report.removed + 1))
      else l.(report := l.report.(skipped := l.report.skipped + 1))
    else if r.externalType != CALENDAR_EVENT then
      l.(report := l.report.(skipped := l.report.skipped + 1))
    else match Validate(r.payload)
      case Failure(_) => l.(aborted := true)
      case Success(fields) =>
        l.(mirrors := l.mirrors[IdentityOf(r) := fields],
           report := l.report.(applied := l.report.applied + 1))
  }

  /** The batch, first record first. */
  function Fold(m: Mirrors, rs: seq<ExternalRecord>): Landing {
    if rs == [] then Landing(m, Report(0, 0, 0), false)
    else Step(Fold(m, rs[..|rs| - 1]), rs[|rs| - 1])
  }

  function Land(m: Mirrors, rs: seq<ExternalRecord>): Mirrors {
    Fold(m, rs).mirrors
  }

  // ---------------------------------------------------------------------------
  // The reference reading of a batch: what the last relevant record says.
  // ---------------------------------------------------------------------------

  /** A record the calendar acts on: any tombstone, and any live calendar event. */
  predicate Relevant(r: ExternalRecord) {
    r.deleted || r.externalType == CALENDAR_EVENT
  }

  /** What a batch says about one identity: nothing, remove it, or show these fields. */
  datatype Verdict = Silent | Remove | Show(fields: EventFields)

  function VerdictOf(r: ExternalRecord): Verdict {
    if r.deleted then Remove
    else match Validate(r.payload)
      case Success(fields) => Show(fields)
      case Failure(_) => Silent
  }

  /** The verdict of the last relevant record for `id`. */
  function Decide(rs: seq<ExternalRecord>, id: Identity): Verdict {
    if rs == [] then Silent
    else
      var last := rs[|rs| - 1];
      if Relevant(last) && IdentityOf(last) == id then VerdictOf(last)
      else Decide(rs[..|rs| - 1], id)
  }

  function Lookup(m: Mirrors, id: Identity): Option<EventFields> {
    if id in m then Some(m[id]) else None
  }

  function Overlay(before: Option<EventFields>, v: Verdict): Option<EventFields> {
    match v
    case Silent => before
    case Remove => None
    case Show(fields) => Some(fields)
  }

  /** Every live calendar event of the batch validates. */
  predicate WellFormed(rs: seq<ExternalRecord>) {
    forall r <- rs :: !r.deleted && r.externalType == CALENDAR_EVENT ==> Validate(r.payload).Success?
  }

  lemma {:induction false} AbortsIffMalformed(m: Mirrors, rs: seq<ExternalRecord>)
    ensures Fold(m, rs).aborted <==> !WellFormed(rs)
  {
    if rs != [] {
      var init, last := rs[..|rs| - 1], rs[|rs| - 1];
      AbortsIffMalformed(m, init);
      assert rs == init + [last];
    }
  }

  /** A batch leaves each identity as its last relevant record dictates, and no other touched. */
  lemma {:induction false} LastRecordWins(m: Mirrors, rs: seq<ExternalRecord>, id: Identity)
    requires WellFormed(rs)
    ensures Lookup(Land(m, rs), id) == Overlay(Lookup(m, id), Decide(rs, id))
  {
    AbortsIffMalformed(m, rs);
    if rs != [] {
      var init, last := rs[..|rs| - 1], rs[|rs| - 1];
      assert last in rs;
      assert forall r <- init :: r in rs;
      AbortsIffMalformed(m, init);
      LastRecordWins(m, init, id);
    }
  }

  lemma SameLookups(m: Mirrors, n: Mirrors)
    requires forall id :: Lookup(m, id) == Lookup(n, id)
    ensures m == n
  {
    forall id ensures id in m <==> id in n {
      assert Lookup(m, id) == Lookup(n, id);
    }
    forall id | id in m ensures m[id] == n[id] {
      assert Lookup(m, id) == Lookup(n, id);
    }
  }

  /** The later half of a batch overrides the earlier half. */
  lemma {:induction false} DecideConcat(a: seq<ExternalRecord>, b: seq<ExternalRecord>, id: Identity)
    ensures Decide(a + b, id) == if Mentions(b, id) then Decide(b, id) else Decide(a, id)
  {
    if b == [] {
      assert a + b == a;
    } else {
      var init, last := b[..|b| - 1], b[|b| - 1];
      assert (a + b)[..|a + b| - 1] == a + init;
      assert b == init + [last];
      DecideConcat(a, init, id);
    }
  }

  predicate Mentions(rs: seq<ExternalRecord>, id: Identity) {
    exists r <- rs :: Relevant(r) && IdentityOf(r) == id
  }

  lemma {:induction false} SilentIffUnmentioned(rs: seq<ExternalRecord>, id: Identity)
    requires WellFormed(rs)
    ensures Decide(rs, id) == Silent <==> !Mentions(rs, id)
  {
    if rs != [] {
      var init, last := rs[..|rs| - 1], rs[|rs| - 1];
      assert rs == init + [last];
      SilentIffUnmentioned(init, id);
    }
  }

  lemma WellFormedConcat(a: seq<ExternalRecord>, b: seq<ExternalRecord>)
    requires WellFormed(a) && WellFormed(b)
    ensures WellFormed(a + b)
  {
  }

  lemma DecideAppend(a: seq<ExternalRecord>, b: seq<ExternalRecord>, id: Identity)
    requires WellFormed(b)
    ensures Decide(a + b, id) == if Decide(b, id) != Silent then Decide(b, id) else Decide(a, id)
  {
    DecideConcat(a, b, id);
    SilentIffUnmentioned(b, id);
  }

  /** `l` is `k` with `base` already on its counters. */
  predicate Shifted(l: Landing, base: Report, k: Landing) {
    l == Landing(k.mirrors, base.Plus(k.report), k.aborted)
  }

  /** The counts so far do not influence a step. */
  lemma StepKeepsShift(l: Landing, base: Report, k: Landing, r: ExternalRecord)
    requires Shifted(l, base, k)
    ensures Shifted(Step(l, r), base, Step(k, r))
  {
  }

  lemma FoldSnoc(m: Mirrors, rs: seq<ExternalRecord>, r: ExternalRecord)
    ensures Fold(m, rs + [r]) == Step(Fold(m, rs), r)
  {
    assert (rs + [r])[..|rs|] == rs;
  }

  /** A batch in two halves is the first half, then the second on top of it. */
  lemma {:induction false} LandConcat(m: Mirrors, a: seq<ExternalRecord>, b: seq<ExternalRecord>)
    requires !Fold(m, a).aborted
    ensures Shifted(Fold(m, a + b), Fold(m, a).report, Fold(Land(m, a), b))
  {
    if b == [] {
      assert a + b == a;
    } else {
      var init, last := b[..|b| - 1], b[|b| - 1];
      assert a + b == (a + init) + [last] && b == init + [last];
      LandConcat(m, a, init);
      FoldSnoc(m, a + init, last);
      FoldSnoc(Land(m, a), init, last);
      StepKeepsShift(Fold(m, a + init), Fold(m, a).report, Fold(Land(m, a), init), last);
    }
  }

  /** Landing two well-formed batches as one is landing the first, then the second. */
  lemma LandAppends(m: Mirrors, a: seq<ExternalRecord>, b: seq<ExternalRecord>)
    requires WellFormed(a) && WellFormed(b)
    ensures WellFormed(a + b) && Land(m, a + b) == Land(Land(m, a), b)
  {
    AbortsIffMalformed(m, a);
    LandConcat(m, a, b);
    WellFormedConcat(a, b);
  }

  // ---------------------------------------------------------------------------
  // Laws of a batch
  // ---------------------------------------------------------------------------

  /** Applying the batch again changes nothing. */
  lemma Idempotent(m: Mirrors, rs: seq<ExternalRecord>)
    requires WellFormed(rs)
    ensures Land(Land(m, rs), rs) == Land(m, rs)
  {
    forall id ensures Lookup(Land(Land(m, rs), rs), id) == Lookup(Land(m, rs), id) {
      LastRecordWins(m, rs, id);
      LastRecordWins(Land(m, rs), rs, id);
    }
    SameLookups(Land(Land(m, rs), rs), Land(m, rs));
  }

  /** The records committed before the malformed one. */
  function Committed(rs: seq<ExternalRecord>): (pre: seq<ExternalRecord>)
    ensures WellFormed(pre) && pre <= rs
  {
    if rs == [] then []
    else
      var pre := Committed(rs[..|rs| - 1]);
      if pre == rs[..|rs| - 1] && WellFormed(rs[|rs| - 1..]) then
        assert rs == pre + rs[|rs| - 1..];
        rs
      else pre
  }

  /** An aborted batch has landed its records before the first malformed one, and no more. */
  lemma {:induction false} AbortLandsCommittedPrefix(m: Mirrors, rs: seq<ExternalRecord>)
    ensures Land(m, rs) == Land(m, Committed(rs))
    ensures Committed(rs) == rs <==> !Fold(m, rs).aborted
    ensures Committed(rs) != rs ==> !WellFormed([rs[|Committed(rs)|]])
  {
    if rs != [] {
      var init, last := rs[..|rs| - 1], rs[|rs| - 1];
      AbortLandsCommittedPrefix(m, init);
      AbortsIffMalformed(m, rs);
      CommittedSnoc(rs);
      if Committed(init) != init {
        assert init[|Committed(init)|] == rs[|Committed(init)|];
      }
    }
  }

  lemma CommittedSnoc(rs: seq<ExternalRecord>)
    requires rs != []
    ensures var init, last := rs[..|rs| - 1], rs[|rs| - 1];
            && Committed(rs) == (if Committed(init) == init && WellFormed([last]) then rs else Committed(init))
            && (WellFormed(rs) ==> WellFormed(init) && WellFormed([last]))
  {
    assert rs[|rs| - 1..] == [rs[|rs| - 1]];
    assert forall r <- rs[..|rs| - 1] :: r in rs;
  }

  /**
   Recovery: after a batch aborted, applying a repaired batch that speaks of every identity
   the aborted one had already touched ends where the repaired batch alone would have ended.
   */
  lemma RecoverAfterAbort(m: Mirrors, broken: seq<ExternalRecord>, fixed: seq<ExternalRecord>)
    requires WellFormed(fixed)
    requires forall r <- Committed(broken) :: Relevant(r) ==> Mentions(fixed, IdentityOf(r))
    ensures Land(Land(m, broken), fixed) == Land(m, fixed)
  {
    var pre := Committed(broken);
    AbortLandsCommittedPrefix(m, broken);
    forall id ensures Lookup(Land(Land(m, pre), fixed), id) == Lookup(Land(m, fixed), id) {
      LastRecordWins(m, fixed, id);
      LastRecordWins(m, pre, id);
      LastRecordWins(Land(m, pre), fixed, id);
      SilentIffUnmentioned(fixed, id);
      SilentIffUnmentioned(pre, id);
    }
    SameLookups(Land(Land(m, pre), fixed), Land(m, fixed));
  }

  /**
   The mention requirement of `RecoverAfterAbort` is needed: an identity the repaired batch
   forgets keeps what the aborted batch gave it.
   */
  lemma ForgottenIdentityIsNotRecovered(m: Mirrors, broken: seq<ExternalRecord>, fixed: seq<ExternalRecord>,
                                        id: Identity)
    requires WellFormed(fixed) && !Mentions(fixed, id)
    requires Overlay(Lookup(m, id), Decide(Committed(broken), id)) != Lookup(m, id)
    ensures Land(Land(m, broken), fixed) != Land(m, fixed)
  {
    var pre := Committed(broken);
    AbortLandsCommittedPrefix(m, broken);
    LastRecordWins(m, pre, id);
    LastRecordWins(m, fixed, id);
    LastRecordWins(Land(m, pre), fixed, id);
    SilentIffUnmentioned(fixed, id);
  }

  /**
   The exact condition of recovery: every identity the repaired batch does not mention is as
   the aborted batch found it.
   */
  lemma RecoversIff(m: Mirrors, broken: seq<ExternalRecord>, fixed: seq<ExternalRecord>)
    requires WellFormed(fixed)
    ensures Land(Land(m, broken), fixed) == Land(m, fixed)
       <==> forall id :: !Mentions(fixed, id) ==> Overlay(Lookup(m, id), Decide(Committed(broken), id)) == Lookup(m, id)
  {
    var pre := Committed(broken);
    AbortLandsCommittedPrefix(m, broken);
    forall id ensures Lookup(Land(Land(m, pre), fixed), id) == Lookup(Land(m, fixed), id)
                 <==> Mentions(fixed, id) || Overlay(Lookup(m, id), Decide(pre, id)) == Lookup(m, id)
    {
      LastRecordWins(m, fixed, id);
      LastRecordWins(m, pre, id);
      LastRecordWins(Land(m, pre), fixed, id);
      SilentIffUnmentioned(fixed, id);
    }
    if forall id :: Lookup(Land(Land(m, pre), fixed), id) == Lookup(Land(m, fixed), id) {
      SameLookups(Land(Land(m, pre), fixed), Land(m, fixed));
    }
  }

  /** Every record of a completed batch is counted exactly once. */
  lemma {:induction false} CountsSumToLength(m: Mirrors, rs: seq<ExternalRecord>)
    requires WellFormed(rs)
    ensures Fold(m, rs).report.Total() == |rs|
  {
    AbortsIffMalformed(m, rs);
    if rs != [] {
      var init := rs[..|rs| - 1];
      assert forall r <- init :: r in rs;
      AbortsIffMalformed(m, init);
      CountsSumToLength(m, init);
    }
  }

  /** How many live calendar events a batch brings. */
  function LiveEvents(rs: seq<ExternalRecord>): nat {
    if rs == [] then 0
    else
      var last := rs[|rs| - 1];
      LiveEvents(rs[..|rs| - 1]) + if !last.deleted && last.externalType == CALENDAR_EVENT then 1 else 0
  }

  /** How many of its tombstones find a mirror where they stand. */
  function TombstonesThatHit(m: Mirrors, rs: seq<ExternalRecord>): nat {
    if rs == [] then 0
    else
      var init, last := rs[..|rs| - 1], rs[|rs| - 1];
      TombstonesThatHit(m, init)
      + if last.deleted && Overlay(Lookup(m, IdentityOf(last)), Decide(init, IdentityOf(last))).Some? then 1 else 0
  }

  /** Each counter counts what it is named for: live events applied, mirrors removed, the rest skipped. */
  lemma {:induction false} CountsAre(m: Mirrors, rs: seq<ExternalRecord>)
    requires WellFormed(rs)
    ensures var report := Fold(m, rs).report;
            && report.applied == LiveEvents(rs) && report.removed == TombstonesThatHit(m, rs)
            && report.skipped == |rs| - LiveEvents(rs) - TombstonesThatHit(m, rs)
  {
    CountsSumToLength(m, rs);
    AppliedAndRemoved(m, rs);
  }

  lemma {:induction false} AppliedAndRemoved(m: Mirrors, rs: seq<ExternalRecord>)
    requires WellFormed(rs)
    ensures Fold(m, rs).report.applied == LiveEvents(rs)
    ensures Fold(m, rs).report.removed == TombstonesThatHit(m, rs)
  {
    if rs != [] {
      var init, last := rs[..|rs| - 1], rs[|rs| - 1];
      assert last in rs && forall r <- init :: r in rs;
      AppliedAndRemoved(m, init);
      AbortsIffMalformed(m, init);
      LastRecordWins(m, init, IdentityOf(last));
    }
  }
}
