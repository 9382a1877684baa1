/**
 The drain over whole histories: staging by any household, syncs, failing syncs and cursors
 overwritten with text that is no row id. Every staged message of a household is delivered
 once and in order, and once more per clearing of its cursor at most.
 */
module WhatsAppDrain {
  import opened Wrappers
  import opened CursorRules
  import opened WhatsAppStaging

  /**
   One household's view. `mark` is the highest id drained since the cursor was last cleared,
   `drained` what was delivered since then and `earlier` what was delivered before.
   */
  datatype World = World(
    rows: Table,
    nextId: nat,
    cursor: Option<CursorText>,
    mark: Option<int>,
    drained: seq<Message>,
    earlier: seq<Message>,
    clears: nat
  )

  /** A run of the connector, a run that raised before finishing, staging, and a spoiled cursor. */
  datatype Step = Stage(household: string, event: Event) | Sync | Fail | Poison(text: string)

  function Staging(w: World, household: string, event: Event): World {
    w.(rows := if Staged(w.rows, event.wamid) then w.rows else w.rows + [Row(w.nextId, household, event)],
       nextId := w.nextId + 1)
  }

  function Syncing(w: World, home: string): World {
    var outcome := Drain(w.rows, home, w.cursor);
    var cursor := CursorAfter(w.cursor, outcome);
    if outcome.Failure? then
      w.(cursor := cursor, mark := None, drained := [], earlier := w.earlier + w.drained, clears := w.clears + 1)
    else
      w.(cursor := cursor, mark := AfterId(cursor), drained := w.drained + Delivered(outcome))
  }

  function Next(w: World, step: Step, home: string): World {
    match step
    case Stage(household, event) => Staging(w, household, event)
    case Sync => Syncing(w, home)
    case Fail => w
    case Poison(text) => w.(cursor := Some(Foreign(text)))
  }

  function RunWorld(steps: seq<Step>, home: string): World {
    if steps == [] then World([], 0, None, None, [], [], 0)
    else Next(RunWorld(steps[..|steps| - 1], home), steps[|steps| - 1], home)
  }

  /** All of a household's rows, in id order. */
  function Mine(t: Table, home: string): seq<Row> {
    Pending(t, home, None)
  }

  /** How many of these rows have ids up to the mark. */
  function Cut(rows: seq<Row>, mark: Option<int>): (n: nat)
    ensures n <= |rows|
  {
    if mark.None? || rows == [] then 0
    else if rows[|rows| - 1].id <= mark.value then |rows|
    else Cut(rows[..|rows| - 1], mark)
  }

  ghost predicate Rising(rows: seq<Row>) {
    forall i, j | 0 <= i < j < |rows| :: rows[i].id < rows[j].id && rows[i].event.wamid != rows[j].event.wamid
  }

  // ---------------------------------------------------------------------------
  // A household's rows split at the mark
  // ---------------------------------------------------------------------------

  lemma {:induction false} MineMembers(t: Table, home: string, r: Row)
    ensures r in Mine(t, home) <==> r in t && r.household == home
  {
    if t != [] {
      var init, last := t[..|t| - 1], t[|t| - 1];
      assert t == init + [last];
      MineMembers(init, home, r);
    }
  }

  lemma {:induction false} MineRising(t: Table, nextId: nat, home: string)
    requires WellKept(t, nextId)
    ensures Rising(Mine(t, home)) && forall r <- Mine(t, home) :: r.id < nextId
  {
    if t != [] {
      var init, last := t[..|t| - 1], t[|t| - 1];
      MineRising(init, nextId, home);
      forall r | r in Mine(init, home) ensures r.id < last.id && r.event.wamid != last.event.wamid {
        MineMembers(init, home, r);
      }
    }
  }

  lemma {:induction false} CutSplits(rows: seq<Row>, mark: Option<int>, i: nat)
    requires Rising(rows) && i < |rows|
    ensures i < Cut(rows, mark) <==> mark.Some? && rows[i].id <= mark.value
  {
    if mark.Some? && rows[|rows| - 1].id > mark.value && i < |rows| - 1 {
      CutSplits(rows[..|rows| - 1], mark, i);
    }
  }

  lemma CutSnoc(rows: seq<Row>, last: Row, mark: Option<int>)
    requires Rising(rows + [last])
    ensures Cut(rows + [last], mark) == if mark.Some? && last.id <= mark.value then |rows| + 1 else Cut(rows, mark)
    ensures mark.Some? && last.id <= mark.value ==> Cut(rows, mark) == |rows|
  {
    var all := rows + [last];
    assert all[..|rows|] == rows;
    if mark.Some? && last.id <= mark.value && rows != [] {
      assert all[|rows| - 1].id < all[|rows|].id;
    }
  }

  /** The mark of the m-th row cuts after m rows. */
  lemma CutAt(rows: seq<Row>, m: nat)
    requires Rising(rows) && 0 < m <= |rows|
    ensures Cut(rows, Some(rows[m - 1].id)) == m
  {
    var mark := Some(rows[m - 1].id);
    CutSplits(rows, mark, m - 1);
    if m < |rows| { CutSplits(rows, mark, m); }
  }

  /** What the query returns is the part of the household's rows past the mark. */
  lemma {:induction false} PendingIsSuffix(t: Table, nextId: nat, home: string, mark: Option<int>)
    requires WellKept(t, nextId)
    ensures Pending(t, home, mark) == Mine(t, home)[Cut(Mine(t, home), mark)..]
  {
    if t != [] {
      var init, last := t[..|t| - 1], t[|t| - 1];
      PendingIsSuffix(init, nextId, home, mark);
      MineRising(t, nextId, home);
      var mine := Mine(init, home);
      if last.household == home {
        CutSnoc(mine, last, mark);
        assert Mine(t, home) == mine + [last];
      } else {
        assert Mine(t, home) == mine + [] == mine;
      }
    }
  }

  // ---------------------------------------------------------------------------
  // Invariant
  // ---------------------------------------------------------------------------

  ghost predicate Inv(w: World, home: string) {
    && WellKept(w.rows, w.nextId)
    && (w.mark.Some? ==> w.mark.value < w.nextId)
    && (w.cursor.None? || w.cursor.value.RowId? ==> w.mark == AfterId(w.cursor))
    && w.drained == Records(Mine(w.rows, home)[..Cut(Mine(w.rows, home), w.mark)])
  }

  /** A new row extends its household's rows past any earlier mark. */
  lemma MineAfterStaging(t: Table, row: Row, mark: Option<int>, home: string)
    requires WellKept(t + [row], row.id + 1) && (mark.Some? ==> mark.value < row.id)
    ensures var mine := Mine(t, home);
            && Mine(t + [row], home) == (if row.household == home then mine + [row] else mine)
            && Cut(Mine(t + [row], home), mark) == Cut(mine, mark)
  {
    var mine := Mine(t, home);
    assert (t + [row])[..|t|] == t;
    MineRising(t + [row], row.id + 1, home);
    if row.household == home {
      CutSnoc(mine, row, mark);
    } else {
      assert mine + [] == mine;
    }
  }

  lemma StagingKeepsInv(w: World, household: string, event: Event, home: string)
    requires Inv(w, home)
    ensures Inv(Staging(w, household, event), home)
  {
    if !Staged(w.rows, event.wamid) {
      var row := Row(w.nextId, household, event);
      StagedKept(w.rows, row);
      MineAfterStaging(w.rows, row, w.mark, home);
      var mine := Mine(w.rows, home);
      assert (mine + [row])[..Cut(mine, w.mark)] == mine[..Cut(mine, w.mark)];
    }
  }

  lemma StagedKept(t: Table, row: Row)
    requires WellKept(t, row.id) && !Staged(t, row.event.wamid)
    ensures WellKept(t + [row], row.id + 1)
  {
  }

  predicate Readable(cursor: Option<CursorText>) {
    cursor.None? || cursor.value.RowId?
  }

  /** How far a run that reads the table gets. */
  function Reach(mine: seq<Row>, n: nat): nat
    requires n <= |mine|
  {
    if |mine| - n <= DEFAULT_BATCH then |mine| else n + DEFAULT_BATCH
  }

  /** Such a run's outcome: the next rows past the mark, at most a batch, and the last one's id. */
  lemma DrainIs(w: World, home: string)
    requires Inv(w, home) && Readable(w.cursor)
    ensures var mine := Mine(w.rows, home);
            var n := Cut(mine, w.mark);
            var m := Reach(mine, n);
            n <= m <= |mine|
            && Drain(w.rows, home, w.cursor)
               == Success(SyncResult(Records(mine[n..m]), if n == m then None else Some(RowId(mine[m - 1].id))))
  {
    var mine := Mine(w.rows, home);
    var n := Cut(mine, w.mark);
    PendingIsSuffix(w.rows, w.nextId, home, w.mark);
    assert Take(mine[n..], DEFAULT_BATCH) == mine[n..Reach(mine, n)];
  }

  /** A run that reads the table moves the mark to the last row it delivers. */
  lemma SyncMoves(w: World, home: string)
    requires Inv(w, home) && Readable(w.cursor)
    ensures var mine := Mine(w.rows, home);
            var n := Cut(mine, w.mark);
            var m := Reach(mine, n);
            var mark := if n == m then w.mark else Some(mine[m - 1].id);
            && Syncing(w, home) == w.(cursor := if n == m then w.cursor else Some(RowId(mine[m - 1].id)), mark := mark,
                                      drained := w.drained + Records(mine[n..m]))
            && Cut(mine, mark) == m && (mark.Some? ==> mark.value < w.nextId)
  {
    var mine := Mine(w.rows, home);
    var n := Cut(mine, w.mark);
    var m := Reach(mine, n);
    DrainIs(w, home);
    MineRising(w.rows, w.nextId, home);
    if n < m {
      CutAt(mine, m);
      assert mine[m - 1] in mine;
    }
  }

  lemma SyncDelivers(w: World, home: string)
    requires Inv(w, home) && Readable(w.cursor)
    ensures Inv(Syncing(w, home), home) && Readable(Syncing(w, home).cursor)
    ensures Syncing(w, home).rows == w.rows && Syncing(w, home).earlier == w.earlier
    ensures var mine := Mine(w.rows, home);
            Cut(mine, Syncing(w, home).mark) == Reach(mine, Cut(mine, w.mark))
  {
    var mine := Mine(w.rows, home);
    var n := Cut(mine, w.mark);
    var m := Reach(mine, n);
    SyncMoves(w, home);
    RecordsConcat(mine[..n], mine[n..m]);
    assert mine[..m] == mine[..n] + mine[n..m];
  }

  lemma RecordsConcat(a: seq<Row>, b: seq<Row>)
    ensures Records(a + b) == Records(a) + Records(b)
  {
  }

  lemma StepKeepsInv(w: World, step: Step, home: string)
    requires Inv(w, home)
    ensures Inv(Next(w, step, home), home)
  {
    match step
    case Stage(household, event) => StagingKeepsInv(w, household, event, home);
    case Sync => if Readable(w.cursor) { SyncDelivers(w, home); }
    case Fail =>
    case Poison(_) =>
  }

  lemma {:induction false} RunKeepsInv(steps: seq<Step>, home: string)
    ensures Inv(RunWorld(steps, home), home)
  {
    if steps != [] {
      RunKeepsInv(steps[..|steps| - 1], home);
      StepKeepsInv(RunWorld(steps[..|steps| - 1], home), steps[|steps| - 1], home);
    }
  }

  // ---------------------------------------------------------------------------
  // Main results
  // ---------------------------------------------------------------------------

  /** A message hands on the staged event: corrections under types of their own, so that they are told apart. */
  predicate Carries(m: Message, event: Event) {
    && m.externalId == event.wamid && m.payload == event
    && (m.externalType == "message.edit" <==> event.kind == "edit")
    && (m.externalType == "message.revoked" <==> event.kind == "revoke")
    && m.externalType in {"message", "message.edit", "message.revoked"}
  }

  lemma RecordCarries(r: Row)
    ensures Carries(Record(r), r.event)
  {
    assert |"message"| != |"message.edit"| && |"message.edit"| != |"message.revoked"|;
    assert |"message"| != |"message.revoked"| && |"edit"| != |"revoke"|;
  }

  /** The rows of a household up to its cursor, in id order. */
  ghost predicate UpToCursor(drained: seq<Message>, t: Table, home: string, mark: Option<int>) {
    var mine := Mine(t, home);
    && |drained| <= |mine| && Rising(mine)
    && (forall i | 0 <= i < |drained| :: Carries(drained[i], mine[i].event))
    && (forall i | 0 <= i < |mine| :: i < |drained| <==> mark.Some? && mine[i].id <= mark.value)
  }

  predicate NoPoison(steps: seq<Step>) {
    forall s <- steps :: !s.Poison?
  }

  lemma {:induction false} NeverCleared(steps: seq<Step>, home: string)
    requires NoPoison(steps)
    ensures var w := RunWorld(steps, home);
            w.earlier == [] && w.clears == 0 && Readable(w.cursor)
  {
    if steps != [] {
      var init := steps[..|steps| - 1];
      assert forall s <- init :: s in steps;
      assert steps[|steps| - 1] in steps;
      NeverCleared(init, home);
    }
  }

  /**
   Exactly once: over every interleaving of staging, syncs and failed syncs, what a household
   has been given is exactly its staged rows up to its cursor, in id order, each wamid once.
   */
  lemma ExactlyOnce(steps: seq<Step>, home: string)
    requires NoPoison(steps)
    ensures var w := RunWorld(steps, home);
            w.earlier == [] && UpToCursor(w.drained, w.rows, home, AfterId(w.cursor))
  {
    RunKeepsInv(steps, home);
    NeverCleared(steps, home);
    DrainedUpToMark(RunWorld(steps, home), home);
  }

  lemma DrainedUpToMark(w: World, home: string)
    requires Inv(w, home)
    ensures UpToCursor(w.drained, w.rows, home, w.mark)
  {
    var mine := Mine(w.rows, home);
    MineRising(w.rows, w.nextId, home);
    forall i | 0 <= i < |mine| ensures i < Cut(mine, w.mark) <==> w.mark.Some? && mine[i].id <= w.mark.value {
      CutSplits(mine, w.mark, i);
    }
    forall i | 0 <= i < |w.drained| ensures Carries(w.drained[i], mine[i].event) {
      RecordCarries(mine[i]);
    }
  }

  function SyncTimes(w: World, k: nat, home: string): World {
    if k == 0 then w else Syncing(SyncTimes(w, k - 1, home), home)
  }

  lemma {:induction false} SyncsAdvance(w: World, k: nat, home: string)
    requires Inv(w, home) && Readable(w.cursor)
    ensures var mine, after := Mine(w.rows, home), SyncTimes(w, k, home);
            var n := Cut(mine, w.mark) + k * DEFAULT_BATCH;
            && Inv(after, home) && after.rows == w.rows && after.earlier == w.earlier && Readable(after.cursor)
            && Cut(mine, after.mark) == if |mine| <= n then |mine| else n
  {
    if k > 0 {
      SyncsAdvance(w, k - 1, home);
      SyncDelivers(SyncTimes(w, k - 1, home), home);
      var mine, n := Mine(w.rows, home), Cut(Mine(w.rows, home), w.mark);
      ReachAdds(mine, n, k, Cut(mine, SyncTimes(w, k - 1, home).mark));
    }
  }

  lemma ReachAdds(mine: seq<Row>, n: nat, k: nat, m: nat)
    requires k > 0 && m <= |mine|
    requires m == if |mine| <= n + (k - 1) * DEFAULT_BATCH then |mine| else n + (k - 1) * DEFAULT_BATCH
    ensures Reach(mine, m) == if |mine| <= n + k * DEFAULT_BATCH then |mine| else n + k * DEFAULT_BATCH
  {
  }

  /** Enough syncs drain everything, from any reachable state with a readable cursor. */
  lemma EnoughSyncsDrainAll(steps: seq<Step>, k: nat, home: string)
    requires var w := RunWorld(steps, home);
             Readable(w.cursor) && |Mine(w.rows, home)| <= |w.drained| + k * 500
    ensures var w := RunWorld(steps, home);
            SyncTimes(w, k, home).drained == Records(Mine(w.rows, home))
  {
    RunKeepsInv(steps, home);
    var w := RunWorld(steps, home);
    SyncsAdvance(w, k, home);
    assert Mine(w.rows, home)[..|Mine(w.rows, home)|] == Mine(w.rows, home);
  }

  lemma {:induction false} SyncTimesSplits(w: World, k: nat, home: string)
    ensures SyncTimes(w, k + 1, home) == SyncTimes(Syncing(w, home), k, home)
  {
    if k > 0 { SyncTimesSplits(w, k - 1, home); }
  }

  /** A spoiled cursor costs one sync, which clears it; the syncs after it deliver every row again. */
  lemma ClearedCursorRedelivers(steps: seq<Step>, k: nat, home: string)
    requires var w := RunWorld(steps, home);
             !Readable(w.cursor) && |Mine(w.rows, home)| <= k * DEFAULT_BATCH
    ensures var w := RunWorld(steps, home);
            var after := SyncTimes(w, k + 1, home);
            after.drained == Records(Mine(w.rows, home)) && after.earlier == w.earlier + w.drained
  {
    RunKeepsInv(steps, home);
    var w := RunWorld(steps, home);
    var cleared := Syncing(w, home);
    SyncTimesSplits(w, k, home);
    SyncsAdvance(cleared, k, home);
    assert Mine(w.rows, home)[..|Mine(w.rows, home)|] == Mine(w.rows, home);
  }

  /** How often a message was delivered. */
  function Times(ms: seq<Message>, m: Message): nat {
    if ms == [] then 0 else Times(ms[..|ms| - 1], m) + if ms[|ms| - 1] == m then 1 else 0
  }

  lemma {:induction false} TimesConcat(a: seq<Message>, b: seq<Message>, m: Message)
    ensures Times(a + b, m) == Times(a, m) + Times(b, m)
  {
    if b == [] {
      assert a + b == a;
    } else {
      assert (a + b)[..|a + b| - 1] == a + b[..|b| - 1];
      TimesConcat(a, b[..|b| - 1], m);
    }
  }

  /** With spoiled cursors, no message is delivered more than once per clearing and once besides. */
  lemma {:induction false} AtMostOncePerClearing(steps: seq<Step>, home: string, m: Message)
    ensures var w := RunWorld(steps, home);
            Times(w.earlier, m) <= w.clears && Times(w.drained, m) <= 1
  {
    if steps != [] {
      var init, last := steps[..|steps| - 1], steps[|steps| - 1];
      var before := RunWorld(init, home);
      AtMostOncePerClearing(init, home, m);
      TimesConcat(before.earlier, before.drained, m);
      RunKeepsInv(init, home);
      if last.Sync? && Readable(before.cursor) { SyncDelivers(before, home); }
    }
    RunKeepsInv(steps, home);
    DrainedOnce(RunWorld(steps, home), home, m);
  }

  lemma DrainedOnce(w: World, home: string, m: Message)
    requires Inv(w, home)
    ensures Times(w.drained, m) <= 1
  {
    MineRising(w.rows, w.nextId, home);
    DistinctOnce(Mine(w.rows, home)[..Cut(Mine(w.rows, home), w.mark)], m);
  }

  lemma {:induction false} DistinctOnce(rows: seq<Row>, m: Message)
    requires Rising(rows)
    ensures Times(Records(rows), m) <= 1
    ensures Times(Records(rows), m) == 0 || exists r <- rows :: Record(r) == m
  {
    if rows != [] {
      var init, last := rows[..|rows| - 1], rows[|rows| - 1];
      DistinctOnce(init, m);
      RecordsConcat(init, [last]);
      assert rows == init + [last];
      assert Records(rows)[..|init|] == Records(init);
    }
  }
}
