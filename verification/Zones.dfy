/**
 Time zones as lists of offset transitions, with the wall-clock conversions of
 `zoneinfo.ZoneInfo` for fold 0 as src/nidaro/calendar/recurrence.py uses them.
 Times are microseconds; a wall clock reading is counted from midnight of day 0.
 */
module Zones {

  const DAY: int := 86_400_000_000

  /** From the instant `at` on, local time is UTC plus `offset`. */
  datatype Transition = Transition(at: int, offset: int)

  datatype Zone = Zone(initial: int, transitions: seq<Transition>)

  /** The offset in force before the i-th transition. */
  function OffsetBefore(z: Zone, i: nat): int
    requires i <= |z.transitions|
  {
    if i == 0 then z.initial else z.transitions[i - 1].offset
  }

  /** The wall clock reading from which the i-th transition counts, for fold 0. */
  function WallAt(z: Zone, i: nat): int
    requires i < |z.transitions|
  {
    var t := z.transitions[i];
    t.at + if t.offset > OffsetBefore(z, i) then t.offset else OffsetBefore(z, i)
  }

  /** Transitions are listed in order, in UTC and on the wall clock, as both bisections require. */
  ghost predicate Ordered(z: Zone) {
    && (forall i, j | 0 <= i < j < |z.transitions| :: z.transitions[i].at < z.transitions[j].at)
    && (forall i, j | 0 <= i < j < |z.transitions| :: WallAt(z, i) <= WallAt(z, j))
  }

  /** How many transitions have happened by a UTC instant, among the first n. */
  function UtcIndex(z: Zone, utc: int, n: nat): (k: nat)
    requires n <= |z.transitions|
    ensures k <= n && (k > 0 ==> z.transitions[k - 1].at <= utc)
    ensures forall i | k <= i < n :: z.transitions[i].at > utc
  {
    if n == 0 || z.transitions[n - 1].at <= utc then n else UtcIndex(z, utc, n - 1)
  }

  /** How many transitions count for a wall clock reading, among the first n. */
  function WallIndex(z: Zone, wall: int, n: nat): (k: nat)
    requires n <= |z.transitions|
    ensures k <= n && (k > 0 ==> WallAt(z, k - 1) <= wall)
    ensures forall i | k <= i < n :: WallAt(z, i) > wall
  {
    if n == 0 || WallAt(z, n - 1) <= wall then n else WallIndex(z, wall, n - 1)
  }

  /** `astimezone(tz)`: the wall clock at a UTC instant. */
  function Local(z: Zone, utc: int): int {
    utc + OffsetBefore(z, UtcIndex(z, utc, |z.transitions|))
  }

  /** `replace(tzinfo=tz).astimezone(utc)`: the UTC instant of a wall clock reading. */
  function Utc(z: Zone, wall: int): int {
    wall - OffsetBefore(z, WallIndex(z, wall, |z.transitions|))
  }

  /** The instant lies after the first i transitions and before the next. */
  predicate InSegment(z: Zone, utc: int, i: nat) {
    && i <= |z.transitions|
    && (i > 0 ==> z.transitions[i - 1].at <= utc)
    && (i < |z.transitions| ==> utc < z.transitions[i].at)
  }

  /** The clock shows the offset of the last transition that has happened, the initial one before any. */
  lemma LocalIs(z: Zone, utc: int, i: nat)
    requires Ordered(z) && InSegment(z, utc, i)
    ensures Local(z, utc) - utc == if i == 0 then z.initial else z.transitions[i - 1].offset
  {
    SegmentIs(z, utc, i);
  }

  lemma SegmentIs(z: Zone, utc: int, i: nat)
    requires Ordered(z) && InSegment(z, utc, i)
    ensures UtcIndex(z, utc, |z.transitions|) == i
  {
    InOrder(z);
    var k := UtcIndex(z, utc, |z.transitions|);
  }

  lemma InOrder(z: Zone)
    requires Ordered(z)
    ensures forall i, j | 0 <= i <= j < |z.transitions| :: z.transitions[i].at <= z.transitions[j].at
    ensures forall i, j | 0 <= i <= j < |z.transitions| :: WallAt(z, i) <= WallAt(z, j)
  {
  }

  /** The i-th transition jumps over the reading. */
  predicate Skips(z: Zone, i: nat, wall: int)
    requires i < |z.transitions|
  {
    z.transitions[i].at + OffsetBefore(z, i) <= wall < z.transitions[i].at + z.transitions[i].offset
  }

  /** A reading no transition jumps over is shown at its UTC instant, and at no earlier one. */
  lemma UtcIsEarliest(z: Zone, wall: int, utc: int)
    requires Ordered(z) && forall i | 0 <= i < |z.transitions| :: !Skips(z, i, wall)
    ensures Local(z, Utc(z, wall)) == wall
    ensures Local(z, utc) == wall ==> Utc(z, wall) <= utc
  {
    var j, k := WallIndex(z, wall, |z.transitions|), UtcIndex(z, utc, |z.transitions|);
    assert j < |z.transitions| ==> wall < WallAt(z, j) && !Skips(z, j, wall);
    SegmentIs(z, Utc(z, wall), j);
    InOrder(z);
    assert Local(z, utc) == wall && k < |z.transitions| ==> wall < WallAt(z, k);
  }

  /** One it jumps over is read with the offset before the jump. */
  lemma UtcOfSkipped(z: Zone, wall: int, i: nat)
    requires Ordered(z) && i < |z.transitions| && Skips(z, i, wall)
    requires i > 0 ==> WallAt(z, i - 1) <= wall
    ensures Utc(z, wall) == wall - OffsetBefore(z, i)
  {
    InOrder(z);
    var j := WallIndex(z, wall, |z.transitions|);
    assert wall < WallAt(z, i);
  }

  function DayOf(wall: int): int {
    wall / DAY
  }

  function TimeOf(wall: int): int {
    wall % DAY
  }

  /** Midnight of a calendar day, in UTC. */
  function Midnight(z: Zone, day: int): int {
    Utc(z, day * DAY)
  }

  // ---------------------------------------------------------------------------
  // When does a window's midnight separate its instants by calendar day?
  // ---------------------------------------------------------------------------

  /** The i-th transition moves the clock from one side of the wall reading m strictly to the other. */
  predicate Crosses(z: Zone, i: nat, m: int)
    requires i < |z.transitions|
  {
    var t := z.transitions[i];
    t.at + OffsetBefore(z, i) < m < t.at + t.offset || t.at + t.offset < m < t.at + OffsetBefore(z, i)
  }

  predicate CrossesMidnight(z: Zone, i: nat, day: int)
    requires i < |z.transitions|
  {
    Crosses(z, i, day * DAY)
  }

  /** No transition carries the clock back over midnight, and none jumps past it. */
  ghost predicate NoMidnightCrossing(z: Zone) {
    forall i, day: int | 0 <= i < |z.transitions| :: !CrossesMidnight(z, i, day)
  }

  /** A wall reading splits the instants: those before it are those earlier than its UTC instant. */
  ghost predicate Splits(z: Zone, m: int) {
    forall utc :: Local(z, utc) < m <==> utc < Utc(z, m)
  }

  /** The instants before a day's midnight are those whose local date is earlier. */
  ghost predicate SplitsDay(z: Zone, day: int) {
    Splits(z, day * DAY)
  }

  lemma WallSide(z: Zone, m: int, i: nat)
    requires Ordered(z) && i < |z.transitions| && !Crosses(z, i, m)
    ensures var t := z.transitions[i];
            if i < WallIndex(z, m, |z.transitions|)
            then t.at + OffsetBefore(z, i) <= m && t.at + t.offset <= m
            else t.at + OffsetBefore(z, i) >= m && t.at + t.offset >= m
  {
    var k := WallIndex(z, m, |z.transitions|);
    if i < k {
      assert WallAt(z, i) <= WallAt(z, k - 1);
    }
  }

  /** In an earlier segment than the reading's own, both the clock and the instant are earlier. */
  lemma EarlierSegment(z: Zone, m: int, utc: int)
    requires Ordered(z) && forall i | 0 <= i < |z.transitions| :: !Crosses(z, i, m)
    requires UtcIndex(z, utc, |z.transitions|) < WallIndex(z, m, |z.transitions|)
    ensures Local(z, utc) < m && utc < Utc(z, m)
  {
    var k, j := UtcIndex(z, utc, |z.transitions|), WallIndex(z, m, |z.transitions|);
    WallSide(z, m, k);
    WallSide(z, m, j - 1);
    assert k == j - 1 || z.transitions[k].at < z.transitions[j - 1].at;
  }

  /** In a later segment, neither is. */
  lemma LaterSegment(z: Zone, m: int, utc: int)
    requires Ordered(z) && forall i | 0 <= i < |z.transitions| :: !Crosses(z, i, m)
    requires UtcIndex(z, utc, |z.transitions|) > WallIndex(z, m, |z.transitions|)
    ensures Local(z, utc) >= m && utc >= Utc(z, m)
  {
    var k, j := UtcIndex(z, utc, |z.transitions|), WallIndex(z, m, |z.transitions|);
    WallSide(z, m, k - 1);
    WallSide(z, m, j);
    assert j == k - 1 || z.transitions[j].at < z.transitions[k - 1].at;
  }

  lemma SplitsUnlessCrossed(z: Zone, m: int)
    requires Ordered(z) && forall i | 0 <= i < |z.transitions| :: !Crosses(z, i, m)
    ensures Splits(z, m)
  {
    forall utc ensures Local(z, utc) < m <==> utc < Utc(z, m) {
      var k, j := UtcIndex(z, utc, |z.transitions|), WallIndex(z, m, |z.transitions|);
      if k < j { EarlierSegment(z, m, utc); } else if k > j { LaterSegment(z, m, utc); }
    }
  }

  /** The first transition that crosses a wall reading. */
  lemma FirstCrossing(z: Zone, m: int, i: nat) returns (k: nat)
    requires i < |z.transitions| && Crosses(z, i, m)
    ensures k <= i && Crosses(z, k, m) && forall j | 0 <= j < k :: !Crosses(z, j, m)
    decreases i
  {
    if j :| 0 <= j < i && Crosses(z, j, m) {
      k := FirstCrossing(z, m, j);
    } else {
      k := i;
    }
  }

  lemma IndexAtTransition(z: Zone, k: nat)
    requires Ordered(z) && k < |z.transitions|
    ensures UtcIndex(z, z.transitions[k].at, |z.transitions|) == k + 1
  {
    assert forall i | k < i < |z.transitions| :: z.transitions[k].at < z.transitions[i].at;
  }

  lemma WallIndexAtMost(z: Zone, m: int, k: nat)
    requires Ordered(z) && k < |z.transitions| && m < WallAt(z, k)
    ensures WallIndex(z, m, |z.transitions|) <= k
  {
    assert forall i | k < i < |z.transitions| :: WallAt(z, k) <= WallAt(z, i);
  }

  /** A reading whose first crossing is the k-th transition resolves by it or by an earlier one. */
  lemma UtcAtFirstCrossing(z: Zone, m: int, k: nat)
    requires Ordered(z) && k < |z.transitions| && Crosses(z, k, m)
    requires forall j | 0 <= j < k :: !Crosses(z, j, m)
    ensures if z.transitions[k].offset > OffsetBefore(z, k)
            then Utc(z, m) == m - OffsetBefore(z, k)
            else Utc(z, m) <= z.transitions[k].at
  {
    WallIndexAtMost(z, m, k);
    var w := WallIndex(z, m, |z.transitions|);
    if w < k {
      WallSide(z, m, k - 1);
      WallSide(z, m, w);
      assert z.transitions[k - 1].at < z.transitions[k].at;
      assert z.transitions[w].at < z.transitions[k].at;
    }
  }

  /** At the instant of its first crossing, a wall reading fails to split. */
  lemma CrossingBreaksSplit(z: Zone, m: int, i: nat) returns (utc: int)
    requires Ordered(z) && i < |z.transitions| && Crosses(z, i, m)
    ensures (Local(z, utc) > m && utc < Utc(z, m)) || (Local(z, utc) < m && Utc(z, m) <= utc)
  {
    var k := FirstCrossing(z, m, i);
    UtcAtFirstCrossing(z, m, k);
    IndexAtTransition(z, k);
    utc := z.transitions[k].at;
  }

  /** The exact condition on a zone: every midnight splits the instants iff no transition crosses one. */
  lemma MidnightsSplitIff(z: Zone)
    requires Ordered(z)
    ensures (forall day: int :: SplitsDay(z, day)) <==> NoMidnightCrossing(z)
  {
    if NoMidnightCrossing(z) {
      forall day: int ensures SplitsDay(z, day) {
        forall i | 0 <= i < |z.transitions| ensures !Crosses(z, i, day * DAY) {
          assert !CrossesMidnight(z, i, day);
        }
        SplitsUnlessCrossed(z, day * DAY);
      }
    } else {
      var i, day: int :| 0 <= i < |z.transitions| && CrossesMidnight(z, i, day);
      var utc := CrossingBreaksSplit(z, day * DAY, i);
      assert !SplitsDay(z, day);
    }
  }
}
