/**
 The credential store over whole histories of writes, deletions, rotations that die after any
 row and key-ring changes: it behaves as a plain map as long as no key still in use is dropped.
 */
module CredentialHistory {
  import opened Wrappers
  import opened CredentialStore

  datatype Step =
    | Set(slot: Slot, secret: string)
    | Delete(slot: Slot)
    | Rotate(done: set<Slot>, completed: bool)
    | Rekey(box: Option<Ring>)

  type History = seq<Step>

  function BoxAfter(steps: History): Option<Ring> {
    if steps == [] then None
    else match steps[|steps| - 1]
      case Rekey(box) => box
      case _ => BoxAfter(steps[..|steps| - 1])
  }

  /** The encrypted table, as the service leaves it. */
  function RowsAfter(steps: History): Rows {
    if steps == [] then map[]
    else
      var init := steps[..|steps| - 1];
      var rows, box := RowsAfter(init), BoxAfter(init);
      match steps[|steps| - 1]
      case Set(slot, secret) => if box.Some? then rows[slot := Encrypt(box.value, secret)] else rows
      case Delete(slot) => rows - {slot}
      case Rotate(done, _) => if box.Some? then Rewritten(rows, done, box.value.primary) else rows
      case Rekey(_) => rows
  }

  /** The same history on a plain map; without a key a write raises and has no effect. */
  function PlainAfter(steps: History): map<Slot, string> {
    if steps == [] then map[]
    else
      var init := steps[..|steps| - 1];
      match steps[|steps| - 1]
      case Set(slot, secret) => if BoxAfter(init).Some? then PlainAfter(init)[slot := secret] else PlainAfter(init)
      case Delete(slot) => PlainAfter(init) - {slot}
      case Rotate(_, _) => PlainAfter(init)
      case Rekey(_) => PlainAfter(init)
  }

  /**
   The keys in use: the primary of the last completed rotation, and every primary written
   under since.
   */
  function InUse(steps: History): set<Key> {
    if steps == [] then {}
    else
      var init, last := steps[..|steps| - 1], steps[|steps| - 1];
      var box := BoxAfter(init);
      if box.None? || last.Delete? || last.Rekey? then InUse(init)
      else if last.Rotate? && last.completed then {box.value.primary}
      else InUse(init) + {box.value.primary}
  }

  /** A rotation rewrites only rows it can read, all of them when it completes. */
  ghost predicate ValidStep(init: History, step: Step) {
    match step
    case Rotate(done, completed) =>
      BoxAfter(init).Some? ==>
        && (forall slot <- done :: slot in RowsAfter(init) && Readable(BoxAfter(init).value, RowsAfter(init)[slot]))
        && (completed ==> done == RowsAfter(init).Keys)
    case _ => true
  }

  ghost predicate Valid(steps: History) {
    steps != [] ==> Valid(steps[..|steps| - 1]) && ValidStep(steps[..|steps| - 1], steps[|steps| - 1])
  }

  /** The key is the ring's primary or one of its fallbacks. */
  predicate Holds(ring: Ring, key: Key) {
    key == ring.primary || key in ring.previous
  }

  /** The operator's rule: a new ring keeps every key in use. */
  ghost predicate KeepsKeysInUse(steps: History) {
    steps != [] ==>
      var init, last := steps[..|steps| - 1], steps[|steps| - 1];
      && KeepsKeysInUse(init)
      && (last.Rekey? && last.box.Some? ==> forall key <- InUse(init) :: Holds(last.box.value, key))
  }

  /** Every row holds the plain value, under a key in use. */
  ghost predicate Encrypts(rows: Rows, plain: map<Slot, string>, keys: set<Key>) {
    && rows.Keys == plain.Keys
    && forall slot <- rows :: rows[slot].plaintext == plain[slot] && rows[slot].key in keys
  }

  lemma {:induction false} RowsEncryptPlain(steps: History)
    requires Valid(steps)
    ensures Encrypts(RowsAfter(steps), PlainAfter(steps), InUse(steps))
  {
    if steps != [] { RowsEncryptPlain(steps[..|steps| - 1]); }
  }

  lemma {:induction false} RingHoldsKeysInUse(steps: History)
    requires KeepsKeysInUse(steps) && BoxAfter(steps).Some?
    ensures forall key <- InUse(steps) :: Holds(BoxAfter(steps).value, key)
  {
    if steps != [] && !steps[|steps| - 1].Rekey? {
      RingHoldsKeysInUse(steps[..|steps| - 1]);
    }
  }

  /**
   The store refines a plain map: whatever was set, deleted, rotated, interrupted or rekeyed
   before, reading a slot gives what the plain map holds.
   */
  lemma RefinesPlainMap(steps: History, slot: Slot)
    requires Valid(steps) && KeepsKeysInUse(steps) && BoxAfter(steps).Some?
    ensures var plain := PlainAfter(steps);
            Reading(RowsAfter(steps), BoxAfter(steps), slot)
            == Success(if slot in plain then Some(plain[slot]) else None)
  {
    RowsEncryptPlain(steps);
    RingHoldsKeysInUse(steps);
    var rows := RowsAfter(steps);
    if slot in rows { TryKeysIff(BoxAfter(steps).value.Keys(), rows[slot]); }
  }

  /** While no key is configured every read raises and every write is without effect, but nothing is lost. */
  lemma WithoutKeyNothingReads(steps: History, slot: Slot, secret: string)
    requires BoxAfter(steps).None?
    ensures Reading(RowsAfter(steps), BoxAfter(steps), slot) == Failure(KeyMissing)
    ensures RowsAfter(steps + [Set(slot, secret)]) == RowsAfter(steps)
    ensures PlainAfter(steps + [Set(slot, secret)]) == PlainAfter(steps)
  {
    assert (steps + [Set(slot, secret)])[..|steps|] == steps;
  }

  /** Without the rule, reading agrees with the plain map exactly while the row's own key is on the ring. */
  lemma ReadsPlainIffKeyOnRing(steps: History, slot: Slot)
    requires Valid(steps) && BoxAfter(steps).Some? && slot in RowsAfter(steps)
    ensures slot in PlainAfter(steps)
    ensures Reading(RowsAfter(steps), BoxAfter(steps), slot) == Success(Some(PlainAfter(steps)[slot]))
       <==> Holds(BoxAfter(steps).value, RowsAfter(steps)[slot].key)
  {
    RowsEncryptPlain(steps);
    TryKeysIff(BoxAfter(steps).value.Keys(), RowsAfter(steps)[slot]);
  }

  /** A write after the rotation counts: dropping the key it was made under loses it. */
  lemma DroppingAKeyInUseLosesIt(steps: History, slot: Slot, secret: string, ring: Ring)
    requires Valid(steps) && BoxAfter(steps).Some?
    requires !Holds(ring, BoxAfter(steps).value.primary)
    ensures var after := steps + [Set(slot, secret)] + [Rekey(Some(ring))];
            Reading(RowsAfter(after), BoxAfter(after), slot) == Failure(Unreadable)
  {
    var written := steps + [Set(slot, secret)];
    var after := written + [Rekey(Some(ring))];
    assert written[..|steps|] == steps && after[..|written|] == written;
    assert slot in RowsAfter(written) && RowsAfter(after) == RowsAfter(written);
    TryKeysIff(ring.Keys(), RowsAfter(after)[slot]);
  }

  /** After a completed rotation every secret can be read with the primary key alone. */
  lemma RotationFreesOldKeys(steps: History, done: set<Slot>, slot: Slot)
    requires Valid(steps + [Rotate(done, true)]) && BoxAfter(steps).Some?
    ensures var after := steps + [Rotate(done, true)];
            var plain := PlainAfter(steps);
            Reading(RowsAfter(after), Some(Ring(BoxAfter(steps).value.primary, [])), slot)
            == Success(if slot in plain then Some(plain[slot]) else None)
  {
    var after := steps + [Rotate(done, true)];
    assert after[..|steps|] == steps;
    RowsEncryptPlain(after);
    var rows := RowsAfter(after);
    if slot in rows { TryKeysIff([BoxAfter(steps).value.primary] + [], rows[slot]); }
  }

  /** Under the rule a rotation always completes unless it is interrupted: every row is readable. */
  lemma RotationNeverBlocks(steps: History, slot: Slot)
    requires Valid(steps) && KeepsKeysInUse(steps) && BoxAfter(steps).Some? && slot in RowsAfter(steps)
    ensures Readable(BoxAfter(steps).value, RowsAfter(steps)[slot])
  {
    RowsEncryptPlain(steps);
    RingHoldsKeysInUse(steps);
  }
}
