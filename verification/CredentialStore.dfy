/**
 Connector secrets encrypted at rest (`ConnectorCredentialService`,
 src/nidaro/connectors/service.py; `SecretBox`, src/nidaro/connectors/crypto.py). Encryption is
 ideal: a token gives its plaintext to its own key and to no other.
 */
module CredentialStore {
  import opened Wrappers

  type Key = string

  datatype Token = Token(key: Key, plaintext: string)

  /** The primary key, then the fallback keys. */
  datatype Ring = Ring(primary: Key, previous: seq<Key>) {
    function Keys(): seq<Key> { [primary] + previous }
  }

  datatype Slot = Slot(household: string, connector: string, name: string)

  type Rows = map<Slot, Token>

  datatype Error = KeyMissing | Unreadable | Interrupted

  function Encrypt(ring: Ring, plaintext: string): Token {
    Token(ring.primary, plaintext)
  }

  /** Try each key in turn. */
  function TryKeys(keys: seq<Key>, t: Token): Option<string> {
    if keys == [] then None
    else if keys[0] == t.key then Some(t.plaintext)
    else TryKeys(keys[1..], t)
  }

  function Decrypt(ring: Ring, t: Token): Option<string> {
    TryKeys(ring.Keys(), t)
  }

  lemma {:induction false} TryKeysIff(keys: seq<Key>, t: Token)
    ensures TryKeys(keys, t) == if t.key in keys then Some(t.plaintext) else None
  {
    if keys != [] && keys[0] != t.key { TryKeysIff(keys[1..], t); }
  }

  /** A row is readable exactly when its key is still on the ring. */
  predicate Readable(ring: Ring, t: Token) {
    t.key in ring.Keys()
  }

  /** What reading one slot gives. */
  function Reading(rows: Rows, box: Option<Ring>, slot: Slot): Result<Option<string>, Error> {
    if box.None? then Failure(KeyMissing)
    else if slot !in rows then Success(None)
    else match Decrypt(box.value, rows[slot])
      case None => Failure(Unreadable)
      case Some(secret) => Success(Some(secret))
  }

  /** The rows after a rotation has rewritten some of them. */
  function Rewritten(rows: Rows, done: set<Slot>, primary: Key): Rows {
    map slot | slot in rows :: if slot in done then Token(primary, rows[slot].plaintext) else rows[slot]
  }

  /** The slots done were readable, and they and no others have been rewritten. */
  ghost predicate Reencrypts(ring: Ring, before: Rows, done: set<Slot>, after: Rows) {
    && done <= before.Keys && after == Rewritten(before, done, ring.primary)
    && forall slot <- done :: Readable(ring, before[slot])
  }

  lemma RewriteOne(ring: Ring, before: Rows, done: set<Slot>, after: Rows, slot: Slot)
    requires Reencrypts(ring, before, done, after) && slot in before && slot !in done
    requires Readable(ring, before[slot])
    ensures after[slot] == before[slot]
    ensures Reencrypts(ring, before, done + {slot}, after[slot := Token(ring.primary, before[slot].plaintext)])
  {
  }

  /** The first i listed slots are the ones done. */
  ghost predicate DoneUpTo(listed: seq<Slot>, i: nat, done: set<Slot>)
    requires i <= |listed|
  {
    && |done| == i
    && forall slot :: slot in done <==> slot in listed[..i]
  }

  lemma OneMoreDone(listed: seq<Slot>, i: nat, done: set<Slot>)
    requires i < |listed| && DoneUpTo(listed, i, done)
    requires forall j, k | 0 <= j < k < |listed| :: listed[j] != listed[k]
    ensures listed[i] !in done && DoneUpTo(listed, i + 1, done + {listed[i]})
  {
    assert listed[..i + 1] == listed[..i] + [listed[i]];
  }

  class ConnectorCredentialService {
    var rows: Rows
    const box: Option<Ring>

    constructor (rows: Rows, box: Option<Ring>)
      ensures this.rows == rows && this.box == box
    {
      this.rows, this.box := rows, box;
    }

    method Set(slot: Slot, secret: string) returns (r: Result<Token, Error>)
      modifies this
      ensures r == if box.None? then Failure(KeyMissing) else Success(Token(box.value.primary, secret))
      ensures rows == if box.None? then old(rows) else old(rows)[slot := r.value]
    {
      if box.None? { return Failure(KeyMissing); }
      var token := Encrypt(box.value, secret);
      rows := rows[slot := token];
      r := Success(token);
    }

    method Get(slot: Slot) returns (r: Result<Option<string>, Error>)
      ensures r == Reading(rows, box, slot)
    {
      if box.None? { return Failure(KeyMissing); }
      if slot !in rows { return Success(None); }
      var secret := Decrypt(box.value, rows[slot]);
      r := if secret.None? then Failure(Unreadable) else Success(secret);
    }

    method Delete(slot: Slot) returns (found: bool)
      modifies this
      ensures found == (slot in old(rows)) && rows == old(rows) - {slot}
    {
      found := slot in rows;
      rows := rows - {slot};
    }

    /** `all`: every row once, in whatever order the table yields. */
    method All() returns (listed: seq<Slot>)
      ensures forall slot :: slot in listed <==> slot in rows
      ensures forall i, j | 0 <= i < j < |listed| :: listed[i] != listed[j]
      ensures |listed| == |rows|
    {
      listed := [];
      var left := rows.Keys;
      while left != {}
        invariant left <= rows.Keys && |listed| + |left| == |rows.Keys|
        invariant forall slot <- rows :: slot in left || slot in listed
        invariant forall slot <- listed :: slot in rows && slot !in left
        invariant forall i, j | 0 <= i < j < |listed| :: listed[i] != listed[j]
        decreases left
      {
        var slot :| slot in left;
        assert slot !in listed;
        listed := listed + [slot];
        left := left - {slot};
      }
    }

    /**
     `rotate`: re-encrypt row after row with the primary key; the process may die after
     `budget` rows. What was rewritten stays rewritten.
     */
    method Rotate(budget: nat) returns (r: Result<nat, Error>, ghost done: set<Slot>)
      modifies this
      ensures box.None? ==> r == Failure(KeyMissing) && rows == old(rows)
      ensures box.Some? ==>
                && Reencrypts(box.value, old(rows), done, rows)
                && (r.Success? <==> done == old(rows).Keys)
                && (r.Success? ==> r.value == |old(rows)|)
                && (r.Failure? ==> (r == Failure(Interrupted) && |done| == budget)
                                   || (r == Failure(Unreadable)
                                       && exists slot <- old(rows) :: !Readable(box.value, old(rows)[slot])))
    {
      done := {};
      if box.None? { return Failure(KeyMissing), {}; }
      var listed := All();
      ghost var before := rows;
      for i := 0 to |listed|
        invariant DoneUpTo(listed, i, done) && i <= budget
        invariant Reencrypts(box.value, before, done, rows)
      {
        var slot := listed[i];
        OneMoreDone(listed, i, done);
        if i == budget { return Failure(Interrupted), done; }
        TryKeysIff(box.value.Keys(), rows[slot]);
        var secret := Decrypt(box.value, rows[slot]);
        if secret.None? { return Failure(Unreadable), done; }
        RewriteOne(box.value, before, done, rows, slot);
        rows := rows[slot := Encrypt(box.value, secret.value)];
        done := done + {slot};
      }
      assert listed[..|listed|] == listed;
      r := Success(|listed|);
    }
  }
}
