/** Rotating the credential key: every atomic write may be the last one before a crash. */
module KeyRotation {
  import opened Basics

  type Key = string

  /** A Fernet token, known by the key that made it; a damaged one has a key nobody has. */
  datatype Ct = Ct(key: Key, plain: string)

  datatype InstanceRow = InstanceRow(username: Ct, password: Ct, backupPassword: Option<Ct>)

  /** The key file (None: not there yet), the Instance rows, and the encrypt_password_ct column
      of the Backup rows in id order. */
  datatype Vault = Vault(keyFile: Option<seq<Key>>, instances: seq<InstanceRow>, backups: seq<Option<Ct>>)

  datatype Outcome = Completed | Failed | Crashed

  const CHUNK := 500

  function Keys(v: Vault): seq<Key> { if v.keyFile.Some? then v.keyFile.value else [] }

  // ---- what must survive ----

  predicate Readable(keys: seq<Key>, c: Ct) { c.key in keys }

  /** The same plaintext, still readable if it was. */
  predicate Kept(k0: seq<Key>, c0: Ct, k1: seq<Key>, c1: Ct) {
    c1.plain == c0.plain && (Readable(k0, c0) ==> Readable(k1, c1))
  }

  predicate KeptOption(k0: seq<Key>, c0: Option<Ct>, k1: seq<Key>, c1: Option<Ct>) {
    if c0.None? then c1.None? else c1.Some? && Kept(k0, c0.value, k1, c1.value)
  }

  predicate KeptRow(k0: seq<Key>, r0: InstanceRow, k1: seq<Key>, r1: InstanceRow) {
    Kept(k0, r0.username, k1, r1.username) && Kept(k0, r0.password, k1, r1.password)
    && KeptOption(k0, r0.backupPassword, k1, r1.backupPassword)
  }

  ghost predicate Preserved(v0: Vault, v1: Vault) {
    && |v1.instances| == |v0.instances| && |v1.backups| == |v0.backups|
    && (forall i | 0 <= i < |v0.instances| :: KeptRow(Keys(v0), v0.instances[i], Keys(v1), v1.instances[i]))
    && (forall i | 0 <= i < |v0.backups| :: KeptOption(Keys(v0), v0.backups[i], Keys(v1), v1.backups[i]))
  }

  predicate ReadableOption(keys: seq<Key>, c: Option<Ct>) { c.Some? ==> Readable(keys, c.value) }

  predicate ReadableRow(keys: seq<Key>, r: InstanceRow) {
    Readable(keys, r.username) && Readable(keys, r.password) && ReadableOption(keys, r.backupPassword)
  }

  ghost predicate AllReadable(keys: seq<Key>, v: Vault) {
    && (forall i | 0 <= i < |v.instances| :: ReadableRow(keys, v.instances[i]))
    && (forall i | 0 <= i < |v.backups| :: ReadableOption(keys, v.backups[i]))
  }

  lemma PreservedTransitive(a: Vault, b: Vault, c: Vault)
    requires Preserved(a, b) && Preserved(b, c)
    ensures Preserved(a, c)
  {}

  /** More keys never make anything unreadable. */
  lemma MoreKeysPreserve(v: Vault, keys: seq<Key>)
    requires forall k | k in Keys(v) :: k in keys
    ensures Preserved(v, v.(keyFile := Some(keys)))
  {}

  // ---- re-encryption of one value ----

  function Rewrap(keys: seq<Key>, c: Ct): (r: Ct)
    requires keys != []
    ensures r.plain == c.plain && r.key == keys[0]
  {
    Ct(keys[0], c.plain)
  }

  function RewrapRow(keys: seq<Key>, r: InstanceRow): InstanceRow
    requires keys != []
  {
    InstanceRow(Rewrap(keys, r.username), Rewrap(keys, r.password),
      if r.backupPassword.Some? then Some(Rewrap(keys, r.backupPassword.value)) else None)
  }

  /** The positions of the rows that have a password, in id order: what the query walks. */
  function Filled(rows: seq<Option<Ct>>): (r: seq<nat>)
    ensures |r| <= |rows| && forall k | 0 <= k < |r| :: r[k] < |rows| && rows[r[k]].Some?
  {
    if rows == [] then []
    else
      var n := |rows| - 1;
      Filled(rows[..n]) + if rows[n].Some? then [n] else []
  }

  lemma {:induction false} FilledAll(rows: seq<Option<Ct>>, i: nat)
    requires i < |rows| && rows[i].Some?
    ensures i in Filled(rows)
  {
    var n := |rows| - 1;
    if i < n {
      FilledAll(rows[..n], i);
      assert i in Filled(rows[..n]);
    }
  }

  lemma {:induction false} FilledSame(a: seq<Option<Ct>>, b: seq<Option<Ct>>)
    requires |a| == |b| && forall i | 0 <= i < |a| :: a[i].Some? <==> b[i].Some?
    ensures Filled(a) == Filled(b)
  {
    if a != [] {
      var n := |a| - 1;
      FilledSame(a[..n], b[..n]);
    }
  }

  // ---- the command ----

  /** One run of rotate-key: the keys it generates and how many atomic writes it lives for. */
  datatype Attempt = Attempt(newKey: Key, bootKey: Key, budget: nat)

  class Store {
    var keyFile: Option<seq<Key>>
    var instances: seq<InstanceRow>
    var backups: seq<Option<Ct>>
    var budget: nat

    ghost function Now(): Vault
      reads this
    {
      Vault(keyFile, instances, backups)
    }

    constructor (v: Vault)
      ensures Now() == v
    {
      keyFile, instances, backups, budget := v.keyFile, v.instances, v.backups, 0;
    }

    /** `write_keys`: replaces the whole file or nothing. */
    method WriteKeys(keys: seq<Key>) returns (alive: bool)
      requires keys != []
      modifies this`keyFile, this`budget
      ensures alive <==> old(budget) > 0
      ensures alive ==> keyFile == Some(keys) && budget == old(budget) - 1
      ensures !alive ==> keyFile == old(keyFile) && budget == old(budget)
    {
      if budget == 0 { return false; }
      budget := budget - 1;
      keyFile := Some(keys);
      alive := true;
    }

    /** `ensure_keys`: reads the file, or creates it with one key. */
    method EnsureKeys(bootKey: Key) returns (outcome: Outcome)
      modifies this`keyFile, this`budget
      ensures outcome != Crashed ==> keyFile.Some?
      ensures outcome == Completed ==> keyFile.value != []
      ensures old(keyFile).Some? ==>
        keyFile == old(keyFile) && budget == old(budget) && (outcome == Completed <==> keyFile.value != [])
      ensures old(keyFile).None? ==> outcome != Failed && (outcome == Crashed <==> old(budget) == 0)
      ensures old(keyFile).None? && outcome == Completed ==> keyFile == Some([bootKey]) && budget == old(budget) - 1
      ensures outcome == Failed ==> old(keyFile) == Some([]) && keyFile == old(keyFile)
      ensures outcome == Crashed ==> keyFile == old(keyFile) && budget == 0
    {
      if keyFile.Some? { return if keyFile.value == [] then Failed else Completed; }
      var alive := WriteKeys([bootKey]);
      outcome := if alive then Completed else Crashed;
    }

    /** `_rotate_instance_rows`: all rows in one transaction; a row that does not decrypt
        rolls everything back. */
    method RotateInstances(keys: seq<Key>) returns (outcome: Outcome)
      requires keys != []
      modifies this`instances, this`budget
      ensures outcome == Failed ==> exists i | 0 <= i < |old(instances)| :: !ReadableRow(keys, old(instances)[i])
      ensures outcome != Completed ==> instances == old(instances) && budget == old(budget)
      ensures outcome == Crashed ==> budget == 0
      ensures outcome == Completed ==> budget == old(budget) - 1 && |instances| == |old(instances)|
      ensures outcome == Completed ==>
        forall i | 0 <= i < |instances| ::
          ReadableRow(keys, old(instances)[i]) && instances[i] == RewrapRow(keys, old(instances)[i])
    {
      var rows := instances;
      for i := 0 to |rows|
        invariant |rows| == |instances| && instances == old(instances) && budget == old(budget)
        invariant forall j | 0 <= j < i :: ReadableRow(keys, instances[j]) && rows[j] == RewrapRow(keys, instances[j])
        invariant forall j | i <= j < |rows| :: rows[j] == instances[j]
      {
        if !ReadableRow(keys, rows[i]) { return Failed; }
        rows := rows[i := RewrapRow(keys, rows[i])];
      }
      if budget == 0 { return Crashed; }
      budget := budget - 1;
      instances := rows;
      outcome := Completed;
    }

    /** `_rotate_backup_rows`: chunks of 500 filled rows, one transaction each. */
    method RotateBackups(keys: seq<Key>) returns (outcome: Outcome)
      requires keys != []
      modifies this`backups, this`budget
      ensures |backups| == |old(backups)|
      ensures forall i | 0 <= i < |backups| :: Rotating(keys, old(backups)[i], backups[i])
      ensures outcome == Failed ==> exists i | 0 <= i < |old(backups)| :: !ReadableOption(keys, old(backups)[i])
      ensures outcome == Crashed ==> budget == 0 && CHUNK * old(budget) < |old(backups)|
      ensures outcome == Completed ==> forall i | 0 <= i < |backups| :: Rotated(keys, old(backups)[i], backups[i])
      ensures outcome == Completed ==> CHUNK * (old(budget) - budget) < |old(backups)| + CHUNK && budget <= old(budget)
    {
      hide Filled; hide Rotated; hide Rotating; hide ReadableOption;
      var offset := 0;
      ghost var filled := Filled(backups);
      NothingRotated(keys, backups);
      while true
        invariant |backups| == |old(backups)| && Filled(backups) == filled
        invariant offset == CHUNK * (old(budget) - budget) && budget <= old(budget)
        invariant offset > 0 ==> offset - CHUNK < |filled|
        invariant forall i | 0 <= i < |backups| :: Rotating(keys, old(backups)[i], backups[i])
        invariant forall k | 0 <= k < offset && k < |filled| ::
          Rotated(keys, old(backups)[filled[k]], backups[filled[k]])
        decreases |filled| + CHUNK - offset
      {
        var walk := Filled(backups);
        if offset >= |walk| { break; }
        var upto := if offset + CHUNK < |walk| then offset + CHUNK else |walk|;
        var ok, rows := RewrapChunk(keys, backups, walk[offset..upto]);
        if !ok {
          StillBad(keys, old(backups), backups);
          return Failed;
        }
        if budget == 0 { return Crashed; }
        RotatingStep(keys, old(backups), backups, rows, filled, offset, upto);
        FilledSame(backups, rows);
        budget := budget - 1;
        backups := rows;
        offset := offset + CHUNK;
      }
      EveryRowRotated(keys, old(backups), backups);
      outcome := Completed;
    }

    /** `_verify_all_rows_decrypt` under the new key alone. */
    method VerifyAll(key: Key) returns (ok: bool)
      ensures ok <==> AllReadable([key], Now())
    {
      var bad := 0;
      for i := 0 to |instances|
        invariant bad == 0 <==> forall j | 0 <= j < i :: ReadableRow([key], instances[j])
      {
        if !ReadableRow([key], instances[i]) { bad := bad + 1; }
      }
      for i := 0 to |backups|
        invariant bad == 0 <==>
          && (forall j | 0 <= j < |instances| :: ReadableRow([key], instances[j]))
          && (forall j | 0 <= j < i :: ReadableOption([key], backups[j]))
      {
        if !ReadableOption([key], backups[i]) { bad := bad + 1; }
      }
      ok := bad == 0;
    }

    /** `rotate_key`, dying when the budget of atomic writes is used up. */
    method RotateKey(attempt: Attempt) returns (outcome: Outcome)
      modifies this
      ensures Preserved(old(Now()), Now())
      ensures outcome == Completed ==> keyFile == Some([attempt.newKey]) && AllReadable([attempt.newKey], Now())
      ensures outcome == Completed ==> AllReadable(TransitionalKeys(old(Now()), attempt), old(Now()))
      ensures outcome == Failed ==>
        old(keyFile) == Some([]) || !AllReadable(TransitionalKeys(old(Now()), attempt), old(Now()))
      ensures outcome == Crashed ==> attempt.budget < WritesNeeded(old(Now()))
      ensures outcome != Completed ==> forall k | k in Keys(old(Now())) :: k in Keys(Now())
    {
      hide Preserved;
      budget := attempt.budget;
      ghost var v0 := Now();
      PreservedSelf(v0);
      outcome := EnsureKeys(attempt.bootKey);
      if outcome != Completed { return; }
      var transitional := [attempt.newKey] + keyFile.value;
      assert transitional == TransitionalKeys(v0, attempt);
      MoreKeysPreserve(v0, keyFile.value);
      var alive := WriteKeys(transitional);
      if !alive { return Crashed; }
      ghost var v1 := Now();
      MoreKeysPreserve(v0, transitional);

      outcome := RotateInstances(transitional);
      if outcome != Completed { return; }
      ghost var v2 := Now();
      InstancesKept(v1, v2, transitional);
      PreservedTransitive(v0, v1, v2);

      outcome := RotateBackups(transitional);
      ghost var v3 := Now();
      BackupsKept(v2, v3, transitional);
      PreservedTransitive(v0, v2, v3);
      if outcome != Completed { return; }
      NewKeyReadsAll(v1, v2, v3, transitional);

      var ok := VerifyAll(attempt.newKey);
      if !ok { return Failed; }
      alive := WriteKeys([attempt.newKey]);
      if !alive { return Crashed; }
      PruneKeeps(v3, attempt.newKey);
      PreservedTransitive(v0, v3, Now());
    }

    /** Any number of attempts, each stopped anywhere. */
    method RotateRepeatedly(attempts: seq<Attempt>) returns (last: Outcome)
      modifies this
      ensures Preserved(old(Now()), Now())
      ensures attempts != [] && last == Completed ==>
        keyFile == Some([attempts[|attempts| - 1].newKey]) && AllReadable(keyFile.value, Now())
    {
      last := Failed;
      PreservedSelf(Now());
      for i := 0 to |attempts|
        invariant Preserved(old(Now()), Now())
        invariant i > 0 && last == Completed ==>
          keyFile == Some([attempts[i - 1].newKey]) && AllReadable(keyFile.value, Now())
      {
        ghost var before := Now();
        last := RotateKey(attempts[i]);
        PreservedTransitive(old(Now()), before, Now());
      }
    }
  }

  lemma PreservedSelf(v: Vault)
    ensures Preserved(v, v)
  {}

  /** The keys the rotation works with. */
  ghost function TransitionalKeys(v: Vault, a: Attempt): seq<Key> {
    [a.newKey] + if v.keyFile.Some? then v.keyFile.value else [a.bootKey]
  }

  /** Key file twice, one more to create it, the instances, and a write per chunk. */
  function WritesNeeded(v: Vault): nat {
    (if v.keyFile.None? then 1 else 0) + 3 + (|v.backups| + CHUNK - 1) / CHUNK
  }

  /** A filled row has been re-encrypted; an empty one is still empty. */
  predicate Rotated(keys: seq<Key>, before: Option<Ct>, after: Option<Ct>)
    requires keys != []
  {
    if before.None? then after.None?
    else after == Some(Rewrap(keys, before.value)) && Readable(keys, before.value)
  }

  predicate Rotating(keys: seq<Key>, before: Option<Ct>, after: Option<Ct>)
    requires keys != []
  {
    after == before || Rotated(keys, before, after)
  }

  /** The transaction body of one chunk, on a copy of the rows. */
  method RewrapChunk(keys: seq<Key>, before: seq<Option<Ct>>, chunk: seq<nat>) returns (ok: bool, rows: seq<Option<Ct>>)
    requires keys != [] && forall k | 0 <= k < |chunk| :: chunk[k] < |before| && before[chunk[k]].Some?
    ensures !ok ==> exists i | 0 <= i < |before| :: !ReadableOption(keys, before[i])
    ensures ok ==> |rows| == |before| && forall i | 0 <= i < |before| ::
      if i in chunk then Rotated(keys, before[i], rows[i]) else rows[i] == before[i]
  {
    rows := before;
    for k := 0 to |chunk|
      invariant |rows| == |before|
      invariant forall i | 0 <= i < |before| ::
        if i in chunk[..k] then Rotated(keys, before[i], rows[i]) else rows[i] == before[i]
    {
      var i := chunk[k];
      assert chunk[..k + 1] == chunk[..k] + [i];
      if !ReadableOption(keys, rows[i]) {
        assert i !in chunk[..k];
        return false, rows;
      }
      assert rows[i].Some?;
      rows := rows[i := Some(Rewrap(keys, rows[i].value))];
    }
    assert chunk[..|chunk|] == chunk;
    ok := true;
  }

  lemma NothingRotated(keys: seq<Key>, rows: seq<Option<Ct>>)
    requires keys != []
    ensures forall i | 0 <= i < |rows| :: Rotating(keys, rows[i], rows[i])
  {}

  /** A row that does not decrypt half way did not decrypt at the start. */
  lemma StillBad(keys: seq<Key>, first: seq<Option<Ct>>, rows: seq<Option<Ct>>)
    requires keys != [] && |rows| == |first| && forall i | 0 <= i < |rows| :: Rotating(keys, first[i], rows[i])
    requires exists i | 0 <= i < |rows| :: !ReadableOption(keys, rows[i])
    ensures exists i | 0 <= i < |first| :: !ReadableOption(keys, first[i])
  {
    var i :| 0 <= i < |rows| && !ReadableOption(keys, rows[i]);
    assert Rotating(keys, first[i], rows[i]);
    assert !ReadableOption(keys, first[i]);
  }

  lemma EveryRowRotated(keys: seq<Key>, first: seq<Option<Ct>>, rows: seq<Option<Ct>>)
    requires keys != [] && |rows| == |first| && forall i | 0 <= i < |rows| :: Rotating(keys, first[i], rows[i])
    requires forall k | 0 <= k < |Filled(rows)| :: Rotated(keys, first[Filled(rows)[k]], rows[Filled(rows)[k]])
    ensures forall i | 0 <= i < |rows| :: Rotated(keys, first[i], rows[i])
  {
    hide Filled;
    forall i | 0 <= i < |rows| ensures Rotated(keys, first[i], rows[i]) {
      assert Rotating(keys, first[i], rows[i]);
      if rows[i].Some? {
        FilledAll(rows, i);
        var k :| 0 <= k < |Filled(rows)| && Filled(rows)[k] == i;
      }
    }
  }

  lemma RotatingStep(keys: seq<Key>, first: seq<Option<Ct>>, before: seq<Option<Ct>>, rows: seq<Option<Ct>>,
      filled: seq<nat>, offset: nat, upto: nat)
    requires keys != [] && |first| == |before| == |rows| && offset <= upto <= |filled| && filled == Filled(before)
    requires forall i | 0 <= i < |first| :: Rotating(keys, first[i], before[i])
    requires forall i | 0 <= i < |before| ::
      if i in filled[offset..upto] then Rotated(keys, before[i], rows[i]) else rows[i] == before[i]
    requires forall k | 0 <= k < offset :: Rotated(keys, first[filled[k]], before[filled[k]])
    ensures forall i | 0 <= i < |first| :: Rotating(keys, first[i], rows[i]) && (rows[i].Some? <==> before[i].Some?)
    ensures forall k | 0 <= k < upto :: Rotated(keys, first[filled[k]], rows[filled[k]])
  {
    hide Filled;
    forall k | 0 <= k < upto ensures Rotated(keys, first[filled[k]], rows[filled[k]]) {
      if k >= offset { assert filled[offset..upto][k - offset] == filled[k]; }
    }
  }

  lemma InstancesKept(v: Vault, v1: Vault, keys: seq<Key>)
    requires keys != [] && v.keyFile == v1.keyFile == Some(keys) && v1.backups == v.backups
    requires |v1.instances| == |v.instances|
    requires forall i | 0 <= i < |v.instances| :: v1.instances[i] == RewrapRow(keys, v.instances[i])
    ensures Preserved(v, v1)
  {}

  lemma BackupsKept(v: Vault, v1: Vault, keys: seq<Key>)
    requires keys != [] && v.keyFile == v1.keyFile == Some(keys) && v1.instances == v.instances
    requires |v1.backups| == |v.backups|
    requires forall i | 0 <= i < |v.backups| :: Rotating(keys, v.backups[i], v1.backups[i])
    ensures Preserved(v, v1)
  {}

  lemma NewKeyReadsAll(v1: Vault, v2: Vault, v3: Vault, keys: seq<Key>)
    requires keys != [] && |v2.instances| == |v1.instances| && v2.backups == v1.backups
    requires v3.instances == v2.instances && |v3.backups| == |v2.backups|
    requires forall i | 0 <= i < |v1.instances| ::
      ReadableRow(keys, v1.instances[i]) && v2.instances[i] == RewrapRow(keys, v1.instances[i])
    requires forall i | 0 <= i < |v2.backups| :: Rotated(keys, v2.backups[i], v3.backups[i])
    ensures AllReadable([keys[0]], v3) && AllReadable(keys, v1)
  {}

  /** Dropping the legacy keys is safe once the new key reads everything. */
  lemma PruneKeeps(v: Vault, key: Key)
    requires AllReadable([key], v)
    ensures Preserved(v, v.(keyFile := Some([key])))
  {}
}
