/** Backups, their local files and the remote store together: what is uploaded can be brought
    back, whatever happens to the local copy in between. */
module Offsite {
  import opened Basics
  import opened Base64
  import opened Wrapper
  import opened ReplicaPayload
  import opened ReplicaRow

  /** A Backup row: replica state and the columns that shape the object. */
  datatype Stored = Stored(row: Row, encrypted: bool, compressed: bool, instance: string, filename: string)

  /** How the transport misbehaves: not at all, by raising, or by storing only n bytes. */
  datatype Fault = Faithful | Raises | Truncates(n: nat)

  datatype RetrieveError = NoSuchRow | NotVerified | NoObject | BadDigest | BadPayload

  /** The fixed surroundings: primitives, digest, base path and replication password. */
  datatype Site = Site(suite: Suite, zip: Zip, sha: Bytes -> string, basePath: string, password: string)

  function Flags(site: Site, encryptPlaintext: bool, doubleEncrypt: bool): Settings {
    Settings(site.basePath, encryptPlaintext, doubleEncrypt, site.password)
  }

  /** The primitives obey their laws, and a digest is never the empty string. */
  ghost predicate Good(site: Site) { Lawful(site.suite) && Inverse(site.zip) && forall x :: site.sha(x) != "" }

  function KeyOf(site: Site, b: Stored, suffix: string): string {
    ObjectKey(Flags(site, true, true), b.instance, b.filename, suffix)
  }

  predicate IsSuffix(s: string) { s == PLAIN || s == ONE || s == TWO }

  /** Content the round trip is promised for. */
  predicate Restorable(b: Stored, x: Bytes) { Plausible(x) && !EndsWith(BaseName(b.filename), ".2x") }

  /** The remote object brings the content back. */
  ghost predicate Covered(site: Site, b: Stored, remote: map<string, Bytes>, x: Bytes) {
    && b.row.key.Some? && b.row.digest.Some? && b.row.key.value in remote
    && site.sha(remote[b.row.key.value]) == b.row.digest.value
    && Restores(site.suite, site.zip, remote[b.row.key.value], b.row.key.value, b.encrypted, b.compressed,
        Flags(site, true, true), x)
  }

  /** What does not depend on the remote store. */
  ghost predicate Kept(site: Site, b: Stored, file: Option<Bytes>, x: Bytes) {
    && Restorable(b, x)
    && (b.row.key.Some? ==> exists s :: IsSuffix(s) && b.row.key.value == KeyOf(site, b, s))
    && (b.row.local && file.Some? ==> Content(site.zip, file.value, b.compressed) == Some(x))
  }

  /** What the local file of a backup holds and what its last uploaded copy held. They differ once
      the file has been re-encrypted. */
  datatype Held = Held(local: Bytes, copied: Bytes)

  ghost predicate Sound(site: Site, b: Stored, file: Option<Bytes>, remote: map<string, Bytes>, x: Held) {
    && Kept(site, b, file, x.local) && Restorable(b, x.copied)
    && (b.row.status == Done || !b.row.local ==> Covered(site, b, remote, x.copied))
  }

  function Marked(b: Stored, mark: int, o: Outcome): Stored { b.(row := Attempted(b.row, mark, o)) }

  /** How an attempt on the row with this file ends: only a delivered payload counts as uploaded. */
  function AttemptOutcome(site: Site, b: Stored, file: Option<Bytes>, ep: bool, de: bool, salt: Bytes,
      fault: Fault): Outcome
  {
    if !b.row.local then Raised
    else if file.None? then FileMissing
    else
      match Prepare(site.suite, site.zip, file.value, b.encrypted, b.compressed, Flags(site, ep, de), salt)
      case Err(_) => Raised
      case Ok((payload, suffix)) =>
        if fault.Raises? || (fault.Truncates? && fault.n < |payload|) then Raised
        else Uploaded(KeyOf(site, b, suffix), site.sha(payload))
  }

  /** An attempt on a local row whose file is there uploads exactly when the content can be read, a
      layer is wanted only with a password set, and the transport stores the whole payload; the key
      is made of the base path, the instance, the stripped file name and the layers. */
  lemma AttemptMeans(site: Site, b: Stored, file: Option<Bytes>, ep: bool, de: bool, salt: Bytes, fault: Fault)
    ensures var o := AttemptOutcome(site, b, file, ep, de, salt, fault);
      var layered := if b.encrypted then de else ep;
      var suffix := if b.encrypted && de then ".2x.xml.enc" else if b.encrypted || ep then ".xml.enc" else ".xml";
      && (o.FileMissing? <==> b.row.local && file == None)
      && (!b.row.local || fault.Raises? ==> !o.Uploaded?)
      && (b.row.local && file.Some? && fault.Faithful? ==>
            (o.Uploaded? <==>
              (!b.compressed || site.zip.decompress(file.value).Some?) && !(layered && site.password == "")))
      && (o.Uploaded? ==> o.key == site.basePath + "/" + b.instance + "/" + BaseName(b.filename) + suffix)
      && (o.Uploaded? && !layered ==>
            o.digest == site.sha(if b.compressed then site.zip.decompress(file.value).value else file.value))
  {
    hide Encrypt; hide BaseName;
  }

  /** A failed or skipped attempt needs nothing of the remote store while the file is local. */
  lemma UnuploadedSound(site: Site, b: Stored, file: Option<Bytes>, remote: map<string, Bytes>, x: Held, mark: int,
      o: Outcome)
    requires Kept(site, b, file, x.local) && Restorable(b, x.copied) && !o.Uploaded?
    requires b.row.local || Sound(site, b, file, remote, x)
    ensures Sound(site, Marked(b, mark, o), file, remote, x)
  {
    hide Restores; hide Plausible; hide EndsWith; hide BaseName; hide Content; hide IsSuffix; hide ObjectKey;
  }

  lemma SoundKept(site: Site, b: Stored, file: Option<Bytes>, remote: map<string, Bytes>, x: Held)
    requires Sound(site, b, file, remote, x)
    ensures Kept(site, b, file, x.local) && Restorable(b, x.local) && Restorable(b, x.copied)
    ensures b.row.local && file.Some? ==> Content(site.zip, file.value, b.compressed) == Some(x.local)
  {}

  lemma SoundCovers(site: Site, b: Stored, file: Option<Bytes>, remote: map<string, Bytes>, x: Held)
    requires Sound(site, b, file, remote, x) && (b.row.status == Done || !b.row.local)
    ensures Covered(site, b, remote, x.copied)
  {}

  lemma MarkedRow(b: Stored, mark: int, o: Outcome)
    requires b.row.local && o.Uploaded?
    ensures Marked(b, mark, o).row.status == Done && Marked(b, mark, o).row.key == Some(o.key) && Succeeds(b.row, o)
  {}

  lemma UploadedSound(site: Site, b: Stored, file: Option<Bytes>, remote: map<string, Bytes>, x: Held, mark: int,
      suffix: string, payload: Bytes)
    requires Kept(site, b, file, x.local) && b.row.local && IsSuffix(suffix)
    requires KeyOf(site, b, suffix) in remote && remote[KeyOf(site, b, suffix)] == payload
    requires Restores(site.suite, site.zip, payload, KeyOf(site, b, suffix), b.encrypted, b.compressed,
        Flags(site, true, true), x.local)
    ensures Sound(site, Marked(b, mark, Uploaded(KeyOf(site, b, suffix), site.sha(payload))), file, remote,
        Held(x.local, x.local))
  {
    hide Restores; hide Plausible; hide EndsWith; hide BaseName; hide Content; hide IsSuffix; hide ObjectKey;
    var b1 := Marked(b, mark, Uploaded(KeyOf(site, b, suffix), site.sha(payload)));
    assert KeyOf(site, b1, suffix) == KeyOf(site, b, suffix);
  }

  /** No two rows can ever write the same object. */
  ghost predicate NamesApart(site: Site, a: Stored, b: Stored) {
    forall s, t | IsSuffix(s) && IsSuffix(t) :: KeyOf(site, a, s) != KeyOf(site, b, t)
  }

  function FileOf(disk: map<int, Bytes>, id: int): Option<Bytes> { if id in disk then Some(disk[id]) else None }

  /** Whatever the flags, an upload made with the site's password is covered. */
  lemma UploadCovers(site: Site, b: Stored, raw: Bytes, ep: bool, de: bool, salt: Bytes, x: Bytes)
    requires Good(site) && Restorable(b, x) && |salt| == SALT_BYTES && Content(site.zip, raw, b.compressed) == Some(x)
    requires Prepare(site.suite, site.zip, raw, b.encrypted, b.compressed, Flags(site, ep, de), salt).Ok?
    ensures var (payload, suffix) := Prepare(site.suite, site.zip, raw, b.encrypted, b.compressed,
        Flags(site, ep, de), salt).value;
      IsSuffix(suffix)
      && Restores(site.suite, site.zip, payload, KeyOf(site, b, suffix), b.encrypted, b.compressed,
          Flags(site, true, true), x)
  {
    hide Restores; hide Lawful; hide Plausible; hide Encrypt; hide EndsWith; hide BaseName; hide Content; hide Inverse;
    RoundTripIff(site.suite, site.zip, raw, b.encrypted, b.compressed, Flags(site, ep, de), Flags(site, true, true),
        b.instance, b.filename, salt, x);
  }

  /** Writing one row's object leaves the others covered. */
  lemma OthersCovered(site: Site, a: Stored, suffix: string, b: Stored, file: Option<Bytes>, 
                      remote: map<string, Bytes>, data: Bytes, x: Held)
    requires NamesApart(site, a, b) && IsSuffix(suffix) && Sound(site, b, file, remote, x)
    ensures Sound(site, b, file, remote[KeyOf(site, a, suffix) := data], x)
  {
    hide Restores; hide KeyOf; hide IsSuffix; hide Restorable; hide Content;
  }

  ghost predicate Consistent(site: Site, rows: map<int, Stored>, disk: map<int, Bytes>, remote: map<string, Bytes>,
      held: map<int, Held>)
  {
    && Good(site) && held.Keys == rows.Keys
    && (forall id | id in rows :: Sound(site, rows[id], FileOf(disk, id), remote, held[id]))
    && (forall i, j | i in rows && j in rows && i != j :: NamesApart(site, rows[i], rows[j]))
  }

  predicate SameName(a: Stored, b: Stored) { a.instance == b.instance && a.filename == b.filename }

  lemma NamesOnly(site: Site, a: Stored, b: Stored, a1: Stored, b1: Stored)
    requires NamesApart(site, a, b) && SameName(a, a1) && SameName(b, b1)
    ensures NamesApart(site, a1, b1)
  {
    hide ObjectKey; hide IsSuffix;
    assert forall s :: KeyOf(site, a, s) == KeyOf(site, a1, s) && KeyOf(site, b, s) == KeyOf(site, b1, s);
  }

  /** The file is back with the content of the uploaded copy, and only bytes with the recorded digest were used. */
  ghost predicate Retrieved(site: Site, rows: map<int, Stored>, disk: map<int, Bytes>, rows1: map<int, Stored>,
      disk1: map<int, Bytes>,
                            id: int, downloaded: Option<Bytes>, held: map<int, Held>)
  {
    && id in rows && id in held && id in disk1
    && downloaded.Some? && Some(site.sha(downloaded.value)) == rows[id].row.digest
    && rows1 == rows[id := rows[id].(row := rows[id].row.(local := true))]
    && disk1 == disk[id := disk1[id]]
    && Content(site.zip, disk1[id], rows[id].compressed) == Some(held[id].copied)
  }

  function ObjectAt(remote: map<string, Bytes>, b: Stored): Option<Bytes> {
    if b.row.key.Some? && b.row.key.value in remote then Some(remote[b.row.key.value]) else None
  }

  lemma DoneHasKey(site: Site, b: Stored, file: Option<Bytes>, remote: map<string, Bytes>, x: Held)
    requires Sound(site, b, file, remote, x) && (b.row.status == Done || !b.row.local)
    ensures Covered(site, b, remote, x.copied) && b.row.key.value != ""
  {
    hide Restores; hide Restorable; hide Content; hide BaseName;
  }

  /** Replacing one row and its file, soundly, keeps everything consistent. */
  lemma UpdateRow(site: Site, rows: map<int, Stored>, disk: map<int, Bytes>, disk1: map<int, Bytes>,
                  remote: map<string, Bytes>, held: map<int, Held>, id: int, b: Stored, x: Held)
    requires Good(site) && held.Keys == rows.Keys && id in rows && SameName(rows[id], b)
    requires forall j | j in rows && j != id :: Sound(site, rows[j], FileOf(disk, j), remote, held[j])
    requires forall i, j | i in rows && j in rows && i != j :: NamesApart(site, rows[i], rows[j])
    requires forall j | j != id :: FileOf(disk1, j) == FileOf(disk, j)
    requires Sound(site, b, FileOf(disk1, id), remote, x)
    ensures Consistent(site, rows[id := b], disk1, remote, held[id := x])
  {
    hide Sound; hide NamesApart; hide Good; hide FileOf;
    forall i, j | i in rows && j in rows && i != j ensures NamesApart(site, rows[id := b][i], rows[id := b][j]) {
      NamesOnly(site, rows[i], rows[j], rows[id := b][i], rows[id := b][j]);
    }
  }

  class Replicator {
    const site: Site
    var rows: map<int, Stored>
    var disk: map<int, Bytes>
    var remote: map<string, Bytes>
    var alerts: seq<int>
    /** The uncompressed content of every backup, here and in its last uploaded copy. */
    ghost var held: map<int, Held>
    /** What was last uploaded under each key; the remote store itself may lose or damage it. */
    ghost var sent: map<string, Bytes>

    ghost predicate Valid()
      reads this
    {
      Consistent(site, rows, disk, sent, held)
    }

    constructor (site: Site)
      requires Good(site)
      ensures Valid() && rows == map[] && this.site == site
    {
      this.site := site;
      rows, disk, remote, alerts, held, sent := map[], map[], map[], [], map[], map[];
    }

    /** A finished backup: its file and its row. */
    method Add(id: int, b: Stored, raw: Bytes, ghost x: Bytes)
      requires Valid() && id !in rows && b.row == FRESH && Content(site.zip, raw, b.compressed) == Some(x)
      requires Restorable(b, x)
      requires forall j | j in rows :: NamesApart(site, rows[j], b) && NamesApart(site, b, rows[j])
      modifies this
      ensures Valid() && rows == old(rows)[id := b] && disk == old(disk)[id := raw]
      ensures held == old(held)[id := Held(x, x)]
    {
      hide Restores; hide KeyOf; hide IsSuffix; hide Restorable; hide Content; hide Good; hide NamesApart; hide Covered;
      rows, disk, held := rows[id := b], disk[id := raw], held[id := Held(x, x)];
    }

    /** Re-encryption swaps the local file and the recorded password; the replica columns stay. */
    method ReplaceFile(id: int, raw: Bytes, ghost x: Bytes)
      requires Valid() && id in rows && rows[id].row.local
      requires Content(site.zip, raw, rows[id].compressed) == Some(x) && Restorable(rows[id], x)
      modifies this`disk, this`held
      ensures Valid() && disk == old(disk)[id := raw] && held == old(held)[id := Held(x, old(held)[id].copied)]
    {
      hide Sound; hide Good; hide NamesApart; hide Restorable; hide Content;
      ghost var x1 := Held(x, held[id].copied);
      RowSound(site, rows[id], FileOf(disk, id), sent, held[id], rows[id].row, Some(raw), x1);
      assert rows[id := rows[id]] == rows && rows[id].(row := rows[id].row) == rows[id];
      UpdateRow(site, rows, disk, disk[id := raw], sent, held, id, rows[id], x1);
      disk, held := disk[id := raw], held[id := x1];
    }

    /** Anything can happen to the remote store between calls. */
    method Decay(to: map<string, Bytes>)
      requires Valid()
      modifies this`remote
      ensures Valid() && remote == to
    {
      remote := to;
    }

    /** `replicate_backup`: one attempt, never raising. It succeeds exactly when the file is there,
        the payload can be prepared and the transport delivers it whole. */
    method ReplicateBackup(id: int, ep: bool, de: bool, salt: Bytes, mark: int, fault: Fault) returns (ok: bool)
      requires Valid() && |salt| == SALT_BYTES
      modifies this`rows, this`remote, this`sent, this`held
      ensures Valid()
      ensures id !in old(rows) ==> !ok && rows == old(rows) && remote == old(remote)
      ensures held == if ok then old(held)[id := Held(old(held)[id].local, old(held)[id].local)] else old(held)
      ensures id in old(rows) ==> var o := AttemptOutcome(site, old(rows)[id], FileOf(disk, id), ep, de, salt, fault);
        rows == old(rows)[id := Marked(old(rows)[id], mark, o)] && (ok <==> o.Uploaded?)
      ensures ok ==>
        Covered(site, rows[id], sent, held[id].copied) && ObjectAt(remote, rows[id]) == ObjectAt(sent, rows[id])
    {
      hide Sound; hide Good; hide NamesApart; hide Restores; hide Prepare;
      hide Attempted; hide ObjectKey; hide IsSuffix; hide Restorable; hide Content;
      if id !in rows { return false; }
      var b := rows[id];
      ghost var x, file := held[id], FileOf(disk, id);
      assert held[id := x] == held;
      SoundKept(site, b, file, sent, x);
      if !b.row.local {
        UnuploadedSound(site, b, file, sent, x, mark, Raised);
        Mark(id, mark, Raised);
        return false;
      }
      if id !in disk {
        UnuploadedSound(site, b, file, sent, x, mark, FileMissing);
        Mark(id, mark, FileMissing);
        return false;
      }
      var prepared := Prepare(site.suite, site.zip, disk[id], b.encrypted, b.compressed, Flags(site, ep, de), salt);
      if prepared.Err? || fault.Raises? {
        UnuploadedSound(site, b, file, sent, x, mark, Raised);
        Mark(id, mark, Raised);
        return false;
      }
      var (payload, suffix) := prepared.value;
      UploadCovers(site, b, disk[id], ep, de, salt, x.local);
      ok := Deliver(id, payload, suffix, mark, fault);
    }

    /** Upload, compare the remote size, and commit the result. */
    method Deliver(id: int, payload: Bytes, suffix: string, mark: int, fault: Fault) returns (ok: bool)
      requires Valid() && id in rows && rows[id].row.local && IsSuffix(suffix)
      requires Restores(site.suite, site.zip, payload, KeyOf(site, rows[id], suffix), rows[id].encrypted,
          rows[id].compressed, Flags(site, true, true), held[id].local)
      modifies this`rows, this`remote, this`sent, this`held
      ensures held == if ok then old(held)[id := Held(old(held)[id].local, old(held)[id].local)] else old(held)
      ensures Valid() && (ok <==> !(fault.Truncates? && fault.n < |payload|))
      ensures rows ==
        old(rows)[id := Marked(old(rows)[id], mark,
            if ok then Uploaded(KeyOf(site, old(rows)[id], suffix), site.sha(payload)) else Raised)]
      ensures ok ==>
        Covered(site, rows[id], sent, held[id].copied) && ObjectAt(remote, rows[id]) == ObjectAt(sent, rows[id])
    {
      hide Sound; hide Good; hide NamesApart; hide Restores; hide Attempted; hide ObjectKey; hide IsSuffix;
      hide Restorable; hide Content;
      var b := rows[id];
      var key := KeyOf(site, b, suffix);
      ghost var x, file := held[id], FileOf(disk, id);
      SoundKept(site, b, file, sent, x);
      Upload(id, suffix, if fault.Truncates? && fault.n < |payload| then payload[..fault.n] else payload);
      if |remote[key]| != |payload| {
        UnuploadedSound(site, b, file, sent, x, mark, Raised);
        Mark(id, mark, Raised);
        return false;
      }
      UploadedSound(site, b, file, sent, x, mark, suffix, payload);
      var o := Uploaded(key, site.sha(payload));
      MarkedRow(b, mark, o);
      held := held[id := Held(x.local, x.local)];
      Mark(id, mark, o);
      SoundCovers(site, rows[id], file, sent, held[id]);
      ok := true;
    }

    /** The object is replaced; the row is not yet updated, so it no longer counts as replicated. */
    method Upload(id: int, suffix: string, data: Bytes)
      requires Valid() && id in rows && rows[id].row.local && IsSuffix(suffix)
      modifies this`remote, this`sent
      ensures remote == old(remote)[KeyOf(site, rows[id], suffix) := data]
      ensures sent == old(sent)[KeyOf(site, rows[id], suffix) := data]
      ensures forall j | j in rows && j != id :: Sound(site, rows[j], FileOf(disk, j), sent, held[j])
    {
      hide Sound; hide NamesApart; hide Good;
      var key := KeyOf(site, rows[id], suffix);
      remote, sent := remote[key := data], sent[key := data];
      forall j | j in rows && j != id ensures Sound(site, rows[j], FileOf(disk, j), sent, held[j]) {
        OthersCovered(site, rows[id], suffix, rows[j], FileOf(disk, j), old(sent), data, held[j]);
      }
    }

    /** `_mark`: commits the outcome of an attempt. */
    method Mark(id: int, mark: int, o: Outcome)
      requires Good(site) && held.Keys == rows.Keys && id in rows
      requires forall j | j in rows && j != id :: Sound(site, rows[j], FileOf(disk, j), sent, held[j])
      requires forall i, j | i in rows && j in rows && i != j :: NamesApart(site, rows[i], rows[j])
      requires Sound(site, Marked(rows[id], mark, o), FileOf(disk, id), sent, held[id])
      modifies this`rows
      ensures Valid() && rows == old(rows)[id := Marked(old(rows)[id], mark, o)]
    {
      hide Sound; hide Good; hide NamesApart; hide Consistent;
      assert held[id := held[id]] == held;
      UpdateRow(site, rows, disk, disk, sent, held, id, Marked(rows[id], mark, o), held[id]);
      rows := rows[id := Marked(rows[id], mark, o)];
    }

    /** `sweep_pending` over the rows its query selected: each one that is due gets one attempt,
        and one that fails on its third alerts. */
    method SweepPending(ids: seq<int>, now: int, ep: bool, de: bool, salt: int -> Bytes, mark: int -> int,
        fault: int -> Fault)
      returns (ok: nat)
      requires Valid() && forall id :: |salt(id)| == SALT_BYTES
      requires forall i, j | 0 <= i < j < |ids| :: ids[i] != ids[j]
      requires forall i | 0 <= i < |ids| :: ids[i] in rows && Eligible(rows[ids[i]].row)
      modifies this`rows, this`remote, this`sent, this`held, this`alerts
      ensures Valid()
      ensures AllSwept(ids, old(rows), rows, now, mark, SweepOutcomes(site, old(rows), disk, ep, de, salt, fault))
      ensures alerts == old(alerts) + Alerts(ids, old(rows), rows, now)
      ensures ok == Uploads(ids, old(rows), rows, now)
    {
      hide Consistent; hide Covered; hide Attempted; hide AllSwept; hide Alerts; hide Uploads; hide AttemptDue;
      hide Eligible; hide AttemptOutcome; hide Marked;
      ok := 0;
      ghost var outcome := SweepOutcomes(site, rows, disk, ep, de, salt, fault);
      NoneSwept(rows, now, mark, ids, outcome);
      for i := 0 to |ids|
        invariant Valid() && AllSwept(ids[..i], old(rows), rows, now, mark, outcome)
        invariant alerts == old(alerts) + Alerts(ids[..i], old(rows), rows, now)
        invariant ok == Uploads(ids[..i], old(rows), rows, now)
      {
        var id := ids[i];
        assert ids[..i + 1] == ids[..i] + [id] && id !in ids[..i];
        Unswept(ids[..i], old(rows), rows, now, mark, id, outcome);
        ghost var before := rows;
        var due := AttemptDue(rows[id].row.attempts, rows[id].row.at, now);
        var attempts := rows[id].row.attempts;
        var success := false;
        if due {
          success := ReplicateBackup(id, ep, de, salt(id), mark(id), fault(id));
          DoneIffUploaded(site, before[id], FileOf(disk, id), ep, de, salt(id), fault(id), mark(id));
          if success {
            ok := ok + 1;
          } else if attempts + 1 == ALERT_AFTER {
            alerts := alerts + [id];
          }
        }
        SweptNext(ids[..i], id, old(rows), before, rows, now, mark, outcome);
        CountsSame(ids[..i], old(rows), before, rows, now, id);
        CountsSnoc(ids[..i], id, old(rows), rows, now);
      }
      assert ids[..|ids|] == ids;
    }

    /** Retention with replication on and mirror-deletes off: a replicated row outlives its file. */
    method KeepOffsite(id: int)
      requires Valid() && id in rows && rows[id].row.local && rows[id].row.status == Done && rows[id].row.key.Some?
      modifies this`rows, this`disk
      ensures Valid() && disk == old(disk) - {id}
      ensures rows == old(rows)[id := old(rows)[id].(row := old(rows)[id].row.(local := false))]
    {
      hide Sound; hide Good; hide NamesApart;
      ghost var x := held[id];
      SoundKept(site, rows[id], FileOf(disk, id), sent, x);
      var b := rows[id].(row := rows[id].row.(local := false));
      RowSound(site, rows[id], FileOf(disk, id), sent, x, b.row, None, x);
      assert held[id := x] == held;
      UpdateRow(site, rows, disk, disk - {id}, sent, held, id, b, x);
      disk := disk - {id};
      rows := rows[id := b];
    }

    /** `verify_replicas` over the done rows the query selected; unreachable holds those whose
        check raises in the transport. */
    method VerifyReplicas(ids: seq<int>, deep: bool, unreachable: set<int>) returns (checked: nat, flagged: nat)
      requires Valid() && (forall i, j | 0 <= i < j < |ids| :: ids[i] != ids[j])
      requires forall i | 0 <= i < |ids| ::
        ids[i] in rows && rows[ids[i]].row.status == Done && rows[ids[i]].row.key.Some?
      modifies this`rows
      ensures Valid() && rows.Keys == old(rows).Keys && checked == |ids|
      ensures forall id | id in rows ::
        rows[id] ==
          if id in ids && Faulty(site, old(rows)[id], remote, deep, id in unreachable)
          then Flagged(old(rows)[id]) else old(rows)[id]
      ensures flagged == |FaultyIds(site, ids, old(rows), remote, deep, unreachable)|
    {
      hide Consistent; hide Faulty;
      checked, flagged := 0, 0;
      for i := 0 to |ids|
        invariant Valid() && rows.Keys == old(rows).Keys && checked == i
        invariant forall id | id in rows ::
          rows[id] ==
            if id in ids[..i] && Faulty(site, old(rows)[id], remote, deep, id in unreachable)
            then Flagged(old(rows)[id]) else old(rows)[id]
        invariant flagged == |FaultyIds(site, ids[..i], old(rows), remote, deep, unreachable)|
      {
        var id := ids[i];
        assert ids[..i + 1] == ids[..i] + [id] && id !in ids[..i];
        FaultyIdsSnoc(site, ids[..i], id, old(rows), remote, deep, unreachable);
        checked := checked + 1;
        var problem := FindProblem(id, deep, id in unreachable);
        if problem {
          FlagOne(site, rows, disk, sent, held, id);
          rows := rows[id := Flagged(rows[id])];
          flagged := flagged + 1;
        }
      }
      assert ids[..|ids|] == ids;
    }

    /** The check of one object: its head, and with deep its digest. */
    method FindProblem(id: int, deep: bool, raises: bool) returns (problem: bool)
      requires id in rows && rows[id].row.key.Some?
      ensures problem <==> Faulty(site, rows[id], remote, deep, raises)
    {
      var key, sha := rows[id].row.key.value, rows[id].row.digest;
      if raises { return true; }
      if key !in remote { return true; }
      if deep && sha.Some? && sha.value != "" { return site.sha(remote[key]) != sha.value; }
      problem := false;
    }

    /** `retrieve_replica`. Of the object under the row's key it is only assumed that it does not
        collide with what was uploaded there. */
    method RetrieveReplica(id: int, raises: bool) returns (r: Result<(), RetrieveError>)
      requires Valid()
      requires id in rows && ObjectAt(remote, rows[id]).Some? && ObjectAt(sent, rows[id]).Some?
        && site.sha(ObjectAt(remote, rows[id]).value) == site.sha(ObjectAt(sent, rows[id]).value)
        ==> ObjectAt(remote, rows[id]) == ObjectAt(sent, rows[id])
      modifies this`rows, this`disk, this`held
      ensures Valid()
      ensures r.Err? ==> rows == old(rows) && disk == old(disk) && held == old(held)
      ensures r.Ok? ==>
        id in old(rows) && if old(rows)[id].row.local then rows == old(rows) && disk == old(disk) && held == old(held)
        else held == old(held)[id := Held(old(held)[id].copied, old(held)[id].copied)]
             && Retrieved(site, old(rows), old(disk), rows, disk, id, ObjectAt(remote, old(rows)[id]), held)
      ensures id in old(rows) && !old(rows)[id].row.local ==>
        (r.Ok? <==> old(rows)[id].row.status == Done && !raises && !Faulty(site, old(rows)[id], remote, true, false))
    {
      hide Sound; hide Good; hide Restores; hide NamesApart;
      if id !in rows { return Err(NoSuchRow); }
      var b := rows[id];
      ghost var x, file := held[id], FileOf(disk, id);
      if b.row.local { return Ok(()); }
      DoneHasKey(site, b, file, sent, x);
      if b.row.status != Done || b.row.key.None? || b.row.key.value == "" { return Err(NotVerified); }
      if raises || b.row.key.value !in remote { return Err(NoObject); }
      var downloaded := remote[b.row.key.value];
      DigestNotEmpty(site, b, sent, x.copied);
      if b.row.digest.Some? && b.row.digest.value != "" && site.sha(downloaded) != b.row.digest.value {
        return Err(BadDigest);
      }
      assert downloaded == sent[b.row.key.value];
      var undone := Undo(site.suite, site.zip, downloaded, b.row.key.value, b.encrypted, b.compressed,
          Flags(site, true, true));
      RestoresContent(site, downloaded, b, x.copied);
      if undone.Err? { return Err(BadPayload); }
      ghost var x1 := Held(x.copied, x.copied);
      SoundKept(site, b, file, sent, x);
      RowSound(site, b, file, sent, x, b.row.(local := true), Some(undone.value), x1);
      var b1 := b.(row := b.row.(local := true));
      UpdateRow(site, rows, disk, disk[id := undone.value], sent, held, id, b1, x1);
      held := held[id := x1];
      disk := disk[id := undone.value];
      rows := rows[id := b1];
      r := Ok(());
    }
  }

  /** What verification finds wrong with a replica: its check raises, the object is gone, or, on a
      deep check, its digest is not the recorded one. */
  predicate Faulty(site: Site, b: Stored, remote: map<string, Bytes>, deep: bool, raises: bool) {
    || raises
    || ObjectAt(remote, b).None?
    || (&& deep && b.row.digest.Some? && b.row.digest.value != ""
        && site.sha(ObjectAt(remote, b).value) != b.row.digest.value)
  }

  /** A check that raises or finds no object flags; one that finds an object flags only when it is
      deep and the digest differs from the recorded one; a flag changes the status and nothing else. */
  lemma FaultyMeans(site: Site, b: Stored, remote: map<string, Bytes>, deep: bool)
    requires b.row.key.Some?
    ensures Faulty(site, b, remote, deep, true)
    ensures b.row.key.value !in remote ==> Faulty(site, b, remote, deep, false)
    ensures b.row.key.value in remote && !deep ==> !Faulty(site, b, remote, deep, false)
    ensures b.row.key.value in remote && deep && b.row.digest.Some? && b.row.digest.value != "" ==>
      (Faulty(site, b, remote, deep, false) <==> site.sha(remote[b.row.key.value]) != b.row.digest.value)
    ensures Flagged(b) ==
      Stored(Row(Failed, b.row.key, b.row.digest, b.row.attempts, b.row.at, b.row.local), b.encrypted, b.compressed,
          b.instance, b.filename)
  {}

  ghost function FaultyIds(site: Site, ids: seq<int>, rows: map<int, Stored>, remote: map<string, Bytes>, deep: bool,
      unreachable: set<int>): set<int>
  {
    set id | id in ids && id in rows && Faulty(site, rows[id], remote, deep, id in unreachable)
  }

  lemma FaultyIdsSnoc(site: Site, ids: seq<int>, id: int, rows: map<int, Stored>, remote: map<string, Bytes>,
      deep: bool, unreachable: set<int>)
    requires id !in ids && id in rows
    ensures |FaultyIds(site, ids + [id], rows, remote, deep, unreachable)| ==
      |FaultyIds(site, ids, rows, remote, deep, unreachable)|
      + if Faulty(site, rows[id], remote, deep, id in unreachable) then 1 else 0
  {
    hide Faulty;
    var before := FaultyIds(site, ids, rows, remote, deep, unreachable);
    assert FaultyIds(site, ids + [id], rows, remote, deep, unreachable) ==
      if Faulty(site, rows[id], remote, deep, id in unreachable) then before + {id} else before;
  }

  lemma DigestNotEmpty(site: Site, b: Stored, sent: map<string, Bytes>, x: Bytes)
    requires Good(site) && Covered(site, b, sent, x)
    ensures b.row.digest.value != ""
  {}

  /** A deep check that finds nothing means the content can be brought back, if the object does
      not collide with what was uploaded; a shallow one means only that there is an object. */
  lemma DeepCheckIsEnough(site: Site, b: Stored, sent: map<string, Bytes>, remote: map<string, Bytes>, x: Bytes)
    requires Good(site) && Covered(site, b, sent, x) && !Faulty(site, b, remote, true, false)
    requires site.sha(ObjectAt(remote, b).value) == site.sha(ObjectAt(sent, b).value) ==>
      ObjectAt(remote, b) == ObjectAt(sent, b)
    ensures Restores(site.suite, site.zip, ObjectAt(remote, b).value, b.row.key.value, b.encrypted, b.compressed,
        Flags(site, true, true), x)
  {
    hide Restores;
    DigestNotEmpty(site, b, sent, x);
  }

  /** Damage to an object that stays in place goes unnoticed by a plain verification and is found
      by a deep one; a retrieval in between writes nothing. */
  method DamageNeedsDeepCheck(r: Replicator, id: int, damaged: Bytes)
    returns (plain: nat, retrieved: Result<(), RetrieveError>, deep: nat)
    requires r.Valid() && id in r.rows && r.rows[id].row.status == Done && r.rows[id].row.key.Some?
    requires r.rows[id].row.digest.Some?
    requires !r.rows[id].row.local && r.site.sha(damaged) != r.rows[id].row.digest.value
    requires r.rows[id].row.digest.value != ""
    modifies r
    ensures r.Valid() && r.disk == old(r.disk) && plain == 0 && retrieved.Err? && deep == 1
    ensures ObjectAt(r.remote, old(r.rows)[id]) == Some(damaged)
    ensures r.rows == old(r.rows)[id := Flagged(old(r.rows)[id])]
  {
    hide Consistent;
    var key := r.rows[id].row.key.value;
    r.Decay(r.remote[key := damaged]);
    assert !Faulty(r.site, r.rows[id], r.remote, false, false) && Faulty(r.site, r.rows[id], r.remote, true, false);
    assert forall j | j in r.rows :: (j in [id]) == (j == id);
    var checked;
    checked, plain := r.VerifyReplicas([id], false, {});
    assert forall j | j in r.rows :: r.rows[j] == old(r.rows)[j];
    assert r.rows == old(r.rows);
    FaultyOne(r.site, id, r.rows, r.remote, false);
    SentDigest(r, id);
    retrieved := r.RetrieveReplica(id, false);
    FaultyOne(r.site, id, r.rows, r.remote, true);
    checked, deep := r.VerifyReplicas([id], true, {});
    assert forall j | j in r.rows :: r.rows[j] == if j == id then Flagged(old(r.rows)[j]) else old(r.rows)[j];
  }

  lemma FaultyOne(site: Site, id: int, rows: map<int, Stored>, remote: map<string, Bytes>, deep: bool)
    requires id in rows
    ensures |FaultyIds(site, [id], rows, remote, deep, {})| ==
      if Faulty(site, rows[id], remote, deep, false) then 1 else 0
  {
    assert FaultyIds(site, [id], rows, remote, deep, {}) ==
      if Faulty(site, rows[id], remote, deep, false) then {id} else {};
  }

  lemma SentDigest(r: Replicator, id: int)
    requires r.Valid() && id in r.rows && (r.rows[id].row.status == Done || !r.rows[id].row.local)
    ensures ObjectAt(r.sent, r.rows[id]).Some?
    ensures Some(r.site.sha(ObjectAt(r.sent, r.rows[id]).value)) == r.rows[id].row.digest
  {
    hide Sound; hide Restores;
    SoundCovers(r.site, r.rows[id], FileOf(r.disk, id), r.sent, r.held[id]);
  }

  /** End to end: upload, lose the local copy to retention, retrieve. The flags and salt of the
      upload are arbitrary, and so is everything else in the store. It works exactly when there is
      a file whose payload can be prepared. */
  method UploadLoseRecover(r: Replicator, id: int, ep: bool, de: bool, salt: Bytes, mark: int) returns (recovered: bool)
    requires r.Valid() && id in r.rows && r.rows[id].row.local && |salt| == SALT_BYTES
    modifies r
    ensures r.Valid() && r.rows.Keys == old(r.rows).Keys
    ensures forall j | j in r.held :: r.held[j].local == old(r.held)[j].local
    ensures recovered <==>
      id in old(r.disk) && (Layered(old(r.rows)[id].encrypted, Flags(r.site, ep, de)) ==> r.site.password != "")
    ensures recovered ==>
      id in r.disk && Content(r.site.zip, r.disk[id], old(r.rows)[id].compressed) == Some(old(r.held)[id].local)
    ensures recovered ==> r.disk == old(r.disk)[id := r.disk[id]]
    ensures !recovered ==> r.rows[id].row.local && r.disk == old(r.disk)
  {
    hide Consistent; hide Attempted; hide Restores;
    ghost var b0, file := r.rows[id], FileOf(r.disk, id);
    if id in r.disk {
      LocalContent(r, id);
      PreparesIff(r.site, b0, r.disk[id], ep, de, salt, r.held[id].local);
    }
    var ok := r.ReplicateBackup(id, ep, de, salt, mark, Faithful);
    ghost var o := AttemptOutcome(r.site, b0, file, ep, de, salt, Faithful);
    MarkedShape(b0, mark, o);
    if !ok { return false; }
    r.KeepOffsite(id);
    SentDigest(r, id);
    var res := r.RetrieveReplica(id, false);
    assert res.Ok?;
    recovered := true;
  }

  /** A file whose content is known can be prepared unless a layer is wanted and no password set. */
  lemma PreparesIff(site: Site, b: Stored, raw: Bytes, ep: bool, de: bool, salt: Bytes, x: Bytes)
    requires Content(site.zip, raw, b.compressed) == Some(x)
    ensures Prepare(site.suite, site.zip, raw, b.encrypted, b.compressed, Flags(site, ep, de), salt).Ok?
       <==> (Layered(b.encrypted, Flags(site, ep, de)) ==> site.password != "")
  {
    hide Encrypt;
  }

  lemma LocalContent(r: Replicator, id: int)
    requires r.Valid() && id in r.rows && r.rows[id].row.local && id in r.disk
    ensures id in r.held && Content(r.site.zip, r.disk[id], r.rows[id].compressed) == Some(r.held[id].local)
  {
    hide Restores;
    SoundKept(r.site, r.rows[id], FileOf(r.disk, id), r.sent, r.held[id]);
  }

  /** Re-encryption leaves the replica columns alone, so a copy uploaded before it is stale: losing
      the re-encrypted file and retrieving brings the content of the upload back, which the new
      password opens only if it opened that content already. */
  method StaleCopyReturns(r: Replicator, id: int, raw: Bytes, ghost x: Bytes)
    requires r.Valid() && id in r.rows && r.rows[id].row.local && r.rows[id].row.status == Done
    requires r.rows[id].row.key.Some?
    requires Content(r.site.zip, raw, r.rows[id].compressed) == Some(x) && Restorable(r.rows[id], x)
    requires ObjectAt(r.remote, r.rows[id]) == ObjectAt(r.sent, r.rows[id])
    modifies r
    ensures r.Valid() && r.rows == old(r.rows) && id in r.disk
    ensures Content(r.site.zip, r.disk[id], r.rows[id].compressed) == Some(old(r.held)[id].copied)
  {
    hide Consistent; hide Restores; hide Restorable; hide Content;
    r.ReplaceFile(id, raw, x);
    r.KeepOffsite(id);
    SentDigest(r, id);
    var res := r.RetrieveReplica(id, false);
    assert res.Ok?;
  }

  lemma MarkedShape(b: Stored, mark: int, o: Outcome)
    ensures var b1 := Marked(b, mark, o);
      b1.row.local == b.row.local && b1.compressed == b.compressed
      && (Succeeds(b.row, o) ==> b1.row.status == Done && b1.row.key.Some?)
  {}

  /** What a sweep's attempt on each row comes to. */
  ghost function SweepOutcomes(site: Site, rows: map<int, Stored>, disk: map<int, Bytes>, ep: bool, de: bool,
      salt: int -> Bytes, fault: int -> Fault): int -> Outcome
  {
    (id: int) =>
      if id in rows then AttemptOutcome(site, rows[id], FileOf(disk, id), ep, de, salt(id), fault(id)) else Raised
  }

  /** A selected row that is due has had exactly one attempt; any other row is as it was. */
  ghost predicate Swept(b: Stored, b1: Stored, selected: bool, now: int, mark: int, o: Outcome) {
    b1 == if selected && AttemptDue(b.row.attempts, b.row.at, now) then Marked(b, mark, o) else b
  }

  ghost predicate AllSwept(ids: seq<int>, rows: map<int, Stored>, rows1: map<int, Stored>, now: int, mark: int -> int,
      outcome: int -> Outcome)
  {
    && rows1.Keys == rows.Keys
    && forall id | id in rows :: Swept(rows[id], rows1[id], id in ids, now, mark(id), outcome(id))
  }

  lemma NoneSwept(rows: map<int, Stored>, now: int, mark: int -> int, ids: seq<int>, outcome: int -> Outcome)
    ensures AllSwept(ids[..0], rows, rows, now, mark, outcome)
    ensures Alerts(ids[..0], rows, rows, now) == [] && Uploads(ids[..0], rows, rows, now) == 0
  {}

  lemma Unswept(ids: seq<int>, rows: map<int, Stored>, rows1: map<int, Stored>, now: int, mark: int -> int, id: int,
      outcome: int -> Outcome)
    requires AllSwept(ids, rows, rows1, now, mark, outcome) && id in rows && id !in ids
    ensures id in rows1 && rows1[id] == rows[id] && rows1.Keys == rows.Keys
  {
    assert Swept(rows[id], rows1[id], false, now, mark(id), outcome(id));
  }

  lemma SweptNext(ids: seq<int>, id: int, rows: map<int, Stored>, a: map<int, Stored>, b: map<int, Stored>, now: int,
      mark: int -> int, outcome: int -> Outcome)
    requires AllSwept(ids, rows, a, now, mark, outcome) && id in rows && id !in ids
    requires b == if Due(rows, id, now) then a[id := Marked(rows[id], mark(id), outcome(id))] else a
    ensures AllSwept(ids + [id], rows, b, now, mark, outcome)
  {
    hide Marked; hide AttemptDue;
    Unswept(ids, rows, a, now, mark, id, outcome);
    forall j | j in rows ensures Swept(rows[j], b[j], j in ids + [id], now, mark(j), outcome(j)) {
      assert Swept(rows[j], a[j], j in ids, now, mark(j), outcome(j));
    }
  }

  predicate Due(rows: map<int, Stored>, id: int, now: int)
  {
    id in rows && AttemptDue(rows[id].row.attempts, rows[id].row.at, now)
  }

  predicate DoneIn(rows: map<int, Stored>, id: int) { id in rows && rows[id].row.status == Done }

  /** The ids alerted about: due, not done afterwards, and failing for the third time. */
  function Alerts(ids: seq<int>, rows: map<int, Stored>, rows1: map<int, Stored>, now: int): seq<int> {
    if ids == [] then []
    else
      var n := |ids| - 1;
      Alerts(ids[..n], rows, rows1, now)
      + if Due(rows, ids[n], now) && !DoneIn(rows1, ids[n]) && rows[ids[n]].row.attempts + 1 == ALERT_AFTER
        then [ids[n]] else []
  }

  function Uploads(ids: seq<int>, rows: map<int, Stored>, rows1: map<int, Stored>, now: int): nat {
    if ids == [] then 0
    else
      var n := |ids| - 1;
      Uploads(ids[..n], rows, rows1, now) + if Due(rows, ids[n], now) && DoneIn(rows1, ids[n]) then 1 else 0
  }

  lemma CountsSnoc(ids: seq<int>, id: int, rows: map<int, Stored>, rows1: map<int, Stored>, now: int)
    ensures Alerts(ids + [id], rows, rows1, now) == Alerts(ids, rows, rows1, now)
      + (if Due(rows, id, now) && !DoneIn(rows1, id) && rows[id].row.attempts + 1 == ALERT_AFTER then [id] else [])
    ensures Uploads(ids + [id], rows, rows1, now) ==
      Uploads(ids, rows, rows1, now) + (if Due(rows, id, now) && DoneIn(rows1, id) then 1 else 0)
  {
    assert (ids + [id])[..|ids|] == ids;
  }

  lemma {:induction false} CountsSame(ids: seq<int>, rows: map<int, Stored>, a: map<int, Stored>, b: map<int, Stored>,
      now: int, id: int)
    requires id !in ids && a.Keys == b.Keys && forall j | j in a && j != id :: a[j] == b[j]
    ensures Alerts(ids, rows, a, now) == Alerts(ids, rows, b, now)
    ensures Uploads(ids, rows, a, now) == Uploads(ids, rows, b, now)
  {
    hide Due;
    if ids != [] {
      var n := |ids| - 1;
      CountsSame(ids[..n], rows, a, b, now, id);
      assert ids[n] != id;
    }
  }

  lemma DoneIffUploaded(site: Site, b: Stored, file: Option<Bytes>, ep: bool, de: bool, salt: Bytes, fault: Fault,
      mark: int)
    ensures var o := AttemptOutcome(site, b, file, ep, de, salt, fault);
      Marked(b, mark, o).row.status == Done <==> o.Uploaded?
  {
    hide Prepare;
  }

  function Flagged(b: Stored): Stored { b.(row := b.row.(status := Failed)) }

  lemma FlagOne(site: Site, rows: map<int, Stored>, disk: map<int, Bytes>, remote: map<string, Bytes>,
                held: map<int, Held>, id: int)
    requires Consistent(site, rows, disk, remote, held) && id in rows
    ensures Consistent(site, rows[id := Flagged(rows[id])], disk, remote, held)
  {
    hide Sound; hide NamesApart; hide Good;
    FlaggedSound(site, rows[id], FileOf(disk, id), remote, held[id]);
    assert held[id := held[id]] == held;
    UpdateRow(site, rows, disk, disk, remote, held, id, Flagged(rows[id]), held[id]);
  }

  lemma FlaggedSound(site: Site, b: Stored, file: Option<Bytes>, remote: map<string, Bytes>, x: Held)
    requires Sound(site, b, file, remote, x)
    ensures Sound(site, Flagged(b), file, remote, x)
  {
    SoundKept(site, b, file, remote, x);
    RowSound(site, b, file, remote, x, b.row.(status := Failed), file, x);
  }

  /** Changing only status and presence keeps a row sound if its file or its replica does. */
  lemma RowSound(site: Site, b: Stored, file: Option<Bytes>, remote: map<string, Bytes>, x: Held, row: Row,
      newFile: Option<Bytes>, x1: Held)
    requires x1.copied == x.copied && Restorable(b, x1.local)
    requires Sound(site, b, file, remote, x) && row.key == b.row.key && row.digest == b.row.digest
    requires row.local && newFile.Some? ==> Content(site.zip, newFile.value, b.compressed) == Some(x1.local)
    requires row.status == Done || !row.local ==> b.row.status == Done || !b.row.local
    ensures Sound(site, b.(row := row), newFile, remote, x1)
  {
    hide Restores; hide Plausible; hide EndsWith; hide BaseName; hide Content; hide IsSuffix; hide ObjectKey;
    assert forall s :: KeyOf(site, b.(row := row), s) == KeyOf(site, b, s);
  }

  lemma RestoresContent(site: Site, payload: Bytes, b: Stored, x: Bytes)
    requires b.row.key.Some?
    requires Restores(site.suite, site.zip, payload, b.row.key.value, b.encrypted, b.compressed,
        Flags(site, true, true), x)
    ensures var r := Undo(site.suite, site.zip, payload, b.row.key.value, b.encrypted, b.compressed,
        Flags(site, true, true));
      r.Ok? && Content(site.zip, r.value, b.compressed) == Some(x)
  {}
}
