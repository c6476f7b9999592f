/** Retention clean-up of one instance: which rows and files go, which stay, and what a crash
    before the commit leaves. */
module Cleanup {
  import opened Basics
  import opened Base64
  import opened Ordering
  import opened Retention
  import RetentionTiers

  /** A Backup row; replicaKey is set when a verified replica is recorded. */
  datatype Row = Row(instance: int, at: int, success: bool, local: bool, path: Option<string>,
      replicaKey: Option<string>)

  datatype Replication = Replication(enabled: bool, mirrorDeletes: bool)

  datatype Fate = Stays | Blocked | Offsite | Deleted

  predicate Candidate(row: Row, instance: int) { row.instance == instance && row.success && row.local }

  /** The listing the query returns: the candidates, each once. */
  ghost predicate Lists(listing: seq<int>, rows: map<int, Row>, instance: int) {
    && Distinct(listing)
    && (forall i | 0 <= i < |listing| :: listing[i] in rows && Candidate(rows[listing[i]], instance))
    && (forall id | id in rows && Candidate(rows[id], instance) :: id in listing)
  }

  function Pairs(listing: seq<int>, rows: map<int, Row>): (r: seq<Backup>)
    requires forall i | 0 <= i < |listing| :: listing[i] in rows
    ensures |r| == |listing| && forall i | 0 <= i < |r| :: r[i] == Backup(listing[i], rows[listing[i]].at)
  {
    seq(|listing|, i requires 0 <= i < |listing| => Backup(listing[i], rows[listing[i]].at))
  }

  /** What happens to a candidate row; broken holds the paths whose unlink raises. */
  function FateOf(row: Row, kept: bool, broken: set<string>, repl: Replication): Fate {
    if kept then Stays
    else if row.path.Some? && row.path.value in broken then Blocked
    else if row.replicaKey.Some? && repl.enabled && !repl.mirrorDeletes then Offsite
    else Deleted
  }

  function Fates(id: int, rows: map<int, Row>, stale: set<int>, broken: set<string>, repl: Replication): Fate {
    if id in rows then FateOf(rows[id], id !in stale, broken, repl) else Stays
  }

  function RowsAfter(rows: map<int, Row>, stale: set<int>, broken: set<string>, repl: Replication): map<int, Row> {
    map id | id in rows && Fates(id, rows, stale, broken, repl) != Deleted ::
      if Fates(id, rows, stale, broken, repl) == Offsite then rows[id].(local := false) else rows[id]
  }

  /** The paths clean-up unlinks. */
  function Unlinked(rows: map<int, Row>, stale: set<int>, broken: set<string>): set<string> {
    set id | id in stale && id in rows && rows[id].path.Some? && rows[id].path.value !in broken :: rows[id].path.value
  }

  ghost function NotKept(listing: seq<int>, keep: set<int>): set<int> { set id | id in listing && id !in keep }

  ghost function StaleIds(rows: map<int, Row>, listing: seq<int>, p: Policy, now: int, cal: Calendar): set<int>
    requires forall i | 0 <= i < |listing| :: listing[i] in rows
  {
    if p.countCap <= 0 && !p.HasTiers() then {}
    else set id | id in listing && id !in KeepIds(NewestFirst(Pairs(listing, rows)), p, now, cal)
  }

  class Store {
    var rows: map<int, Row>
    var files: map<string, Bytes>

    constructor (rows: map<int, Row>, files: map<string, Bytes>)
      ensures this.rows == rows && this.files == files
    {
      this.rows, this.files := rows, files;
    }

    /** `_cleanup_old_backups`. The process may die after dying rows of the loop, before the one
        commit; unlinked files are gone then and the row changes are not. */
    method CleanupOldBackups(instance: int, listing: seq<int>, p: Policy, now: int, cal: Calendar,
                             broken: set<string>, repl: Replication, dying: Option<nat>)
      returns (committed: bool, removed: nat, remoteDeletes: seq<string>)
      requires Lists(listing, rows, instance)
      modifies this
      ensures var stale := StaleIds(old(rows), listing, p, now, cal);
        if committed then
          rows == RowsAfter(old(rows), stale, broken, repl) && files == old(files) - Unlinked(old(rows), stale, broken)
          && removed == |old(rows)| - |rows|
        else
          rows == old(rows) && files.Keys <= old(files).Keys && (forall f | f in files :: files[f] == old(files)[f])
          && old(files).Keys - files.Keys <= Unlinked(old(rows), stale, broken)
      ensures dying == None ==> committed
      ensures committed ==> CleanedUp(old(rows), rows, StaleIds(old(rows), listing, p, now, cal), broken, repl)
      ensures committed ==>
        FilesCleaned(old(files), files, old(rows), StaleIds(old(rows), listing, p, now, cal), broken)
      ensures committed ==> DeletesSent(old(rows), rows, remoteDeletes, repl)
      ensures remoteDeletes ==
        if committed then Mirrored(listing, old(rows), StaleIds(old(rows), listing, p, now, cal), broken, repl) else []
    {
      hide RowsAfter; hide Unlinked; hide Mirrored; hide KeepIds; hide NewestFirst; hide Ids;
      hide CleanedUp; hide FilesCleaned; hide DeletesSent;
      ghost var stale := StaleIds(rows, listing, p, now, cal);
      RowsAfterMeans(rows, stale, broken, repl);
      UnlinkedMeans(files, rows, stale, broken);
      MirroredMeans(listing, rows, stale, broken, repl);
      NothingStale(rows, broken, repl);
      NoneMirrored(listing, rows, broken, repl);
      assert files - {} == files;
      if p.countCap <= 0 && !p.HasTiers() { return true, 0, []; }
      var keep := ComputeKeepIds(Pairs(listing, rows), p, now, cal);
      var died, pending;
      died, pending, removed, remoteDeletes := DropAll(listing, keep, broken, repl, dying);
      assert NotKept(listing, keep) == StaleIds(rows, listing, p, now, cal);
      if died { return false, removed, []; }
      rows := pending;
      committed := true;
    }

    /** The loop over the stale rows, in one open transaction. */
    method DropAll(listing: seq<int>, keep: set<int>, broken: set<string>, repl: Replication, dying: Option<nat>)
      returns (died: bool, pending: map<int, Row>, removed: nat, remoteDeletes: seq<string>)
      requires Distinct(listing) && forall i | 0 <= i < |listing| :: listing[i] in rows
      modifies this`files
      ensures died ==> files.Keys <= old(files).Keys && (forall f | f in files :: files[f] == old(files)[f])
      ensures died ==> old(files).Keys - files.Keys <= Unlinked(rows, NotKept(listing, keep), broken)
      ensures !died ==>
        pending == RowsAfter(rows, NotKept(listing, keep), broken, repl) && removed == |rows| - |pending|
      ensures !died ==> files == old(files) - Unlinked(rows, NotKept(listing, keep), broken)
      ensures !died ==> remoteDeletes == Mirrored(listing, rows, NotKept(listing, keep), broken, repl)
      ensures dying == None ==> !died
    {
      hide RowsAfter; hide Unlinked; hide Mirrored; hide MirroredKey; hide FateOf; hide NotKept; hide Distinct;
      hide Settled; hide OwnPath;
      ghost var stale := NotKept(listing, keep);
      ghost var done := NotKept(listing[..0], keep);
      NoneYet(listing, keep);
      pending, removed, remoteDeletes := rows, 0, [];
      NothingStale(rows, broken, repl);
      NoneMirrored(listing, rows, broken, repl);
      assert files - {} == files;
      for i := 0 to |listing|
        invariant done == NotKept(listing[..i], keep)
        invariant pending == RowsAfter(rows, done, broken, repl)
        invariant files == old(files) - Unlinked(rows, done, broken)
        invariant removed == |rows| - |pending|
        invariant remoteDeletes == Mirrored(listing[..i], rows, stale, broken, repl)
      {
        NextId(listing, i, keep);
        PartUnlinked(rows, done, stale, broken);
        if dying == Some(i) { return true, pending, removed, remoteDeletes; }
        var id := listing[i];
        MirroredSnoc(listing[..i], id, rows, stale, broken, repl);
        if id !in keep {
          NextRow(rows, done, id, broken, repl);
          done := done + {id};
          var gone, mirrored;
          gone, pending, mirrored := DropStale(id, pending, broken, repl);
          removed, remoteDeletes := removed + gone, remoteDeletes + mirrored;
        }
      }
      PartUnlinked(rows, done, stale, broken);
      assert listing[..|listing|] == listing;
      died := dying.Some?;
    }

    /** The loop body for one stale row: unlink, then flip or delete in the open transaction. */
    method DropStale(id: int, before: map<int, Row>, broken: set<string>, repl: Replication)
      returns (gone: nat, pending: map<int, Row>, mirrored: seq<string>)
      requires id in before
      modifies this`files
      ensures pending == Settled(before, id, FateOf(before[id], false, broken, repl)) && gone == |before| - |pending|
      ensures files == old(files) - OwnPath(before[id], broken)
      ensures mirrored == MirroredKey(before[id], broken, repl)
    {
      gone, pending, mirrored := 0, before, [];
      var row := before[id];
      if row.path.Some? {
        if row.path.value in broken { return; }
        files := files - {row.path.value};
      }
      if row.replicaKey.Some? && repl.enabled && !repl.mirrorDeletes {
        pending := pending[id := row.(local := false)];
        assert pending.Keys == before.Keys;
        SameSize(before, pending);
        return;
      }
      if row.replicaKey.Some? && repl.enabled && repl.mirrorDeletes { mirrored := [row.replicaKey.value]; }
      pending := pending - {id};
      OneLess(before, id);
      gone := 1;
    }
  }

  /** The object whose row goes while deletions are mirrored. */
  function MirroredKey(row: Row, broken: set<string>, repl: Replication): seq<string> {
    if FateOf(row, false, broken, repl) == Deleted && repl.enabled && row.replicaKey.Some?
    then [row.replicaKey.value] else []
  }

  function Mirrored(listing: seq<int>, rows: map<int, Row>, stale: set<int>, broken: set<string>,
      repl: Replication): seq<string>
  {
    if listing == [] then []
    else
      var n := |listing| - 1;
      Mirrored(listing[..n], rows, stale, broken, repl)
      + if listing[n] in stale && listing[n] in rows then MirroredKey(rows[listing[n]], broken, repl) else []
  }

  lemma MirroredSnoc(listing: seq<int>, id: int, rows: map<int, Row>, stale: set<int>, broken: set<string>,
      repl: Replication)
    ensures Mirrored(listing + [id], rows, stale, broken, repl) ==
      Mirrored(listing, rows, stale, broken, repl)
      + if id in stale && id in rows then MirroredKey(rows[id], broken, repl) else []
  {
    assert (listing + [id])[..|listing|] == listing;
  }

  lemma {:induction false} NoneMirrored(listing: seq<int>, rows: map<int, Row>, broken: set<string>, repl: Replication)
    ensures Mirrored(listing, rows, {}, broken, repl) == []
    ensures forall stale :: Mirrored(listing[..0], rows, stale, broken, repl) == []
  {
    if listing != [] { NoneMirrored(listing[..|listing| - 1], rows, broken, repl); }
  }

  lemma NoneYet(listing: seq<int>, keep: set<int>)
    ensures NotKept(listing[..0], keep) == {}
  {}

  lemma NextId(listing: seq<int>, i: nat, keep: set<int>)
    requires i < |listing| && Distinct(listing)
    ensures listing[..i + 1] == listing[..i] + [listing[i]]
    ensures NotKept(listing[..i + 1], keep) ==
      if listing[i] in keep then NotKept(listing[..i], keep) else NotKept(listing[..i], keep) + {listing[i]}
    ensures listing[i] !in NotKept(listing[..i], keep) && NotKept(listing[..i], keep) <= NotKept(listing, keep)
    ensures listing[i] in NotKept(listing, keep) <==> listing[i] !in keep
  {
    assert listing[i] !in listing[..i];
  }

  lemma SameSize(a: map<int, Row>, b: map<int, Row>)
    requires a.Keys == b.Keys
    ensures |a| == |b|
  {
    assert |a| == |a.Keys| && |b| == |b.Keys|;
  }

  lemma OneLess(rows: map<int, Row>, id: int)
    requires id in rows
    ensures |rows - {id}| == |rows| - 1
  {
    assert (rows - {id}).Keys == rows.Keys - {id};
    assert |rows| == |rows.Keys| && |rows - {id}| == |(rows - {id}).Keys|;
  }

  function Settled(rows: map<int, Row>, id: int, fate: Fate): map<int, Row>
    requires id in rows
  {
    if fate == Deleted then rows - {id} else if fate == Offsite then rows[id := rows[id].(local := false)] else rows
  }

  function OwnPath(row: Row, broken: set<string>): set<string> {
    if row.path.Some? && row.path.value !in broken then {row.path.value} else {}
  }

  lemma PartUnlinked(rows: map<int, Row>, done: set<int>, stale: set<int>, broken: set<string>)
    ensures done <= stale ==> Unlinked(rows, done, broken) <= Unlinked(rows, stale, broken)
  {}

  lemma NothingStale(rows: map<int, Row>, broken: set<string>, repl: Replication)
    ensures RowsAfter(rows, {}, broken, repl) == rows && Unlinked(rows, {}, broken) == {}
  {}

  /** One more stale row. */
  lemma NextRow(rows: map<int, Row>, done: set<int>, id: int, broken: set<string>, repl: Replication)
    requires id in rows && id !in done
    ensures id in RowsAfter(rows, done, broken, repl) && RowsAfter(rows, done, broken, repl)[id] == rows[id]
    ensures RowsAfter(rows, done + {id}, broken, repl) ==
      Settled(RowsAfter(rows, done, broken, repl), id, FateOf(rows[id], false, broken, repl))
    ensures Unlinked(rows, done + {id}, broken) == Unlinked(rows, done, broken) + OwnPath(rows[id], broken)
  {}

  // ---- the same, read off the tables before and after ----

  /** A stale row goes unless its file cannot be unlinked; it stays as an off-site row when a
      verified replica is to be kept. Every other row is as it was. */
  ghost predicate CleanedUp(before: map<int, Row>, after: map<int, Row>, stale: set<int>, broken: set<string>,
      repl: Replication)
  {
    && after.Keys <= before.Keys
    && forall id | id in before ::
         var row := before[id];
         if id !in stale || (row.path.Some? && row.path.value in broken) then id in after && after[id] == row
         else if row.replicaKey == None || !repl.enabled || repl.mirrorDeletes then id !in after
         else id in after && after[id] == Row(row.instance, row.at, row.success, false, row.path, row.replicaKey)
  }

  /** A file goes exactly when it is the file of a stale row and can be unlinked; no other changes. */
  ghost predicate FilesCleaned(before: map<string, Bytes>, after: map<string, Bytes>, rows: map<int, Row>,
      stale: set<int>, broken: set<string>)
  {
    && after.Keys <= before.Keys && (forall f | f in after :: after[f] == before[f])
    && forall f | f in before ::
         f !in after <==> f !in broken && exists id :: id in stale && id in rows && rows[id].path == Some(f)
  }

  /** The remote objects to delete are those of the deleted rows, while deletions are mirrored. */
  ghost predicate DeletesSent(before: map<int, Row>, after: map<int, Row>, deletes: seq<string>, repl: Replication) {
    forall key :: key in deletes <==>
      && repl.enabled && repl.mirrorDeletes
      && exists id :: id in before && id !in after && before[id].replicaKey == Some(key)
  }

  lemma RowsAfterMeans(rows: map<int, Row>, stale: set<int>, broken: set<string>, repl: Replication)
    ensures CleanedUp(rows, RowsAfter(rows, stale, broken, repl), stale, broken, repl)
  {}

  lemma UnlinkedMeans(files: map<string, Bytes>, rows: map<int, Row>, stale: set<int>, broken: set<string>)
    ensures FilesCleaned(files, files - Unlinked(rows, stale, broken), rows, stale, broken)
  {}

  lemma {:induction false} MirroredMember(listing: seq<int>, rows: map<int, Row>, stale: set<int>, broken: set<string>,
      repl: Replication, key: string)
    ensures key in Mirrored(listing, rows, stale, broken, repl) <==>
      exists id :: id in listing && id in stale && id in rows && key in MirroredKey(rows[id], broken, repl)
  {
    hide MirroredKey;
    if listing != [] {
      var n := |listing| - 1;
      MirroredMember(listing[..n], rows, stale, broken, repl, key);
      assert listing == listing[..n] + [listing[n]];
      assert forall id :: id in listing <==> id in listing[..n] || id == listing[n];
    }
  }

  lemma MirroredMeans(listing: seq<int>, rows: map<int, Row>, stale: set<int>, broken: set<string>, repl: Replication)
    requires forall id | id in stale :: id in listing && id in rows
    ensures DeletesSent(rows, RowsAfter(rows, stale, broken, repl), Mirrored(listing, rows, stale, broken, repl), repl)
  {
    hide Mirrored;
    var after := RowsAfter(rows, stale, broken, repl);
    forall key ensures key in Mirrored(listing, rows, stale, broken, repl) <==>
      && repl.enabled && repl.mirrorDeletes
      && exists id :: id in rows && id !in after && rows[id].replicaKey == Some(key)
    {
      MirroredMember(listing, rows, stale, broken, repl, key);
      if id :| id in listing && id in stale && id in rows && key in MirroredKey(rows[id], broken, repl) {
        assert id !in after && rows[id].replicaKey == Some(key);
      }
    }
  }

  /** The candidates as times under their ids. */
  ghost function CandidateSet(rows: map<int, Row>, instance: int): set<Backup> {
    set id | id in rows && rows[id].instance == instance && rows[id].success && rows[id].local ::
      Backup(id, rows[id].at)
  }

  lemma PairsAreCandidates(rows: map<int, Row>, instance: int, listing: seq<int>)
    requires Lists(listing, rows, instance)
    ensures Elements(Pairs(listing, rows)) == CandidateSet(rows, instance) && Distinct(Pairs(listing, rows))
  {
    var pairs := Pairs(listing, rows);
    forall b ensures b in Elements(pairs) <==> b in CandidateSet(rows, instance) {
      if b in CandidateSet(rows, instance) {
        var i :| 0 <= i < |listing| && listing[i] == b.id;
        assert pairs[i] == b;
      }
    }
    forall i, j | 0 <= i < j < |pairs| ensures pairs[i] != pairs[j] { assert listing[i] != listing[j]; }
  }

  /** A row is stale exactly when it is a local success of the instance that the policy does not
      keep, and the policy sets a positive count or one of the four tiers. */
  lemma StaleMeans(rows: map<int, Row>, instance: int, listing: seq<int>, p: Policy, now: int, cal: Calendar, id: int)
    requires Lists(listing, rows, instance) && DistinctTimes(CandidateSet(rows, instance))
    ensures id in StaleIds(rows, listing, p, now, cal) <==>
      && id in rows && rows[id].instance == instance && rows[id].success && rows[id].local
      && (p.countCap >= 1 || p.keepAllDays != None || p.dailyDays != None || p.weeklyWeeks != None
          || p.monthlyMonths != None)
      && !RetentionTiers.PolicyKeeps(CandidateSet(rows, instance), Backup(id, rows[id].at), p, now, cal)
  {
    hide KeepIds; hide NewestFirst; hide RetentionTiers.PolicyKeeps;
    var pairs := Pairs(listing, rows);
    PairsAreCandidates(rows, instance, listing);
    if id in listing {
      var i :| 0 <= i < |listing| && listing[i] == id;
      assert pairs[i] == Backup(id, rows[id].at);
      RetentionTiers.KeptIff(pairs, p, now, cal, pairs[i]);
    }
  }

  // ---- what clean-up guarantees ----

  ghost predicate DistinctPaths(rows: map<int, Row>) {
    forall i, j | i in rows && j in rows && i != j && rows[i].path.Some? :: rows[i].path != rows[j].path
  }

  /** A row that is not stale is untouched, and so is its file. */
  lemma KeptUntouched(rows: map<int, Row>, files: map<string, Bytes>, stale: set<int>, broken: set<string>,
      repl: Replication, id: int)
    requires DistinctPaths(rows) && id in rows && id !in stale
    ensures id in RowsAfter(rows, stale, broken, repl) && RowsAfter(rows, stale, broken, repl)[id] == rows[id]
    ensures rows[id].path.Some? && rows[id].path.value in files ==>
      rows[id].path.value in files - Unlinked(rows, stale, broken)
  {}

  /** A row is deleted or flipped only if it has no file any more. */
  lemma GoneOnlyWithoutFile(rows: map<int, Row>, files: map<string, Bytes>, stale: set<int>, broken: set<string>,
      repl: Replication, id: int)
    requires id in rows
    requires id !in RowsAfter(rows, stale, broken, repl) || RowsAfter(rows, stale, broken, repl)[id] != rows[id]
    ensures rows[id].path.None? || rows[id].path.value !in files - Unlinked(rows, stale, broken)
  {}

  /** With replication on and deletions not mirrored, a row with a verified replica is never
      deleted: at most it becomes off-site only. */
  lemma ReplicaSurvives(rows: map<int, Row>, stale: set<int>, broken: set<string>, repl: Replication, id: int)
    requires id in rows && rows[id].replicaKey.Some? && repl.enabled && !repl.mirrorDeletes
    ensures id in RowsAfter(rows, stale, broken, repl)
    ensures var row := RowsAfter(rows, stale, broken, repl)[id]; row == rows[id] || row == rows[id].(local := false)
  {}

  /** Stale rows are candidates the policy does not keep; a newest candidate is never stale. */
  lemma NewestNeverStale(rows: map<int, Row>, instance: int, listing: seq<int>, p: Policy, now: int, cal: Calendar)
    requires Lists(listing, rows, instance) && listing != []
    ensures exists id ::
      && id in listing && id !in StaleIds(rows, listing, p, now, cal)
      && forall j | j in listing :: rows[j].at <= rows[id].at
    ensures forall id | id in StaleIds(rows, listing, p, now, cal) :: id in rows && Candidate(rows[id], instance)
  {
    hide KeepIds; hide NewestFirst;
    var pairs := Pairs(listing, rows);
    var ordered := NewestFirst(pairs);
    NewestFirstSorts(pairs);
    SameMembers(pairs, ordered);
    KeepBounds(ordered, p, now, cal);
    var top := ordered[0];
    assert top in ordered;
    var i :| 0 <= i < |pairs| && pairs[i] == top;
    forall j | j in listing ensures rows[j].at <= rows[listing[i]].at {
      var k :| 0 <= k < |listing| && listing[k] == j;
      assert pairs[k] in ordered;
      var m :| 0 <= m < |ordered| && ordered[m] == pairs[k];
    }
    assert listing[i] in listing;
  }

  /** Dying before the commit and running again at the same time ends as if nothing happened. */
  method CrashThenRerun(s: Store, instance: int, listing: seq<int>, p: Policy, now: int, cal: Calendar,
                        broken: set<string>, repl: Replication, at: nat)
    returns (removed: nat)
    requires Lists(listing, s.rows, instance)
    modifies s
    ensures var stale := StaleIds(old(s.rows), listing, p, now, cal);
      s.rows == RowsAfter(old(s.rows), stale, broken, repl)
      && s.files == old(s.files) - Unlinked(old(s.rows), stale, broken)
    ensures var stale := StaleIds(old(s.rows), listing, p, now, cal);
      && CleanedUp(old(s.rows), s.rows, stale, broken, repl)
      && FilesCleaned(old(s.files), s.files, old(s.rows), stale, broken)
    ensures removed == |old(s.rows)| - |s.rows|
  {
    hide RowsAfter; hide Unlinked; hide KeepIds; hide NewestFirst; hide CleanedUp; hide FilesCleaned;
    hide DeletesSent; hide Mirrored; hide StaleIds;
    var committed, n, deletes := s.CleanupOldBackups(instance, listing, p, now, cal, broken, repl, Some(at));
    RowsAfterMeans(old(s.rows), StaleIds(old(s.rows), listing, p, now, cal), broken, repl);
    UnlinkedMeans(old(s.files), old(s.rows), StaleIds(old(s.rows), listing, p, now, cal), broken);
    if committed { return n; }
    committed, n, deletes := s.CleanupOldBackups(instance, listing, p, now, cal, broken, repl, None);
    removed := n;
  }
}
