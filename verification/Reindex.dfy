/** Writing the log: one backup at a time as they arrive, or all at once by the reindex command. */
module Reindex {
  import opened Basics
  import opened Json
  import opened Ordering
  import opened ListDiff
  import opened Anchors
  import opened AnchorLog
  import opened LogReplay

  /** A successful backup row; no config when the file cannot be read or parsed. */
  datatype Snapshot = Snapshot(id: int, at: int, config: Option<Config>)

  /** One anchor_event row. */
  datatype Record = Record(backupId: int, prevId: Option<int>, at: int, event: Event)

  function Recorded(b: Snapshot, prevId: Option<int>, es: seq<Event>): seq<Record> {
    seq(|es|, i requires 0 <= i < |es| => Record(b.id, prevId, b.at, es[i]))
  }

  // ---- the reindex command ----

  predicate ByStart(x: Snapshot, y: Snapshot) { x.at < y.at }

  function LastReadable(bs: seq<Snapshot>): Option<Snapshot> {
    if bs == [] then None
    else if bs[|bs| - 1].config.Some? then Some(bs[|bs| - 1])
    else LastReadable(bs[..|bs| - 1])
  }

  /** The records of one backup, given the last readable one before it. */
  function StepRecords(prev: Option<Snapshot>, b: Snapshot): seq<Record>
    requires prev.Some? ==> prev.value.config.Some?
  {
    match b.config
    case None => []
    case Some(cfg) =>
      match prev
      case None => Recorded(b, None, Seed(cfg))
      case Some(p) => Recorded(b, Some(p.id), Project(p.config.value, cfg))
  }

  lemma {:induction false} LastReadableReads(bs: seq<Snapshot>)
    ensures LastReadable(bs).Some? ==> LastReadable(bs).value.config.Some? && LastReadable(bs).value in bs
  {
    if bs != [] { LastReadableReads(bs[..|bs| - 1]); }
  }

  /** The log of an ordered history: unreadable backups are skipped and the chain continues
      from the last good snapshot. */
  function LogOf(bs: seq<Snapshot>): seq<Record> {
    if bs == [] then []
    else
      LastReadableReads(bs[..|bs| - 1]);
      LogOf(bs[..|bs| - 1]) + StepRecords(LastReadable(bs[..|bs| - 1]), bs[|bs| - 1])
  }

  /** `_reindex_one_instance`: order the rows by start time, then carry the previous
      parsed snapshot through one loop. */
  method ReindexInstance(rows: seq<Snapshot>) returns (log: seq<Record>, emitted: nat)
    ensures log == LogOf(SortBy(rows, ByStart)) && emitted == |log|
  {
    hide Seed;
    hide Project;
    var bs := SortBy(rows, ByStart);
    log, emitted := [], 0;
    var prev: Option<Snapshot> := None;
    for i := 0 to |bs|
      invariant log == LogOf(bs[..i]) && emitted == |log|
      invariant prev == LastReadable(bs[..i]) && (prev.Some? ==> prev.value.config.Some?)
    {
      assert bs[..i + 1][..i] == bs[..i];
      if bs[i].config.Some? {
        var records := StepRecords(prev, bs[i]);
        log, emitted := log + records, emitted + |records|;
        prev := Some(bs[i]);
      }
    }
    assert bs[..|bs|] == bs;
  }

  // ---- ingestion ----

  /** The most recent other backup that started before b. */
  function Previous(table: seq<Snapshot>, b: Snapshot): Option<Snapshot> {
    if table == [] then None
    else
      var best, r := Previous(table[..|table| - 1], b), table[|table| - 1];
      if r.id != b.id && r.at < b.at && (best == None || best.value.at < r.at) then Some(r) else best
  }

  predicate HasOther(table: seq<Snapshot>, b: Snapshot) { exists r | r in table :: r.id != b.id }

  /** `_compute_and_persist_diffs`, event part: what the arrival of b writes. */
  function Ingest(table: seq<Snapshot>, b: Snapshot): seq<Record> {
    match b.config
    case None => []
    case Some(cfg) =>
      match Previous(table, b)
      case Some(p) => if p.config == None then [] else Recorded(b, Some(p.id), Project(p.config.value, cfg))
      case None => if HasOther(table, b) then [] else Recorded(b, None, Seed(cfg))
  }

  /** The records written while the backups arrive one by one, nothing being pruned. */
  function IngestLog(arrivals: seq<Snapshot>): seq<Record> {
    if arrivals == [] then []
    else IngestLog(arrivals[..|arrivals| - 1]) + Ingest(arrivals, arrivals[|arrivals| - 1])
  }

  ghost predicate CleanHistory(bs: seq<Snapshot>) {
    && (forall b | b in bs :: b.config.Some?)
    && (forall i, j | 0 <= i < j < |bs| :: bs[i].at < bs[j].at && bs[i].id != bs[j].id)
  }

  lemma {:induction false} PreviousIsLast(table: seq<Snapshot>, n: nat, b: Snapshot)
    requires n <= |table|
    requires forall i, j | 0 <= i < j < |table| :: table[i].at < table[j].at
    requires forall i | 0 <= i < |table| :: (table[i].id != b.id && table[i].at < b.at <==> i < n)
    ensures Previous(table, b) == if n == 0 then None else Some(table[n - 1])
  {
    if table != [] {
      var m := |table| - 1;
      PreviousIsLast(table[..m], if n > m then m else n, b);
    }
  }

  lemma IngestLast(bs: seq<Snapshot>)
    requires CleanHistory(bs) && bs != []
    ensures LastReadable(bs[..|bs| - 1]).Some? ==> LastReadable(bs[..|bs| - 1]).value.config.Some?
    ensures Ingest(bs, bs[|bs| - 1]) == StepRecords(LastReadable(bs[..|bs| - 1]), bs[|bs| - 1])
  {
    hide Seed;
    hide Project;
    hide Recorded;
    var n := |bs| - 1;
    PreviousIsLast(bs, n, bs[n]);
    if n > 0 {
      assert bs[..n][n - 1] == bs[n - 1] && bs[n - 1] in bs;
    } else {
      assert bs[..0] == [] && bs == [bs[0]];
    }
    assert bs[n] in bs;
  }

  /** With every backup readable, strictly increasing start times and nothing pruned, the
      events written one backup at a time are the events the full reindex writes. */
  lemma {:induction false} IngestionEqualsReindex(bs: seq<Snapshot>)
    requires CleanHistory(bs)
    ensures IngestLog(bs) == LogOf(bs)
  {
    hide Ingest;
    hide StepRecords;
    if bs != [] {
      assert forall x | x in bs[..|bs| - 1] :: x in bs;
      IngestionEqualsReindex(bs[..|bs| - 1]);
      IngestLast(bs);
    }
  }

  lemma IngestionEqualsReindexCommand(bs: seq<Snapshot>)
    requires CleanHistory(bs)
    ensures IngestLog(bs) == LogOf(SortBy(bs, ByStart))
  {
    IngestionEqualsReindex(bs);
    SortGives(bs, bs, ByStart);
  }

  // ---- what a record says ----

  /** i is the last readable backup before j. */
  ghost predicate ReadableBefore(bs: seq<Snapshot>, i: int, j: int) {
    0 <= i < j <= |bs| && bs[i].config.Some? && forall k | i < k < j :: bs[k].config == None
  }

  /** The record of backup j: its own id and time; seeded without predecessor, or projected from
      the last readable backup before it, whose id it names. */
  ghost predicate RecordOf(bs: seq<Snapshot>, j: int, r: Record)
    requires 0 <= j < |bs| && bs[j].config.Some?
  {
    && r.backupId == bs[j].id && r.at == bs[j].at
    && match r.prevId
       case None => (forall k | 0 <= k < j :: bs[k].config == None) && r.event in Seed(bs[j].config.value)
       case Some(id) => exists i ::
         && ReadableBefore(bs, i, j) && id == bs[i].id && r.event in Project(bs[i].config.value, bs[j].config.value)
  }

  lemma {:induction false} LastReadableAt(bs: seq<Snapshot>)
    ensures LastReadable(bs) == None ==> forall k | 0 <= k < |bs| :: bs[k].config == None
    ensures LastReadable(bs).Some? ==> exists i :: ReadableBefore(bs, i, |bs|) && bs[i] == LastReadable(bs).value
  {
    if bs != [] {
      var n := |bs| - 1;
      LastReadableAt(bs[..n]);
      if bs[n].config.Some? {
        assert ReadableBefore(bs, n, |bs|);
      } else if LastReadable(bs[..n]).Some? {
        var i :| ReadableBefore(bs[..n], i, n) && bs[..n][i] == LastReadable(bs[..n]).value;
        assert ReadableBefore(bs, i, |bs|);
      }
    }
  }

  lemma RecordedMember(b: Snapshot, prevId: Option<int>, es: seq<Event>, r: Record)
    ensures r in Recorded(b, prevId, es) <==> r.backupId == b.id && r.prevId == prevId && r.at == b.at && r.event in es
  {
    var rs := Recorded(b, prevId, es);
    if r.backupId == b.id && r.prevId == prevId && r.at == b.at && r.event in es {
      var i :| 0 <= i < |es| && es[i] == r.event;
      assert rs[i] == r;
    }
  }

  lemma OnlyReadableBefore(bs: seq<Snapshot>, i: int, k: int, j: int)
    requires ReadableBefore(bs, i, j) && ReadableBefore(bs, k, j)
    ensures i == k
  {}

  lemma LastRecords(bs: seq<Snapshot>, r: Record)
    requires bs != []
    ensures LastReadable(bs[..|bs| - 1]).Some? ==> LastReadable(bs[..|bs| - 1]).value.config.Some?
    ensures r in StepRecords(LastReadable(bs[..|bs| - 1]), bs[|bs| - 1]) <==>
            bs[|bs| - 1].config.Some? && RecordOf(bs, |bs| - 1, r)
  {
    hide Seed; hide Project; hide Recorded; hide LastReadable;
    var n := |bs| - 1;
    LastReadableReads(bs[..n]);
    LastReadableAt(bs[..n]);
    if bs[n].config.Some? {
      var cfg := bs[n].config.value;
      match LastReadable(bs[..n]) {
        case None =>
          RecordedMember(bs[n], None, Seed(cfg), r);
          assert forall k | 0 <= k < n :: bs[k].config == bs[..n][k].config;
        case Some(p) =>
          RecordedMember(bs[n], Some(p.id), Project(p.config.value, cfg), r);
          var i :| ReadableBefore(bs[..n], i, n) && bs[..n][i] == p;
          assert ReadableBefore(bs, i, n) && bs[i] == p;
          forall k | ReadableBefore(bs, k, n) ensures k == i { OnlyReadableBefore(bs, i, k, n); }
      }
    }
  }

  lemma RecordOfPrefix(bs: seq<Snapshot>, n: nat, j: int, r: Record)
    requires n <= |bs| && 0 <= j < n && bs[j].config.Some?
    ensures RecordOf(bs[..n], j, r) <==> RecordOf(bs, j, r)
  {
    hide Seed; hide Project;
    assert forall k | 0 <= k < n :: bs[..n][k] == bs[k];
    forall i ensures ReadableBefore(bs[..n], i, j) <==> ReadableBefore(bs, i, j) {}
  }

  /** The log holds exactly the records of its readable backups. */
  lemma {:induction false} LogRecords(bs: seq<Snapshot>, r: Record)
    ensures r in LogOf(bs) <==> exists j :: 0 <= j < |bs| && bs[j].config.Some? && RecordOf(bs, j, r)
  {
    hide RecordOf; hide StepRecords; hide LastReadable;
    if bs != [] {
      var n := |bs| - 1;
      LogRecords(bs[..n], r);
      LastRecords(bs, r);
      if j :| 0 <= j < n && bs[..n][j].config.Some? && RecordOf(bs[..n], j, r) { RecordOfPrefix(bs, n, j, r); }
      if j :| 0 <= j < |bs| && bs[j].config.Some? && RecordOf(bs, j, r) {
        if j < n {
          RecordOfPrefix(bs, n, j, r);
          assert bs[..n][j].config.Some?;
        }
      }
    }
  }

  /** p is the latest other backup of the table that started before b. */
  ghost predicate LatestBefore(table: seq<Snapshot>, b: Snapshot, p: Snapshot) {
    && p in table && p.id != b.id && p.at < b.at
    && forall q | q in table && q.id != b.id && q.at < b.at :: q.at <= p.at
  }

  lemma {:induction false} PreviousMeans(table: seq<Snapshot>, b: Snapshot)
    ensures match Previous(table, b)
      case Some(p) => LatestBefore(table, b, p)
      case None => forall q | q in table :: q.id == b.id || q.at >= b.at
  {
    if table != [] {
      var n := |table| - 1;
      PreviousMeans(table[..n], b);
      assert table == table[..n] + [table[n]];
    }
  }

  /** What an arrival records: its own id and time, and either the events since the latest other
      backup before it, whose id it names, or, when it is the only backup, its seed. */
  lemma IngestMeans(table: seq<Snapshot>, b: Snapshot, r: Record)
    requires forall p, q | p in table && q in table && p.at == q.at :: p == q
    ensures r in Ingest(table, b) <==>
      && b.config.Some? && r.backupId == b.id && r.at == b.at
      && match r.prevId
         case None => (forall q | q in table :: q.id == b.id) && r.event in Seed(b.config.value)
         case Some(id) => exists p ::
           && LatestBefore(table, b, p) && p.id == id
           && p.config.Some? && r.event in Project(p.config.value, b.config.value)
  {
    hide Seed; hide Project; hide Recorded; hide Previous;
    PreviousMeans(table, b);
    if b.config.Some? {
      var cfg := b.config.value;
      match Previous(table, b) {
        case Some(p) =>
          if p.config.Some? { RecordedMember(b, Some(p.id), Project(p.config.value, cfg), r); }
        case None => RecordedMember(b, None, Seed(cfg), r);
      }
    }
  }

  // ---- the log against the snapshots ----

  function Readable(bs: seq<Snapshot>): seq<Config> {
    if bs == [] then []
    else Readable(bs[..|bs| - 1]) + if bs[|bs| - 1].config.Some? then [bs[|bs| - 1].config.value] else []
  }

  function EventsOf(log: seq<Record>): seq<Event> { seq(|log|, i requires 0 <= i < |log| => log[i].event) }

  lemma {:induction false} ReplayConcat(m: Index, es: seq<Event>, fs: seq<Event>)
    ensures Replay(m, es + fs) == Replay(Replay(m, es), fs)
  {
    if fs == [] {
      assert es + fs == es;
    } else {
      assert (es + fs)[..|es + fs| - 1] == es + fs[..|fs| - 1];
      ReplayConcat(m, es, fs[..|fs| - 1]);
    }
  }

  lemma {:induction false} LastReadableConfig(bs: seq<Snapshot>)
    ensures LastReadable(bs) == None <==> Readable(bs) == []
    ensures LastReadable(bs).Some? ==>
      LastReadable(bs).value.config.Some? && LastReadable(bs).value.config.value == Readable(bs)[|Readable(bs)| - 1]
  {
    if bs != [] { LastReadableConfig(bs[..|bs| - 1]); }
  }

  lemma {:induction false} IndexAfterPrefix(chain: seq<Config>, cfg: Config, i: nat)
    requires i < |chain|
    ensures IndexAfter(chain + [cfg], i) == IndexAfter(chain, i)
  {
    hide Seed;
    hide Project;
    hide Replay;
    if i > 0 { IndexAfterPrefix(chain, cfg, i - 1); }
  }

  lemma EventsOfConcat(x: seq<Record>, y: seq<Record>)
    ensures EventsOf(x + y) == EventsOf(x) + EventsOf(y)
  {}

  lemma LogStep(bs: seq<Snapshot>)
    requires bs != []
    ensures LastReadable(bs[..|bs| - 1]).Some? ==> LastReadable(bs[..|bs| - 1]).value.config.Some?
    ensures Replay(map[], EventsOf(LogOf(bs))) ==
            Replay(Replay(map[], EventsOf(LogOf(bs[..|bs| - 1]))),
                EventsOf(StepRecords(LastReadable(bs[..|bs| - 1]), bs[|bs| - 1])))
  {
    hide Replay;
    hide StepRecords;
    hide EventsOf;
    var n := |bs| - 1;
    LastReadableReads(bs[..n]);
    var step := StepRecords(LastReadable(bs[..n]), bs[n]);
    EventsOfConcat(LogOf(bs[..n]), step);
    ReplayConcat(map[], EventsOf(LogOf(bs[..n])), EventsOf(step));
  }

  lemma RecordedEvents(b: Snapshot, prevId: Option<int>, es: seq<Event>)
    ensures EventsOf(Recorded(b, prevId, es)) == es
  {}

  lemma ChainExtended(chain: seq<Config>, cfg: Config)
    ensures IndexAfter(chain + [cfg], |chain|) ==
            if chain == [] then Replay(map[], Seed(cfg))
            else Replay(IndexAfter(chain, |chain| - 1), Project(chain[|chain| - 1], cfg))
  {
    hide Seed;
    hide Project;
    hide Replay;
    if chain != [] { IndexAfterPrefix(chain, cfg, |chain| - 1); }
  }

  lemma StepEvents(bs: seq<Snapshot>, b: Snapshot)
    ensures LastReadable(bs).Some? ==> LastReadable(bs).value.config.Some?
    ensures EventsOf(StepRecords(LastReadable(bs), b)) ==
            if b.config == None then []
            else if Readable(bs) == [] then Seed(b.config.value)
            else Project(Readable(bs)[|Readable(bs)| - 1], b.config.value)
  {
    hide Seed;
    hide Project;
    LastReadableConfig(bs);
    if b.config.Some? {
      if Readable(bs) == [] {
        RecordedEvents(b, None, Seed(b.config.value));
      } else {
        var p := LastReadable(bs).value;
        RecordedEvents(b, Some(p.id), Project(p.config.value, b.config.value));
      }
    }
  }

  lemma EmptyLog()
    ensures Replay(map[], EventsOf(LogOf([]))) == map[]
  {}

  lemma ReplayNothing(m: Index)
    ensures Replay(m, []) == m
  {}

  /** Replaying the records of a history is replaying the chain of its readable snapshots. */
  lemma {:induction false} LogReplaysChain(bs: seq<Snapshot>)
    ensures Replay(map[], EventsOf(LogOf(bs))) ==
            if Readable(bs) == [] then map[] else IndexAfter(Readable(bs), |Readable(bs)| - 1)
  {
    hide Seed; hide Project; hide IndexAfter; hide StepRecords; hide Replay; hide EventsOf; hide LogOf;
    hide LastReadable;
    if bs == [] {
      EmptyLog();
    } else {
      var n := |bs| - 1;
      LogReplaysChain(bs[..n]);
      LogStep(bs);
      StepEvents(bs[..n], bs[n]);
      if bs[n].config.Some? {
        ChainExtended(Readable(bs[..n]), bs[n].config.value);
      } else {
        ReplayNothing(Replay(map[], EventsOf(LogOf(bs[..n]))));
        assert Readable(bs[..n]) + [] == Readable(bs[..n]);
      }
    }
  }

  /** After every history, unreadable backups included, the index built from the log agrees at an
      anchor with re-reading the latest readable snapshot, if the steps were good at that anchor. */
  lemma IndexAgreesAt(bs: seq<Snapshot>, x: Anchor)
    requires GoodChainAt(Readable(bs), x) && Readable(bs) != []
    ensures Lookup(Replay(map[], EventsOf(LogOf(bs))), x) == ValueAt(Readable(bs)[|Readable(bs)| - 1], x)
  {
    hide GoodChainAt; hide ValueAt; hide IndexAfter; hide Replay; hide EventsOf; hide LogOf;
    LogReplaysChain(bs);
    ReplayAtAnchor(Readable(bs), |Readable(bs)| - 1, x);
  }

  /** And everywhere, if they were good everywhere. */
  lemma IndexAgreesWithSnapshots(bs: seq<Snapshot>)
    requires GoodChain(Readable(bs)) && Readable(bs) != []
    ensures Shows(Replay(map[], EventsOf(LogOf(bs))), Readable(bs)[|Readable(bs)| - 1])
  {
    hide Shows;
    LogReplaysChain(bs);
    ReplayGivesEverySnapshot(Readable(bs), |Readable(bs)| - 1);
  }

  // ---- the projector's loops ----

  /** The row-section body of `diff_to_anchor_events`: yield added and removed rows, fill
      by_diff_key once, then look the changed and the moved rows up in it. */
  method ProjectSection(spec: RowSpec, d: SectionDiff, after: seq<Dict>) returns (out: seq<Event>)
    ensures out == ProjectRows(spec, d, after)
  {
    var added := EmitRows(spec, d.added, Added);
    var removed := EmitRows(spec, d.removed, Removed);
    var table: map<string, Dict> := map[];
    for i := 0 to |after|
      invariant table == ByKey(KeyedRows(spec, after[..i]), DiffKey(spec))
    {
      var k := Get(after[i], spec.diffField);
      KeyedRowsSnoc(spec, after, i);
      if k != Null {
        table := table[KeyText(k) := after[i]];
      }
    }
    assert after[..|after|] == after;
    var modified := EmitLookups(spec, table, ItemKeys(d.modified), Modified);
    var moved := EmitLookups(spec, table, ReorderKeys(d.reordered), Reordered);
    out := added + removed + modified + moved;
  }

  lemma KeyedRowsSnoc(spec: RowSpec, rows: seq<Dict>, i: nat)
    requires i < |rows|
    ensures var t := ByKey(KeyedRows(spec, rows[..i]), DiffKey(spec));
      ByKey(KeyedRows(spec, rows[..i + 1]), DiffKey(spec)) ==
      if Get(rows[i], spec.diffField) == Null then t else t[DiffKey(spec)(rows[i]) := rows[i]]
  {
    assert rows[..i + 1][..i] == rows[..i];
    KeyedTableStep(spec, rows[..i + 1]);
  }

  method EmitRows(spec: RowSpec, rows: seq<Dict>, kind: Kind) returns (out: seq<Event>)
    ensures out == RowEvents(spec, rows, kind)
  {
    out := [];
    for i := 0 to |rows|
      invariant out == RowEvents(spec, rows[..i], kind)
    {
      assert rows[..i + 1][..i] == rows[..i];
      var x := AnchorOf(spec, rows[i]);
      if x.Some? {
        out := out + [Event(x.value, kind, Obj(rows[i]))];
      }
    }
    assert rows[..|rows|] == rows;
  }

  method EmitLookups(spec: RowSpec, table: map<string, Dict>, keys: seq<string>, kind: Kind) returns (out: seq<Event>)
    ensures out == RowEvents(spec, Lookups(table, keys), kind)
  {
    out := [];
    for i := 0 to |keys|
      invariant out == RowEvents(spec, Lookups(table, keys[..i]), kind)
    {
      var init := Lookups(table, keys[..i]);
      assert keys[..i + 1][..i] == keys[..i] && init + [] == init;
      if keys[i] in table {
        assert (init + [table[keys[i]]])[..|init|] == init;
        var x := AnchorOf(spec, table[keys[i]]);
        if x.Some? {
          out := out + [Event(x.value, kind, Obj(table[keys[i]]))];
        }
      }
    }
    assert keys[..|keys|] == keys;
  }
}
