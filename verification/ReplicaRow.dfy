/** The replica state of one backup row over its whole life: attempts, backoff, alerts. */
module ReplicaRow {
  import opened Basics

  datatype Status = Absent | Pending | Done | Failed | Skipped

  datatype Row = Row(status: Status, key: Option<string>, digest: Option<string>, attempts: nat, at: Option<int>,
      local: bool)

  /** How one upload attempt ends: verified, the file is missing, or anything raised. */
  datatype Outcome = Uploaded(key: string, digest: string) | FileMissing | Raised

  const MAX_ATTEMPTS := 8
  const ALERT_AFTER := 3
  const MINUTE := 60_000_000
  const BACKOFF_BASE := 10 * MINUTE
  const BACKOFF_CAP := 24 * 60 * MINUTE

  const FRESH := Row(Absent, None, None, 0, None, true)

  function Pow2(n: nat): (r: nat)
    ensures r >= 1
  {
    if n == 0 then 1 else 2 * Pow2(n - 1)
  }

  function Backoff(attempts: nat): int {
    var wait := BACKOFF_BASE * Pow2(if attempts > 1 then attempts - 1 else 0);
    if wait < BACKOFF_CAP then wait else BACKOFF_CAP
  }

  /** `_attempt_due` */
  predicate AttemptDue(attempts: nat, last: Option<int>, now: int) {
    last.None? || now - last.value >= Backoff(attempts)
  }

  /** The row `replicate_backup` commits; mark is the time of that commit. */
  function Attempted(row: Row, mark: int, o: Outcome): Row {
    if !row.local || o.Raised? then row.(status := Failed, at := Some(mark), attempts := row.attempts + 1)
    else if o.FileMissing? then row.(status := Skipped, at := Some(mark))
    else row.(status := Done, at := Some(mark), key := Some(o.key), digest := Some(o.digest))
  }

  /** Every attempt is dated and leaves the local file alone; a failed one is counted, a skipped one is
      not, and key and digest change only when a copy was verified. */
  lemma AttemptedMeans(row: Row, mark: int, o: Outcome)
    ensures var after := Attempted(row, mark, o);
      && after.at == Some(mark) && after.local == row.local
      && (after.status == Done <==> row.local && o.Uploaded?)
      && (after.status == Skipped <==> row.local && o.FileMissing?)
      && (after.status == Failed <==> !row.local || o.Raised?)
      && after.attempts == row.attempts + (if after.status == Failed then 1 else 0)
      && (after.status == Done ==> after.key == Some(o.key) && after.digest == Some(o.digest))
      && (after.status != Done ==> after.key == row.key && after.digest == row.digest)
  {}

  predicate Succeeds(row: Row, o: Outcome) { row.local && o.Uploaded? }

  /** The rows a sweep selects. */
  predicate Eligible(row: Row) {
    (row.status == Pending || row.status == Failed) && row.attempts < MAX_ATTEMPTS && row.local
  }

  // ---- life of a row ----

  datatype Event =
    | NewUpload(mark: int, outcome: Outcome)           // after the backup: pending, then one attempt
    | MarkPending                                      // the same, cut off before the attempt; or a backfill
    | Sweep(now: int, mark: int, outcome: Outcome)
    | Flag                                             // verify found the replica missing or corrupt
    | KeepOffsite                                      // retention dropped the local copy
    | Retrieve                                         // the local copy is back
    | Delete                                           // by retention or by the user

  /** The row, the commit times of its counted failures, the alerts sent about it, and whether the
      row has been deleted. */
  datatype History = History(row: Row, failures: seq<int>, alerts: nat, deleted: bool)

  const BIRTH := History(FRESH, [], 0, false)

  predicate CanHappen(h: History, e: Event) {
    !h.deleted &&
    match e
    case NewUpload(_, _) => h.row.status == Absent
    case MarkPending => h.row.status == Absent
    case Sweep(now, mark, _) => Eligible(h.row) && AttemptDue(h.row.attempts, h.row.at, now) && now <= mark
    case Flag => h.row.status == Done
    case KeepOffsite => h.row.local && h.row.status == Done && h.row.key.Some?
    case Retrieve => !h.row.local && h.row.status == Done && h.row.key.Some?
    case Delete => true
  }

  function Attempt(h: History, mark: int, o: Outcome): History {
    var row := Attempted(h.row, mark, o);
    History(row, if row.status == Failed then h.failures + [mark] else h.failures, h.alerts, h.deleted)
  }

  function After(h: History, e: Event): History
    requires CanHappen(h, e)
  {
    match e
    case NewUpload(mark, o) => Attempt(h.(row := h.row.(status := Pending)), mark, o)
    case MarkPending => h.(row := h.row.(status := Pending))
    case Sweep(_, mark, o) =>
      var h1 := Attempt(h, mark, o);
      if !Succeeds(h.row, o) && h.row.attempts + 1 == ALERT_AFTER then h1.(alerts := h1.alerts + 1) else h1
    case Flag => h.(row := h.row.(status := Failed))
    case KeepOffsite => h.(row := h.row.(local := false))
    case Retrieve => h.(row := h.row.(local := true))
    case Delete => h.(deleted := true)
  }

  ghost predicate Life(events: seq<Event>, h: History) {
    if events == [] then h == BIRTH
    else
      var n := |events| - 1;
      exists before :: Life(events[..n], before) && CanHappen(before, events[n]) && h == After(before, events[n])
  }

  // ---- what every life keeps ----

  /** A replicated row and an off-site-only row always say where the copy is and what it hashes to. */
  predicate ReplicaKnown(row: Row) { row.status == Done || !row.local ==> row.key.Some? && row.digest.Some? }

  ghost predicate Spaced(failures: seq<int>) {
    forall i {:trigger failures[i]} | 0 < i < |failures| :: failures[i] - failures[i - 1] >= Backoff(i)
  }

  /** Exactly one alert from the third counted failure on; none before, unless the file was found
      missing at the attempt that would have been the third. */
  predicate AlertedOnce(h: History) {
    && h.alerts <= 1
    && (h.row.attempts >= ALERT_AFTER ==> h.alerts == 1)
    && (h.alerts == 1 ==>
          h.row.attempts >= ALERT_AFTER || (h.row.status == Skipped && h.row.attempts == ALERT_AFTER - 1))
  }

  ghost predicate Inv(h: History) {
    && ReplicaKnown(h.row) && (h.row.key.Some? <==> h.row.digest.Some?)
    && h.row.attempts == |h.failures| <= MAX_ATTEMPTS
    && (h.failures != [] ==> h.row.at.Some? && h.row.at.value >= h.failures[|h.failures| - 1])
    && Spaced(h.failures)
    && AlertedOnce(h)
    && (h.row.status == Absent ==> h.row == FRESH && h.alerts == 0)
  }

  lemma BackoffPositive(a: nat)
    ensures Backoff(a) > 0
  {}

  lemma SweepKeepsInv(h: History, now: int, mark: int, o: Outcome)
    requires Inv(h) && CanHappen(h, Sweep(now, mark, o))
    ensures Inv(After(h, Sweep(now, mark, o)))
  {
    hide Backoff; hide Spaced;
    BackoffPositive(h.row.attempts);
    SpacedMore(h.failures, mark, h.row.at);
  }

  lemma NewUploadKeepsInv(h: History, mark: int, o: Outcome)
    requires Inv(h) && CanHappen(h, NewUpload(mark, o))
    ensures Inv(After(h, NewUpload(mark, o)))
  {
    hide Backoff; hide Spaced;
    SpacedMore(h.failures, mark, h.row.at);
  }

  lemma StepKeepsInv(h: History, e: Event)
    requires Inv(h) && CanHappen(h, e)
    ensures Inv(After(h, e))
  {
    hide Backoff; hide Spaced; hide Attempt;
    match e
    case Sweep(now, mark, o) => SweepKeepsInv(h, now, mark, o);
    case NewUpload(mark, o) => NewUploadKeepsInv(h, mark, o);
    case _ =>
  }

  lemma SpacedMore(failures: seq<int>, mark: int, at: Option<int>)
    requires Spaced(failures)
    ensures
      || failures == []
      || (at.Some? && at.value >= failures[|failures| - 1] && mark - at.value >= Backoff(|failures|))
      ==> Spaced(failures + [mark])
  {}

  lemma {:induction false} LifeKeepsInv(events: seq<Event>, h: History)
    requires Life(events, h)
    ensures Inv(h)
  {
    hide Inv;
    if events == [] {
      BirthInv();
    } else {
      var n := |events| - 1;
      var before :| Life(events[..n], before) && CanHappen(before, events[n]) && h == After(before, events[n]);
      LifeKeepsInv(events[..n], before);
      StepKeepsInv(before, events[n]);
    }
  }

  lemma BirthInv()
    ensures Inv(BIRTH)
  {}

  /** Over its whole life a row counts at most eight attempts, raises one alert when the third
      fails and none otherwise, and a replicated or off-site-only row always has a key and a digest. */
  lemma {:induction false} RetryBounds(events: seq<Event>, h: History)
    requires Life(events, h)
    ensures h.row.attempts == |h.failures| <= 8
    ensures h.alerts <= 1 && (|h.failures| >= 3 ==> h.alerts == 1)
    ensures h.alerts == 1 ==> |h.failures| >= 3 || (h.row.status == Skipped && |h.failures| == 2)
    ensures h.row.status == Done || !h.row.local ==> h.row.key.Some? && h.row.digest.Some?
  {
    LifeKeepsInv(events, h);
  }

  /** The cap of a day is never reached while attempts are still made. */
  lemma CapNeverBinds(attempts: nat)
    requires 1 <= attempts <= 8
    ensures Backoff(attempts) == [10, 20, 40, 80, 160, 320, 640, 1280][attempts - 1] * 60_000_000 < 86_400_000_000
  {
    Powers();
  }

  /** When a sweep takes up a row: pending or failed, its file there, fewer than eight attempts, and
      since the last one at least 10, 10, 20, 40, 80, 160, 320 or 640 minutes by the number of attempts. */
  lemma SweptIff(h: History, now: int, mark: int, o: Outcome)
    requires now <= mark && !h.deleted
    ensures CanHappen(h, Sweep(now, mark, o)) <==>
      && (h.row.status == Pending || h.row.status == Failed) && h.row.local && h.row.attempts <= 7
      && (h.row.at == None
          || now >= h.row.at.value + [10, 10, 20, 40, 80, 160, 320, 640][h.row.attempts] * 60_000_000)
  {
    Powers();
    if h.row.attempts <= 7 { WaitIs(h.row.attempts); }
  }

  lemma WaitIs(attempts: nat)
    requires attempts <= 7
    ensures Backoff(attempts) == [10, 10, 20, 40, 80, 160, 320, 640][attempts] * 60_000_000
  {
    Powers();
  }

  lemma Powers()
    ensures Pow2(0) == 1 && Pow2(1) == 2 && Pow2(2) == 4 && Pow2(3) == 8 && Pow2(4) == 16 && Pow2(5) == 32
    ensures Pow2(6) == 64 && Pow2(7) == 128
  {
    assert Pow2(3) == 8;
    assert Pow2(6) == 64;
  }

  /** The eighth counted failure comes at least 1270 minutes after the first. */
  lemma EighthFailureIsLate(events: seq<Event>, h: History)
    requires Life(events, h) && |h.failures| == 8
    ensures h.failures[7] - h.failures[0] >= 1270 * 60_000_000
  {
    LifeKeepsInv(events, h);
    var f := h.failures;
    Powers();
    CapNeverBinds(1);
    CapNeverBinds(2);
    CapNeverBinds(3);
    CapNeverBinds(4);
    CapNeverBinds(5);
    CapNeverBinds(6);
    CapNeverBinds(7);
    hide Backoff;
    assert f[1] - f[0] >= Backoff(1) && f[2] - f[1] >= Backoff(2) && f[3] - f[2] >= Backoff(3);
    assert f[4] - f[3] >= Backoff(4);
    assert f[5] - f[4] >= Backoff(5) && f[6] - f[5] >= Backoff(6) && f[7] - f[6] >= Backoff(7);
  }

  // ---- dead ends ----

  /** The row stays as it is until it is deleted. */
  ghost predicate Stuck(h: History) { !h.deleted && forall e :: CanHappen(h, e) ==> e == Delete }

  /** Where nothing but deletion is left: a skipped row, and a failed or pending one without a
      local file or without attempts left. */
  predicate DeadEnd(row: Row) {
    || row.status == Skipped
    || ((row.status == Failed || row.status == Pending) && (!row.local || row.attempts >= MAX_ATTEMPTS))
  }

  /** An event that can happen to a row that is not at a dead end. */
  function NextEvent(row: Row): Event {
    match row.status
    case Absent => MarkPending
    case Done => Flag
    case _ =>
      var now := if row.at.Some? then row.at.value + Backoff(row.attempts) else 0;
      Sweep(now, now, Raised)
  }

  /** The dead ends are exactly the rows that stay as they are until deleted. */
  lemma StuckIffDeadEnd(h: History)
    requires !h.deleted
    ensures Stuck(h) <==> DeadEnd(h.row)
  {
    if !DeadEnd(h.row) { assert CanHappen(h, NextEvent(h.row)); }
  }

  lemma LifeExtends(events: seq<Event>, h: History, e: Event)
    requires Life(events, h) && CanHappen(h, e)
    ensures Life(events + [e], After(h, e))
  {
    var longer := events + [e];
    assert longer[..|longer| - 1] == events;
  }

  lemma LifeBegins()
    ensures Life([], BIRTH)
  {}

  /** A life that ends off-site only with a flagged replica: uploaded, its local copy dropped by
      retention, found missing or corrupt by verification. It can be neither swept nor retrieved. */
  lemma FlaggedOffsiteIsStuck(mark: int, key: string, digest: string) returns (events: seq<Event>, h: History)
    ensures Life(events, h) && !h.row.local && h.row.status == Failed && Stuck(h)
    ensures h.row.key == Some(key) && h.row.digest == Some(digest) && h.row.attempts == 0
  {
    hide Life;
    LifeBegins();
    var upload := NewUpload(mark, Uploaded(key, digest));
    LifeExtends([], BIRTH, upload);
    h := After(BIRTH, upload);
    LifeExtends([] + [upload], h, KeepOffsite);
    h := After(h, KeepOffsite);
    LifeExtends([] + [upload] + [KeepOffsite], h, Flag);
    h := After(h, Flag);
    events := [] + [upload] + [KeepOffsite] + [Flag];
    StuckIffDeadEnd(h);
  }

  /** A life that ends skipped at its first attempt, and stays so when the file comes back. */
  lemma MissingFileIsStuck(mark: int) returns (events: seq<Event>, h: History)
    ensures Life(events, h) && h.row.status == Skipped && h.row.local && h.row.attempts == 0 && Stuck(h)
  {
    hide Life;
    LifeBegins();
    LifeExtends([], BIRTH, NewUpload(mark, FileMissing));
    events, h := [] + [NewUpload(mark, FileMissing)], After(BIRTH, NewUpload(mark, FileMissing));
    StuckIffDeadEnd(h);
  }

  /** A row that keeps failing ends with its attempts used up, its file still there. */
  lemma {:induction false} FailsToTheEnd(events: seq<Event>, h: History) returns (events1: seq<Event>, h1: History)
    requires Life(events, h) && (h.row.status == Pending || h.row.status == Failed) && h.row.local
    requires h.row.attempts <= MAX_ATTEMPTS && !h.deleted
    ensures Life(events1, h1) && h1.row.status in {Pending, Failed} && h1.row.local
    ensures h1.row.attempts == MAX_ATTEMPTS && Stuck(h1)
    decreases MAX_ATTEMPTS - h.row.attempts
  {
    hide Life;
    if h.row.attempts == MAX_ATTEMPTS {
      events1, h1 := events, h;
      StuckIffDeadEnd(h);
    } else {
      var e := NextEvent(h.row);
      LifeExtends(events, h, e);
      events1, h1 := FailsToTheEnd(events + [e], After(h, e));
    }
  }

  lemma ExhaustedIsStuck() returns (events: seq<Event>, h: History)
    ensures Life(events, h) && h.row.local && h.row.attempts == MAX_ATTEMPTS && Stuck(h)
  {
    hide Life;
    LifeBegins();
    LifeExtends([], BIRTH, MarkPending);
    events, h := FailsToTheEnd([] + [MarkPending], After(BIRTH, MarkPending));
  }
}
