/** Bulk re-encryption: the recorded password and the file move together. Child processes stage
    files, the parent commits passwords and swaps files; steps of different tasks interleave
    in any order, and the run may stop between any two of them. */
module Reencrypt {
  import opened Basics
  import opened Base64
  import opened Wrapper
  import opened ReplicaPayload

  datatype Task = Task(path: string, compressed: bool, oldPassword: string)

  datatype Phase =
    | Todo        // not staged yet
    | Refused     // the child reported an error or crashed
    | Staged      // path.new written
    | Committed   // the row has the new password
    | Undoing     // replacing failed, the row still has the new password
    | Moved       // success
    | Kept        // failure, the old password is recorded
    | Stranded    // failure, and the compensating commit failed too

  /** Tools and tasks of one run; tasks are numbered by backup id. */
  datatype Job = Job(suite: Suite, zip: Zip, newPassword: string, tasks: map<int, Task>)

  /** The encrypt_password column, the file system, and the parent's progress and counters. */
  datatype State = State(password: map<int, string>, files: map<string, Bytes>, phase: map<int, Phase>, success: nat,
      failures: nat)

  datatype Move =
    | Stage(salt: Bytes)
    | StageFails(leftover: Option<Bytes>)
    | Commit
    | CommitFails(unlinked: bool)
    | Replace
    | ReplaceFails(unlinked: bool)
    | Compensate(ok: bool)
    | CountRefusal

  function NewPath(path: string): string { path + ".new" }

  /** What a file holds for someone with the password. */
  function Reads(job: Job, files: map<string, Bytes>, path: string, compressed: bool, password: string): Option<Bytes> {
    if path !in files then None
    else
      match Content(job.zip, files[path], compressed)
      case None => None
      case Some(blob) =>
        match Decrypt(job.suite, blob, password)
        case Ok(x) => Some(x)
        case Err(_) => None
  }

  function ReadsOld(job: Job, s: State, id: int): Option<Bytes>
    requires id in job.tasks
  {
    Reads(job, s.files, job.tasks[id].path, job.tasks[id].compressed, job.tasks[id].oldPassword)
  }

  /** The child's output: decrypted, encrypted under the new password, in the same shape. */
  function Rewritten(job: Job, t: Task, x: Bytes, salt: Bytes): Bytes {
    var blob := Encrypt(job.suite, x, job.newPassword, salt);
    if t.compressed then job.zip.compress(blob) else blob
  }

  predicate Enabled(job: Job, s: State, id: int, m: Move) {
    id in job.tasks && id in s.phase && id in s.password &&
    match m
    case Stage(salt) => s.phase[id] == Todo && |salt| == SALT_BYTES && ReadsOld(job, s, id).Some?
    case StageFails(_) => s.phase[id] == Todo
    case Commit => s.phase[id] == Staged
    case CommitFails(_) => s.phase[id] == Staged
    case Replace => s.phase[id] == Committed && NewPath(job.tasks[id].path) in s.files
    case ReplaceFails(_) => s.phase[id] == Committed
    case Compensate(_) => s.phase[id] == Undoing
    case CountRefusal => s.phase[id] == Refused
  }

  function DropIf(files: map<string, Bytes>, path: string, drop: bool): map<string, Bytes>
  {
    if drop then files - {path} else files
  }

  function NextPhase(m: Move): Phase {
    match m
    case Stage(_) => Staged
    case StageFails(_) => Refused
    case Commit => Committed
    case CommitFails(_) => Kept
    case Replace => Moved
    case ReplaceFails(_) => Undoing
    case Compensate(ok) => if ok then Kept else Stranded
    case CountRefusal => Kept
  }

  function NextFiles(job: Job, s: State, t: Task, x: Bytes, m: Move): map<string, Bytes> {
    var staged := NewPath(t.path);
    match m
    case Stage(salt) => s.files[staged := Rewritten(job, t, x, salt)]
    case StageFails(leftover) => if leftover.Some? then s.files[staged := leftover.value] else s.files
    case CommitFails(unlinked) => DropIf(s.files, staged, unlinked)
    case Replace => if staged in s.files then s.files[t.path := s.files[staged]] - {staged} else s.files
    case ReplaceFails(unlinked) => DropIf(s.files, staged, unlinked)
    case _ => s.files
  }

  function NextPassword(job: Job, t: Task, was: string, m: Move): string {
    match m
    case Commit => job.newPassword
    case Compensate(ok) => if ok then t.oldPassword else was
    case _ => was
  }

  function Do(job: Job, s: State, id: int, m: Move): State
    requires Enabled(job, s, id, m)
  {
    var t := job.tasks[id];
    var x := if ReadsOld(job, s, id).Some? then ReadsOld(job, s, id).value else [];
    State(
      s.password[id := NextPassword(job, t, s.password[id], m)],
      NextFiles(job, s, t, x, m),
      s.phase[id := NextPhase(m)],
      if m.Replace? then s.success + 1 else s.success,
      if m.CommitFails? || m.Compensate? || m.CountRefusal? then s.failures + 1 else s.failures)
  }

  // ---- the invariant ----

  ghost predicate WellFormed(job: Job) {
    && Lawful(job.suite) && Inverse(job.zip)
    && (forall i, j | i in job.tasks && j in job.tasks && i != j :: job.tasks[i].path != job.tasks[j].path)
    && (forall i, j | i in job.tasks && j in job.tasks :: job.tasks[i].path != NewPath(job.tasks[j].path))
  }

  function ReadsNew(job: Job, s: State, id: int, path: string): Option<Bytes>
    requires id in job.tasks
  {
    Reads(job, s.files, path, job.tasks[id].compressed, job.newPassword)
  }

  /** The staged file, unless it has been unlinked. */
  ghost predicate StagedIfThere(job: Job, s: State, id: int, x: Option<Bytes>)
    requires id in job.tasks
  {
    NewPath(job.tasks[id].path) in s.files ==> ReadsNew(job, s, id, NewPath(job.tasks[id].path)) == x
  }

  /** What holds of one task in each phase; x is what its file held at the start. */
  ghost predicate TaskInv(job: Job, s: State, id: int, x: Option<Bytes>)
    requires id in job.tasks
  {
    id in s.phase && id in s.password &&
    var t := job.tasks[id];
    match s.phase[id]
    case Staged =>
      && s.password[id] == t.oldPassword && ReadsOld(job, s, id) == x && x.Some?
      && ReadsNew(job, s, id, NewPath(t.path)) == x
    case Committed =>
      && s.password[id] == job.newPassword && ReadsOld(job, s, id) == x && x.Some?
      && ReadsNew(job, s, id, NewPath(t.path)) == x
    case Undoing =>
      && s.password[id] == job.newPassword && ReadsOld(job, s, id) == x && x.Some?
      && StagedIfThere(job, s, id, x)
    case Stranded =>
      && s.password[id] == job.newPassword && ReadsOld(job, s, id) == x && x.Some?
      && StagedIfThere(job, s, id, x)
    case Moved => s.password[id] == job.newPassword && ReadsNew(job, s, id, t.path) == x && x.Some?
    case _ => s.password[id] == t.oldPassword && ReadsOld(job, s, id) == x
  }

  ghost predicate FailedPhase(p: Phase) { p == Kept || p == Stranded }

  ghost predicate HasMoved(s: State, id: int) { id in s.phase && s.phase[id] == Moved }

  ghost predicate HasFailed(s: State, id: int) { id in s.phase && FailedPhase(s.phase[id]) }

  ghost function MovedTasks(job: Job, s: State): set<int> { set id | id in job.tasks && HasMoved(s, id) }

  ghost function FailedTasks(job: Job, s: State): set<int> { set id | id in job.tasks && HasFailed(s, id) }

  ghost predicate Inv(job: Job, s: State, was: map<int, Option<Bytes>>) {
    && was.Keys == job.tasks.Keys
    && (forall id | id in job.tasks :: TaskInv(job, s, id, was[id]))
    && s.success == |MovedTasks(job, s)| && s.failures == |FailedTasks(job, s)|
  }

  // ---- one step ----

  /** The file the child stages opens under the new password with the same content. */
  lemma StagedReads(job: Job, t: Task, x: Bytes, salt: Bytes, files: map<string, Bytes>)
    requires Lawful(job.suite) && Inverse(job.zip) && |salt| == SALT_BYTES && Plausible(x)
    ensures Reads(job, files[NewPath(t.path) := Rewritten(job, t, x, salt)], NewPath(t.path), t.compressed,
        job.newPassword) == Some(x)
  {
    hide Decrypt; hide Encrypt; hide Plausible; hide Lawful;
    DecryptEncrypt(job.suite, x, job.newPassword, salt);
  }

  lemma ReadIsPlausible(job: Job, files: map<string, Bytes>, path: string, compressed: bool, password: string)
    requires Reads(job, files, path, compressed, password).Some?
    ensures Plausible(Reads(job, files, path, compressed, password).value)
  {
    hide Plausible;
  }

  /** Reading only depends on the one file. */
  lemma ReadsSame(job: Job, a: map<string, Bytes>, b: map<string, Bytes>, path: string, compressed: bool,
      password: string)
    requires path in a <==> path in b
    requires path in a ==> a[path] == b[path]
    ensures Reads(job, a, path, compressed, password) == Reads(job, b, path, compressed, password)
  {}

  /** A step of one task leaves the files of the others alone. */
  lemma OtherTask(job: Job, s: State, id: int, m: Move, other: int, x: Option<Bytes>)
    requires WellFormed(job) && Enabled(job, s, id, m) && other in job.tasks && other != id && TaskInv(job, s, other, x)
    ensures TaskInv(job, Do(job, s, id, m), other, x)
  {
    hide Decrypt; hide Encrypt; hide Lawful; hide Inverse; hide Reads; hide Rewritten; hide NextFiles;
    hide NextPassword;
    var s1 := Do(job, s, id, m);
    var t, o := job.tasks[id], job.tasks[other];
    assert NewPath(t.path) != NewPath(o.path) by { NewPathInjective(t.path, o.path); }
    var x1 := if ReadsOld(job, s, id).Some? then ReadsOld(job, s, id).value else [];
    FilesElsewhere(job, s, t, x1, m, o.path);
    FilesElsewhere(job, s, t, x1, m, NewPath(o.path));
    ReadsSame(job, s.files, s1.files, o.path, o.compressed, o.oldPassword);
    ReadsSame(job, s.files, s1.files, o.path, o.compressed, job.newPassword);
    ReadsSame(job, s.files, s1.files, NewPath(o.path), o.compressed, job.newPassword);
  }

  lemma FilesElsewhere(job: Job, s: State, t: Task, x: Bytes, m: Move, path: string)
    requires path != t.path && path != NewPath(t.path)
    ensures path in NextFiles(job, s, t, x, m) <==> path in s.files
    ensures path in s.files ==> NextFiles(job, s, t, x, m)[path] == s.files[path]
  {
    hide Rewritten; hide NewPath;
  }

  lemma NewPathInjective(a: string, b: string)
    ensures NewPath(a) == NewPath(b) ==> a == b
  {
    if NewPath(a) == NewPath(b) { assert NewPath(a)[..|a|] == a && NewPath(b)[..|b|] == b; }
  }

  lemma NewPathDiffers(a: string)
    ensures NewPath(a) != a
  {
    assert |NewPath(a)| == |a| + 4;
  }

  lemma OwnTask(job: Job, s: State, id: int, m: Move, x: Option<Bytes>)
    requires WellFormed(job) && Enabled(job, s, id, m) && TaskInv(job, s, id, x)
    ensures TaskInv(job, Do(job, s, id, m), id, x)
  {
    hide Decrypt; hide Encrypt; hide Lawful; hide Inverse; hide Reads; hide Rewritten; hide Plausible;
    var s1 := Do(job, s, id, m);
    var t := job.tasks[id];
    NewPathDiffers(t.path);
    if !m.Replace? { ReadsSame(job, s.files, s1.files, t.path, t.compressed, t.oldPassword); }
    match m
    case Stage(salt) =>
      ReadIsPlausible(job, s.files, t.path, t.compressed, t.oldPassword);
      StagedReads(job, t, x.value, salt, s.files);
    case Replace => ReadsMoved(job, s.files, t.path, t.compressed, job.newPassword);
    case _ =>
  }

  lemma ReadsMoved(job: Job, files: map<string, Bytes>, path: string, compressed: bool, password: string)
    requires NewPath(path) in files && NewPath(path) != path
    ensures Reads(job, files[path := files[NewPath(path)]] - {NewPath(path)}, path, compressed, password)
         == Reads(job, files, NewPath(path), compressed, password)
  {
    hide Decrypt;
  }

  /** Where a step takes its task, and what it counts. */
  lemma StepPhase(job: Job, s: State, id: int, m: Move)
    requires Enabled(job, s, id, m)
    ensures id in job.tasks && id in s.phase && !HasMoved(s, id) && !HasFailed(s, id)
    ensures Do(job, s, id, m).phase == s.phase[id := NextPhase(m)]
    ensures Do(job, s, id, m).success == s.success + if NextPhase(m) == Moved then 1 else 0
    ensures Do(job, s, id, m).failures == s.failures + if FailedPhase(NextPhase(m)) then 1 else 0
    ensures NextPhase(m) == Undoing ==> m.ReplaceFails?
    ensures NextPhase(m) == Stranded ==> s.phase[id] == Undoing
  {
    hide ReadsOld; hide NextFiles; hide NextPassword;
  }

  lemma MovedCount(job: Job, s: State, s1: State, id: int, p: Phase)
    requires id in job.tasks && !HasMoved(s, id) && s1.phase == s.phase[id := p]
    ensures |MovedTasks(job, s1)| == |MovedTasks(job, s)| + if p == Moved then 1 else 0
  {
    assert forall other | other != id :: HasMoved(s1, other) <==> HasMoved(s, other);
    assert MovedTasks(job, s1) == if p == Moved then MovedTasks(job, s) + {id} else MovedTasks(job, s);
  }

  lemma FailedCount(job: Job, s: State, s1: State, id: int, p: Phase)
    requires id in job.tasks && !HasFailed(s, id) && s1.phase == s.phase[id := p]
    ensures |FailedTasks(job, s1)| == |FailedTasks(job, s)| + if FailedPhase(p) then 1 else 0
  {
    hide FailedPhase;
    assert forall other | other != id :: HasFailed(s1, other) <==> HasFailed(s, other);
    assert FailedTasks(job, s1) == if FailedPhase(p) then FailedTasks(job, s) + {id} else FailedTasks(job, s);
  }

  lemma Counters(job: Job, s: State, id: int, m: Move)
    requires Enabled(job, s, id, m) && s.success == |MovedTasks(job, s)| && s.failures == |FailedTasks(job, s)|
    ensures var s1 := Do(job, s, id, m); s1.success == |MovedTasks(job, s1)| && s1.failures == |FailedTasks(job, s1)|
  {
    hide Enabled; hide Do; hide MovedTasks; hide FailedTasks; hide FailedPhase; hide HasMoved; hide HasFailed;
    hide NextPhase;
    StepPhase(job, s, id, m);
    MovedCount(job, s, Do(job, s, id, m), id, NextPhase(m));
    FailedCount(job, s, Do(job, s, id, m), id, NextPhase(m));
  }

  lemma StepKeepsInv(job: Job, s: State, id: int, m: Move, was: map<int, Option<Bytes>>)
    requires WellFormed(job) && Inv(job, s, was) && Enabled(job, s, id, m)
    ensures Inv(job, Do(job, s, id, m), was)
  {
    hide TaskInv; hide Do; hide Enabled; hide MovedTasks; hide FailedTasks; hide WellFormed;
    EnabledTask(job, s, id, m);
    Counters(job, s, id, m);
    forall other | other in job.tasks ensures TaskInv(job, Do(job, s, id, m), other, was[other]) {
      if other == id { OwnTask(job, s, id, m, was[id]); } else { OtherTask(job, s, id, m, other, was[other]); }
    }
  }

  lemma EnabledTask(job: Job, s: State, id: int, m: Move)
    requires Enabled(job, s, id, m)
    ensures id in job.tasks
  {}

  // ---- whole runs ----

  datatype Step = Step(id: int, move: Move)

  /** Every task untouched, every row under its old password. */
  ghost predicate Start(job: Job, s: State) {
    && s.phase.Keys == job.tasks.Keys && s.success == 0 && s.failures == 0
    && (forall id | id in job.tasks :: Untouched(job, s, id))
  }

  ghost predicate Untouched(job: Job, s: State, id: int)
    requires id in job.tasks
  {
    id in s.phase && s.phase[id] == Todo && id in s.password && s.password[id] == job.tasks[id].oldPassword
  }

  ghost predicate Run(job: Job, first: State, steps: seq<Step>, s: State) {
    if steps == [] then s == first
    else
      var n := |steps| - 1;
      exists before :: Run(job, first, steps[..n], before) && Enabled(job, before, steps[n].id, steps[n].move)
        && s == Do(job, before, steps[n].id, steps[n].move)
  }

  /** What every file holds at the start, under its recorded password. */
  ghost function Held(job: Job, s: State): map<int, Option<Bytes>> { map id | id in job.tasks :: ReadsOld(job, s, id) }

  lemma StartInv(job: Job, s: State)
    requires Start(job, s)
    ensures Inv(job, s, Held(job, s))
  {
    hide ReadsOld;
    forall id | id in job.tasks ensures !HasMoved(s, id) && !HasFailed(s, id) { assert Untouched(job, s, id); }
    assert MovedTasks(job, s) == {} && FailedTasks(job, s) == {};
  }

  lemma {:induction false} RunKeepsInv(job: Job, first: State, steps: seq<Step>, s: State)
    requires WellFormed(job) && Start(job, first) && Run(job, first, steps, s)
    ensures Inv(job, s, Held(job, first))
  {
    hide Inv; hide Do; hide Enabled; hide WellFormed; hide Start;
    if steps == [] {
      StartInv(job, first);
    } else {
      var n := |steps| - 1;
      var before :| Run(job, first, steps[..n], before) && Enabled(job, before, steps[n].id, steps[n].move)
        && s == Do(job, before, steps[n].id, steps[n].move);
      RunKeepsInv(job, first, steps[..n], before);
      StepKeepsInv(job, before, steps[n].id, steps[n].move, Held(job, first));
    }
  }

  ghost predicate Completed(job: Job, s: State) {
    forall id | id in job.tasks :: id in s.phase && (s.phase[id] == Moved || FailedPhase(s.phase[id]))
  }

  /** The recorded password opens the file at the row's path with the content it had. */
  ghost predicate Consistent(job: Job, s: State, id: int, x: Option<Bytes>)
    requires id in job.tasks
  {
    id in s.password && Reads(job, s.files, job.tasks[id].path, job.tasks[id].compressed, s.password[id]) == x
  }

  /** A completed run in which no compensating commit failed leaves every row consistent: new
      password and new file, or old and old. */
  lemma CompletedIsConsistent(job: Job, first: State, steps: seq<Step>, s: State, id: int)
    requires WellFormed(job) && Start(job, first) && Run(job, first, steps, s) && Completed(job, s)
    requires id in job.tasks && s.phase[id] != Stranded
    ensures Consistent(job, s, id, ReadsOld(job, first, id))
    ensures s.password[id] == if s.phase[id] == Moved then job.newPassword else job.tasks[id].oldPassword
  {
    hide Reads; hide Run;
    RunKeepsInv(job, first, steps, s);
    assert TaskInv(job, s, id, Held(job, first)[id]);
  }

  lemma {:induction false} NoUndo(job: Job, first: State, steps: seq<Step>, s: State, id: int)
    requires Start(job, first) && Run(job, first, steps, s) && id in job.tasks
    requires forall i | 0 <= i < |steps| :: !steps[i].move.ReplaceFails?
    ensures id in s.phase && s.phase[id] != Undoing && s.phase[id] != Stranded
  {
    hide Enabled; hide Do;
    if steps == [] {
      assert Untouched(job, s, id);
    } else {
      var n := |steps| - 1;
      var before :| Run(job, first, steps[..n], before) && Enabled(job, before, steps[n].id, steps[n].move)
        && s == Do(job, before, steps[n].id, steps[n].move);
      StepPhase(job, before, steps[n].id, steps[n].move);
      NoUndo(job, first, steps[..n], before, id);
      NoUndo(job, first, steps[..n], before, steps[n].id);
      assert !steps[n].move.ReplaceFails?;
    }
  }

  /** The recorded password opens the blob at the path, or the one staged beside it. */
  ghost predicate Recoverable(job: Job, s: State, id: int, x: Option<Bytes>)
    requires id in job.tasks
  {
    id in s.password &&
    var t := job.tasks[id];
    || Reads(job, s.files, t.path, t.compressed, s.password[id]) == x
    || (x.Some? && Reads(job, s.files, NewPath(t.path), t.compressed, s.password[id]) == x)
  }

  /** The one lost case: the replace failed, the staged file was unlinked, the new password is
      still recorded, and it does not happen to open the old file. */
  ghost predicate Lost(job: Job, s: State, id: int, x: Option<Bytes>)
    requires id in job.tasks
  {
    && id in s.phase && (s.phase[id] == Undoing || s.phase[id] == Stranded)
    && NewPath(job.tasks[id].path) !in s.files && ReadsNew(job, s, id, job.tasks[id].path) != x
  }

  /** At every stopping point of every run a row is recoverable unless it is in the lost case. */
  lemma RecoverableIffNotLost(job: Job, first: State, steps: seq<Step>, s: State, id: int)
    requires WellFormed(job) && Start(job, first) && Run(job, first, steps, s) && id in job.tasks
    ensures Recoverable(job, s, id, ReadsOld(job, first, id)) <==> !Lost(job, s, id, ReadsOld(job, first, id))
  {
    hide Run; hide Start; hide WellFormed;
    RunKeepsInv(job, first, steps, s);
    InvRecoverable(job, s, id, Held(job, first)[id]);
  }

  lemma InvRecoverable(job: Job, s: State, id: int, x: Option<Bytes>)
    requires id in job.tasks && TaskInv(job, s, id, x)
    ensures Recoverable(job, s, id, x) <==> !Lost(job, s, id, x)
  {
    hide Reads;
    var t := job.tasks[id];
    MissingReadsNone(job, s, NewPath(t.path), t.compressed, s.password[id]);
    hide NewPath;
  }

  lemma MissingReadsNone(job: Job, s: State, path: string, compressed: bool, password: string)
    ensures path !in s.files ==> Reads(job, s.files, path, compressed, password) == None
  {}

  /** The lost case is reached: for every job, start and readable row whose old file the new password
      does not open, staging, committing and a failed replace that unlinks the staged file lose it. */
  lemma FailedReplaceLosesRow(job: Job, first: State, id: int, salt: Bytes) returns (s: State)
    requires WellFormed(job) && Start(job, first) && id in job.tasks && |salt| == SALT_BYTES
    requires ReadsOld(job, first, id).Some? && ReadsNew(job, first, id, job.tasks[id].path) != ReadsOld(job, first, id)
    ensures Run(job, first, [Step(id, Stage(salt)), Step(id, Commit), Step(id, ReplaceFails(true))], s)
    ensures Lost(job, s, id, ReadsOld(job, first, id)) && !Recoverable(job, s, id, ReadsOld(job, first, id))
  {
    hide Reads; hide Rewritten; hide WellFormed;
    assert Untouched(job, first, id);
    var a, b, c := Stage(salt), Commit, ReplaceFails(true);
    var s1 := Do(job, first, id, a);
    var s2 := Do(job, s1, id, b);
    s := Do(job, s2, id, c);
    ThreeSteps(job, first, s1, s2, s, id, a, b, c);
    var t := job.tasks[id];
    NewPathDiffers(t.path);
    ReadsSame(job, first.files, s.files, t.path, t.compressed, job.newPassword);
    RecoverableIffNotLost(job, first, [Step(id, a), Step(id, b), Step(id, c)], s, id);
  }

  lemma ThreeSteps(job: Job, s0: State, s1: State, s2: State, s3: State, id: int, a: Move, b: Move, c: Move)
    requires Enabled(job, s0, id, a) && s1 == Do(job, s0, id, a) && Enabled(job, s1, id, b) && s2 == Do(job, s1, id, b)
    requires Enabled(job, s2, id, c) && s3 == Do(job, s2, id, c)
    ensures Run(job, s0, [Step(id, a), Step(id, b), Step(id, c)], s3)
  {
    hide Enabled; hide Do;
    EmptyRun(job, s0);
    TookThree(job, s0, s1, s2, s3, id, a, b, c);
    RunExtends(job, s0, [], s0, id, [Step(id, a), Step(id, b), Step(id, c)], s3);
    assert [] + [Step(id, a), Step(id, b), Step(id, c)] == [Step(id, a), Step(id, b), Step(id, c)];
  }

  /** In particular, while no replace has failed every stopping point is recoverable. */
  lemma AlwaysRecoverable(job: Job, first: State, steps: seq<Step>, s: State, id: int)
    requires WellFormed(job) && Start(job, first) && Run(job, first, steps, s) && id in job.tasks
    requires forall i | 0 <= i < |steps| :: !steps[i].move.ReplaceFails?
    ensures Recoverable(job, s, id, ReadsOld(job, first, id))
  {
    hide Run; hide Start; hide WellFormed; hide Reads;
    RecoverableIffNotLost(job, first, steps, s, id);
    NoUndo(job, first, steps, s, id);
  }

  // ---- the job's verdict ----

  /** `_finalize_reencrypt_job` */
  function JobSucceeds(success: nat, failures: nat, total: nat): bool {
    var processed := success + failures;
    var unprocessed := if total > processed then total - processed else 0;
    failures == 0 && unprocessed == 0
  }

  lemma PhasesPartition(job: Job, s: State)
    ensures |MovedTasks(job, s)| + |FailedTasks(job, s)| <= |job.tasks|
    ensures Completed(job, s) <==> |MovedTasks(job, s)| + |FailedTasks(job, s)| == |job.tasks|
    ensures FailedTasks(job, s) == {} && Completed(job, s) <==> MovedTasks(job, s) == job.tasks.Keys
  {
    var moved, failed := MovedTasks(job, s), FailedTasks(job, s);
    assert moved !! failed && |moved + failed| == |moved| + |failed|;
    Subset(moved + failed, job.tasks.Keys);
    assert Completed(job, s) <==> moved + failed == job.tasks.Keys;
    assert |job.tasks.Keys| == |job.tasks|;
  }

  lemma Subset<T>(a: set<T>, b: set<T>)
    requires a <= b
    ensures |a| <= |b| && (|a| == |b| <==> a == b)
  {
    assert b == a + (b - a);
  }

  /** The counters add up to the tasks exactly at the end, and on a normal return the job is
      reported as a success exactly when every row has moved to the new password. */
  lemma VerdictIsTruthful(job: Job, first: State, steps: seq<Step>, s: State)
    requires WellFormed(job) && Start(job, first) && Run(job, first, steps, s)
    ensures s.success + s.failures <= |job.tasks|
    ensures Completed(job, s) <==> s.success + s.failures == |job.tasks|
    ensures JobSucceeds(s.success, s.failures, |job.tasks|) <==> AllMoved(job, s)
  {
    hide TaskInv; hide Run; hide Start; hide WellFormed; hide Held;
    RunKeepsInv(job, first, steps, s);
    PhasesPartition(job, s);
    if MovedTasks(job, s) == job.tasks.Keys {
      assert FailedTasks(job, s) == {};
      forall id | id in job.tasks ensures HasMoved(s, id) { assert id in MovedTasks(job, s); }
    }
    if AllMoved(job, s) { assert MovedTasks(job, s) == job.tasks.Keys; }
  }

  ghost predicate AllMoved(job: Job, s: State) { forall id | id in job.tasks :: HasMoved(s, id) }

  /** What the caller finalises with: the counters after a normal return, zeros when the loop was
      left by an exception; a failed rotation of the instance passwords adds one failed task. */
  function Reported(job: Job, s: State, returned: bool, rotationFailed: bool): bool {
    var extra := if returned && rotationFailed then 1 else 0;
    JobSucceeds(if returned then s.success else 0, (if returned then s.failures else 0) + extra, |job.tasks| + extra)
  }

  /** However the loop was left: a reported success means every row moved; after a normal return
      and without a failed rotation it is reported if they did; after an exception any task at
      all makes it a failure, even if every row moved. */
  lemma SuccessMeansAllMoved(job: Job, first: State, steps: seq<Step>, s: State, returned: bool, rotationFailed: bool)
    requires WellFormed(job) && Start(job, first) && Run(job, first, steps, s) && (returned ==> Completed(job, s))
    ensures Reported(job, s, returned, rotationFailed) ==> AllMoved(job, s)
    ensures returned ==> (Reported(job, s, returned, rotationFailed) <==> AllMoved(job, s) && !rotationFailed)
    ensures !returned ==> (Reported(job, s, returned, rotationFailed) <==> |job.tasks| == 0)
  {
    hide Run; hide Start; hide WellFormed;
    VerdictIsTruthful(job, first, steps, s);
    if |job.tasks| == 0 { assert job.tasks.Keys == {}; }
  }

  // ---- the program ----

  /** What goes wrong for one task: the child dies leaving some bytes behind, or a commit, an
      unlink, the replace or the compensating commit fails. */
  datatype Faults = Faults(childDies: bool, leftover: Option<Bytes>, commit: bool, unlink: bool, replace: bool,
      compensate: bool)

  /** Where a task ends. */
  function Ending(readable: bool, f: Faults): Phase {
    if f.childDies || !readable || f.commit then Kept
    else if !f.replace then Moved
    else if f.compensate then Stranded else Kept
  }

  /** A task ends moved exactly when nothing failed, stranded exactly when the replace failed after
      the commit and putting the password back failed too, and otherwise as it was. */
  lemma EndingMeans(readable: bool, f: Faults)
    ensures Ending(readable, f) == Moved <==> readable && !f.childDies && !f.commit && !f.replace
    ensures Ending(readable, f) == Stranded <==> readable && !f.childDies && !f.commit && f.replace && f.compensate
    ensures Ending(readable, f) in {Moved, Stranded, Kept}
  {}

  /** The rows, files and counters that `_reencrypt_rows` works on. */
  class Parent {
    const job: Job
    var s: State

    constructor (job: Job, s: State)
      ensures this.job == job && this.s == s
    {
      this.job, this.s := job, s;
    }

    /** `_reencrypt_one_subprocess` for one task. */
    method RunChild(id: int, salt: Bytes, f: Faults) returns (ok: bool, ghost steps: seq<Step>)
      requires Present(job, s, id) && s.phase[id] == Todo && |salt| == SALT_BYTES
      modifies this
      ensures ok <==> !f.childDies && ReadsOld(job, old(s), id).Some?
      ensures |steps| == 1 && Took(job, old(s), id, steps, s)
      ensures s.phase == old(s).phase[id := if ok then Staged else Refused] && s.password == old(s).password
      ensures ok ==> NewPath(job.tasks[id].path) in s.files
    {
      hide Reads; hide Rewritten;
      if f.childDies || ReadsOld(job, s, id).None? {
        var m := StageFails(f.leftover);
        steps := [Step(id, m)];
        s, ok := Do(job, s, id, m), false;
      } else {
        var m := Stage(salt);
        steps := [Step(id, m)];
        s, ok := Do(job, s, id, m), true;
      }
    }

    /** The parent's handling of one result: commit, then replace, else undo. */
    method HandleResult(id: int, ok: bool, f: Faults) returns (ghost steps: seq<Step>)
      requires Present(job, s, id) && s.phase[id] == (if ok then Staged else Refused)
      requires ok ==> NewPath(job.tasks[id].path) in s.files
      modifies this
      ensures Took(job, old(s), id, steps, s)
      ensures s.phase == old(s).phase[id := Ending(ok, f.(childDies := false))]
      ensures s.password.Keys == old(s).password.Keys
    {
      hide Reads; hide Rewritten; hide ReadsOld;
      if !ok {
        steps := [Step(id, CountRefusal)];
        s := Do(job, s, id, CountRefusal);
        return;
      }
      if f.commit {
        var m := CommitFails(!f.unlink);
        steps := [Step(id, m)];
        s := Do(job, s, id, m);
        return;
      }
      ghost var s0 := s;
      s := Do(job, s, id, Commit);
      ghost var s1 := s;
      if !f.replace {
        s := Do(job, s, id, Replace);
        steps := [Step(id, Commit), Step(id, Replace)];
        TookTwo(job, s0, s1, s, id, Commit, Replace);
        return;
      }
      var m, c := ReplaceFails(!f.unlink), Compensate(!f.compensate);
      s := Do(job, s, id, m);
      ghost var s2 := s;
      s := Do(job, s, id, c);
      steps := [Step(id, Commit), Step(id, m), Step(id, c)];
      TookThree(job, s0, s1, s2, s, id, Commit, m, c);
    }
  }

  predicate Present(job: Job, s: State, id: int) { id in job.tasks && id in s.phase && id in s.password }

  /** s1 comes from s by these steps of one task. */
  ghost predicate Took(job: Job, s: State, id: int, steps: seq<Step>, s1: State)
    decreases |steps|
  {
    if steps == [] then s1 == s
    else
      && steps[0].id == id && Enabled(job, s, id, steps[0].move)
      && Took(job, Do(job, s, id, steps[0].move), id, steps[1..], s1)
  }

  lemma TookTwo(job: Job, s0: State, s1: State, s2: State, id: int, a: Move, b: Move)
    requires Enabled(job, s0, id, a) && s1 == Do(job, s0, id, a) && Enabled(job, s1, id, b) && s2 == Do(job, s1, id, b)
    ensures Took(job, s0, id, [Step(id, a), Step(id, b)], s2)
  {
    hide Enabled; hide Do;
    assert [Step(id, a), Step(id, b)][1..] == [Step(id, b)] && [Step(id, b)][1..] == [];
    assert Took(job, s1, id, [Step(id, b)], s2);
  }

  lemma TookThree(job: Job, s0: State, s1: State, s2: State, s3: State, id: int, a: Move, b: Move, c: Move)
    requires Enabled(job, s0, id, a) && s1 == Do(job, s0, id, a) && Enabled(job, s1, id, b) && s2 == Do(job, s1, id, b)
    requires Enabled(job, s2, id, c) && s3 == Do(job, s2, id, c)
    ensures Took(job, s0, id, [Step(id, a), Step(id, b), Step(id, c)], s3)
  {
    hide Enabled; hide Do;
    TookTwo(job, s1, s2, s3, id, b, c);
    assert [Step(id, a), Step(id, b), Step(id, c)][1..] == [Step(id, b), Step(id, c)];
  }

  /** Steps of one task extend a run. */
  lemma {:induction false} RunExtends(job: Job, first: State, steps: seq<Step>, s: State, id: int, more: seq<Step>,
      s1: State)
    requires Run(job, first, steps, s) && Took(job, s, id, more, s1)
    ensures Run(job, first, steps + more, s1)
    decreases |more|
  {
    hide Enabled; hide Do;
    if more == [] {
      assert steps + more == steps;
    } else {
      var mid := Do(job, s, id, more[0].move);
      var longer := steps + [more[0]];
      assert longer[..|longer| - 1] == steps;
      assert Run(job, first, longer, mid);
      RunExtends(job, first, longer, mid, id, more[1..], s1);
      assert longer + more[1..] == steps + more;
    }
  }

  /** `_reencrypt_rows` over the tasks in completion order; it is one of the runs above. */
  method ReencryptRows(p: Parent, order: seq<int>, salts: int -> Bytes, faults: int -> Faults)
    returns (success: nat, failures: nat, ghost steps: seq<Step>)
    requires Start(p.job, p.s) && p.s.phase.Keys == p.job.tasks.Keys && (forall id :: |salts(id)| == SALT_BYTES)
    requires forall i, j | 0 <= i < j < |order| :: order[i] != order[j]
    requires (forall i | 0 <= i < |order| :: order[i] in p.job.tasks) && (forall id | id in p.job.tasks :: id in order)
    requires WellFormed(p.job)
    modifies p
    ensures Run(p.job, old(p.s), steps, p.s) && Completed(p.job, p.s)
    ensures success == p.s.success && failures == p.s.failures && success + failures == |p.job.tasks|
    ensures forall id | id in p.job.tasks :: p.s.phase[id] == Ending(ReadsOld(p.job, old(p.s), id).Some?, faults(id))
  {
    hide Run; hide Took; hide ReadsOld; hide WellFormed; hide Ending;
    steps := [];
    ghost var first := p.s;
    EmptyRun(p.job, first);
    TodoAtStart(p.job, first, order);
    hide Start;
    for i := 0 to |order|
      invariant Run(p.job, first, steps, p.s)
      invariant p.s.phase.Keys == p.job.tasks.Keys
      invariant forall k | i <= k < |order| :: p.s.phase[order[k]] == Todo
      invariant forall k | 0 <= k < i ::
        p.s.phase[order[k]] == Ending(ReadsOld(p.job, first, order[k]).Some?, faults(order[k]))
    {
      var id := order[i];
      TodoReads(p.job, first, steps, p.s, id);
      ghost var s0 := p.s;
      var ok, more := p.RunChild(id, salts(id), faults(id));
      RunExtends(p.job, first, steps, s0, id, more, p.s);
      ghost var steps1, s1 := steps + more, p.s;
      ghost var rest := p.HandleResult(id, ok, faults(id));
      RunExtends(p.job, first, steps1, s1, id, rest, p.s);
      steps := steps1 + rest;
      EndingOf(ReadsOld(p.job, first, id).Some?, faults(id));
    }
    success, failures := p.s.success, p.s.failures;
    forall id | id in p.job.tasks ensures p.s.phase[id] == Ending(ReadsOld(p.job, first, id).Some?, faults(id)) {
      assert id in order;
      var k :| 0 <= k < |order| && order[k] == id;
    }
    EndingsComplete(p.job, first, p.s, faults);
    VerdictIsTruthful(p.job, first, steps, p.s);
  }

  lemma TodoAtStart(job: Job, s: State, order: seq<int>)
    requires Start(job, s) && forall i | 0 <= i < |order| :: order[i] in job.tasks
    ensures forall i | 0 <= i < |order| :: order[i] in s.phase && s.phase[order[i]] == Todo
  {
    forall i | 0 <= i < |order| ensures order[i] in s.phase && s.phase[order[i]] == Todo {
      assert Untouched(job, s, order[i]);
    }
  }

  lemma EmptyRun(job: Job, s: State)
    ensures Run(job, s, [], s)
  {}

  /** A task that has not started still has its row and its file as they were. */
  lemma TodoReads(job: Job, first: State, steps: seq<Step>, s: State, id: int)
    requires WellFormed(job) && Start(job, first) && Run(job, first, steps, s) && id in job.tasks && id in s.phase
    requires s.phase[id] == Todo
    ensures id in s.password && ReadsOld(job, s, id) == ReadsOld(job, first, id)
  {
    hide Reads; hide Run; hide ReadsNew;
    RunKeepsInv(job, first, steps, s);
    assert TaskInv(job, s, id, Held(job, first)[id]);
  }

  lemma EndingOf(readable: bool, f: Faults)
    ensures Ending(!f.childDies && readable, f.(childDies := false)) == Ending(readable, f)
  {}

  lemma EndingsComplete(job: Job, first: State, s: State, faults: int -> Faults)
    requires s.phase.Keys == job.tasks.Keys
    requires forall id | id in job.tasks :: s.phase[id] == Ending(ReadsOld(job, first, id).Some?, faults(id))
    ensures Completed(job, s)
  {
    hide ReadsOld;
  }
}
