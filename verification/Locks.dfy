/** Instance locks, the cross-process file lock and the host semaphores, as a transition
    system over any number of worker processes and threads. */
module Locks {
  import opened Basics

  /** What a thread runs. A backup works under its instance lock, the file lock and a host permit;
      its host is None when the URL has no usable port. Everything else (test connection,
      re-encryption) works under instance locks only, and re-encrypt-all takes several. The code
      always takes the instance lock of a backup and sorts the others; `Proper` says so. */
  datatype Task = Backup(instance: int, host: Option<string>, locked: bool) | Guarded(ids: seq<int>)

  /** An open file description of one instance's lock file; flock belongs to it, and threads
      of one process share it through the cache. */
  datatype Fd = Fd(proc: nat, instance: int, serial: nat)

  datatype Pc =
    | Acquiring(n: nat)      // holds the first n instance locks
    | NeedFd                 // holds all instance locks, file lock not yet opened
    | Flocking(fd: Fd)       // in the flock retry loop
    | Flocked(fd: Fd)        // inside the locked part, before the try block
    | Trying(fd: Fd)         // in the try block, before the host semaphore
    | Online(fd: Fd)         // holds a host permit
    | Saving(fd: Fd)         // inside the locked part, permit given back or never got
    | UnlockFailed(fd: Fd)   // LOCK_UN raised, descriptor still cached
    | Uncached(fd: Fd)       // descriptor dropped from the cache, still open
    | Working                // body of a guarded task
    | Releasing(n: nat)      // still holds the first n instance locks
    | Done

  datatype Thread = Thread(proc: nat, task: Task, pc: Pc)

  datatype Slot = Slot(proc: nat, id: int)

  datatype HostSlot = HostSlot(proc: nat, host: string)

  datatype State = State(
    threads: map<nat, Thread>,
    locks: map<Slot, nat>,              // InstanceLocks of each process: the owning thread
    fds: map<Slot, Fd>,                 // _fd_cache of each process
    flocks: map<int, Fd>,               // kernel: the description holding each lock file
    permits: map<HostSlot, set<nat>>,   // HostSemaphores of each process: threads holding a permit
    orphans: map<nat, Fd>,              // threads whose lock generator is still waiting to be dropped
    closed: set<Fd>,                    // descriptions closed so far
    serial: nat)

  const HOST_CONCURRENCY := 2

  /** What one thread does next. RaiseEarly is an exception between taking the file lock and the
      try block that would release it: the thread leaves, its generator stays behind. */
  datatype Move =
    | Acquire | Begin | Skip | Open | Flock | FlockRaises | EnterTry | RaiseEarly | GoOnline | NoPermit | GoOffline
    | Unlock | UnlockRaises | Uncache | Close | Finish | Release | Exit

  /** LateUnlock is the moment an orphaned generator is dropped and runs its LOCK_UN. */
  datatype Action =
    | Spawn(t: nat, proc: nat, task: Task) | Crash(proc: nat) | Step(t: nat, move: Move) | LateUnlock(t: nat, ok: bool)

  function LockIds(task: Task): seq<int> {
    match task
    case Backup(instance, _, locked) => if locked then [instance] else []
    case Guarded(ids) => ids
  }

  predicate Sorted(ids: seq<int>) { forall i, j | 0 <= i < j < |ids| :: ids[i] < ids[j] }

  /** What the callers promise: sorted locks, and a backup only under its instance lock. */
  predicate Proper(task: Task) { Sorted(LockIds(task)) && (task.Backup? ==> task.locked) }

  function Permits(s: State, q: HostSlot): set<nat> { if q in s.permits then s.permits[q] else {} }

  predicate HeldBy(s: State, fd: Fd) { fd.instance in s.flocks && s.flocks[fd.instance] == fd }

  /** Whether the thread can make the move. Acquire waits for the owner, Flock for another
      description, GoOnline for a permit; all other moves only need the right place. */
  predicate CanMove(s: State, t: nat, m: Move) {
    t in s.threads &&
    var Thread(proc, task, pc) := s.threads[t];
    match pc
    case Acquiring(n) =>
      if n < |LockIds(task)| then m == Acquire && Slot(proc, LockIds(task)[n]) !in s.locks
      else m == Begin || m == Skip
    case NeedFd => m == Open && task.Backup?
    case Flocking(fd) =>
      if fd in s.closed then m == FlockRaises
      else m == Flock && (fd.instance in s.flocks ==> s.flocks[fd.instance] == fd)
    case Flocked(_) => m == EnterTry || m == RaiseEarly
    case Trying(_) =>
      task.Backup? &&
      if task.host.None? then m == NoPermit
      else m == GoOnline && |Permits(s, HostSlot(proc, task.host.value))| < HOST_CONCURRENCY
    case Online(_) => m == GoOffline && task.Backup? && task.host.Some?
    case Saving(fd) => (m == Unlock && fd !in s.closed) || m == UnlockRaises
    case UnlockFailed(_) => m == Uncache
    case Uncached(_) => m == Close
    case Working => m == Finish
    case Releasing(n) => if n == 0 then m == Exit else m == Release && n <= |LockIds(task)|
    case Done => false
  }

  /** Where the move takes the thread. */
  function NextPc(s: State, t: nat, m: Move): Pc
    requires CanMove(s, t, m)
  {
    var Thread(proc, task, pc) := s.threads[t];
    match pc
    case Acquiring(n) =>
      if m == Acquire then Acquiring(n + 1)
      else if m == Skip then Releasing(n)
      else if task.Backup? then NeedFd else Working
    case NeedFd =>
      var slot := Slot(proc, task.instance);
      Flocking(if slot in s.fds then s.fds[slot] else Fd(proc, task.instance, s.serial))
    case Flocking(fd) => if m == Flock then Flocked(fd) else Releasing(|LockIds(task)|)
    case Flocked(fd) => if m == EnterTry then Trying(fd) else Releasing(|LockIds(task)|)
    case Trying(fd) => if m == GoOnline then Online(fd) else Saving(fd)
    case Online(fd) => Saving(fd)
    case Saving(fd) => if m == Unlock then Releasing(|LockIds(task)|) else UnlockFailed(fd)
    case UnlockFailed(fd) => Uncached(fd)
    case Uncached(_) => Releasing(|LockIds(task)|)
    case Working => Releasing(|LockIds(task)|)
    case Releasing(n) => if n == 0 then Done else Releasing(n - 1)
  }

  function NextLocks(s: State, t: nat, m: Move): map<Slot, nat>
    requires CanMove(s, t, m)
  {
    var Thread(proc, task, pc) := s.threads[t];
    if m == Acquire then s.locks[Slot(proc, LockIds(task)[pc.n]) := t]
    else if m == Release then s.locks - {Slot(proc, LockIds(task)[pc.n - 1])}
    else s.locks
  }

  function NextFds(s: State, t: nat, m: Move): map<Slot, Fd>
    requires CanMove(s, t, m)
  {
    var Thread(proc, task, pc) := s.threads[t];
    if m == Open && Slot(proc, task.instance) !in s.fds
    then s.fds[Slot(proc, task.instance) := Fd(proc, task.instance, s.serial)]
    else if m == Uncache then s.fds - {Slot(proc, pc.fd.instance)}
    else s.fds
  }

  /** LOCK_UN and closing free the file only if this description holds it. */
  function Freed(s: State, fd: Fd): map<int, Fd> { if HeldBy(s, fd) then s.flocks - {fd.instance} else s.flocks }

  function NextFlocks(s: State, t: nat, m: Move): map<int, Fd>
    requires CanMove(s, t, m)
  {
    var pc := s.threads[t].pc;
    if m == Flock then s.flocks[pc.fd.instance := pc.fd]
    else if m == Unlock || m == Close then Freed(s, pc.fd)
    else s.flocks
  }

  function NextPermits(s: State, t: nat, m: Move): map<HostSlot, set<nat>>
    requires CanMove(s, t, m)
  {
    var Thread(proc, task, pc) := s.threads[t];
    if m == GoOnline then var q := HostSlot(proc, task.host.value); s.permits[q := Permits(s, q) + {t}]
    else if m == GoOffline then var q := HostSlot(proc, task.host.value); s.permits[q := Permits(s, q) - {t}]
    else s.permits
  }

  function NextOrphans(s: State, t: nat, m: Move): map<nat, Fd>
    requires CanMove(s, t, m)
  {
    if m == RaiseEarly then s.orphans[t := s.threads[t].pc.fd] else s.orphans
  }

  function Moved(s: State, t: nat, m: Move): State
    requires CanMove(s, t, m)
  {
    State(s.threads[t := s.threads[t].(pc := NextPc(s, t, m))],
      NextLocks(s, t, m), NextFds(s, t, m), NextFlocks(s, t, m), NextPermits(s, t, m), NextOrphans(s, t, m),
      if m == Close then s.closed + {s.threads[t].pc.fd} else s.closed, s.serial + 1)
  }

  /** The orphaned generator unlocks its description, whoever is using it now; when that fails it
      drops whatever the cache holds for the instance and closes the description. */
  function UnlockLate(s: State, t: nat, ok: bool): State
    requires t in s.orphans
  {
    var fd := s.orphans[t];
    s.(flocks := Freed(s, fd), orphans := s.orphans - {t},
       fds := if ok then s.fds else s.fds - {Slot(fd.proc, fd.instance)},
       closed := if ok then s.closed else s.closed + {fd})
  }

  /** A dying process takes its threads, its in-process locks and its descriptors with it. */
  function CrashOf(s: State, p: nat): State {
    State(
      map t | t in s.threads && s.threads[t].proc != p :: s.threads[t],
      map q | q in s.locks && q.proc != p :: s.locks[q],
      map q | q in s.fds && q.proc != p :: s.fds[q],
      map i | i in s.flocks && s.flocks[i].proc != p :: s.flocks[i],
      map q | q in s.permits && q.proc != p :: s.permits[q],
      map t | t in s.orphans && s.orphans[t].proc != p :: s.orphans[t],
      s.closed, s.serial)
  }

  /** What can happen at all, with any task spawned. */
  predicate Possible(s: State, a: Action) {
    match a
    case Spawn(t, _, _) => t !in s.threads
    case Crash(_) => true
    case Step(t, m) => CanMove(s, t, m)
    case LateUnlock(t, ok) => t in s.orphans && (ok ==> s.orphans[t] !in s.closed)
  }

  /** What can happen in the program. */
  predicate Enabled(s: State, a: Action) { Possible(s, a) && (a.Spawn? ==> Proper(a.task)) }

  function Do(s: State, a: Action): State
    requires Possible(s, a)
  {
    match a
    case Spawn(t, proc, task) => s.(threads := s.threads[t := Thread(proc, task, Acquiring(0))])
    case Crash(p) => CrashOf(s, p)
    case Step(t, m) => Moved(s, t, m)
    case LateUnlock(t, ok) => UnlockLate(s, t, ok)
  }

  const START := State(map[], map[], map[], map[], map[], map[], {}, 0)

  /** s is the state after some interleaving of enabled steps. */
  ghost predicate Run(actions: seq<Action>, s: State) {
    if actions == [] then s == START
    else
      var n := |actions| - 1;
      exists before :: Run(actions[..n], before) && Enabled(before, actions[n]) && s == Do(before, actions[n])
  }

  predicate IsEarlyRaise(a: Action) { a.Step? && a.move == RaiseEarly }

  /** No thread left between its file lock and its try block. */
  ghost predicate NoEarlyRaise(actions: seq<Action>) { forall i | 0 <= i < |actions| :: !IsEarlyRaise(actions[i]) }

  // ---- what holds in every run ----

  function Held(th: Thread): nat {
    match th.pc
    case Acquiring(n) => n
    case Releasing(n) => n
    case Done => 0
    case _ => |LockIds(th.task)|
  }

  /** The locked part of backup_instance. */
  predicate Inside(pc: Pc) { pc.Flocked? || pc.Trying? || pc.Online? || pc.Saving? }

  predicate HoldsFlock(pc: Pc) { Inside(pc) || pc.UnlockFailed? || pc.Uncached? }

  predicate HasFd(pc: Pc) { pc.Flocking? || HoldsFlock(pc) }

  ghost predicate Shape(th: Thread) {
    && Proper(th.task) && Held(th) <= |LockIds(th.task)|
    && (th.pc.NeedFd? || HasFd(th.pc) ==> th.task.Backup?)
    && (th.pc.Working? ==> th.task.Guarded?)
    && (th.pc.Online? ==> th.task.host.Some?)
    && (HasFd(th.pc) ==> th.pc.fd.proc == th.proc && th.pc.fd.instance == th.task.instance)
  }

  ghost predicate Holds(th: Thread, id: int) {
    Held(th) <= |LockIds(th.task)| && exists k :: 0 <= k < Held(th) && LockIds(th.task)[k] == id
  }

  ghost predicate ShapeInv(s: State) { forall t | t in s.threads :: Shape(s.threads[t]) }

  /** The lock tables and the threads agree on who owns what. */
  ghost predicate LockInv(s: State) {
    && (forall t, id | t in s.threads && Holds(s.threads[t], id) ::
          Slot(s.threads[t].proc, id) in s.locks && s.locks[Slot(s.threads[t].proc, id)] == t)
    && (forall q | q in s.locks ::
          s.locks[q] in s.threads && s.threads[s.locks[q]].proc == q.proc && Holds(s.threads[s.locks[q]], q.id))
  }

  /** Cached descriptors belong to their slot. */
  ghost predicate CacheInv(s: State) {
    forall q | q in s.fds :: s.fds[q].proc == q.proc && s.fds[q].instance == q.id
  }

  ghost predicate HeldByThread(s: State, fd: Fd) {
    exists t :: t in s.threads && HoldsFlock(s.threads[t].pc) && s.threads[t].pc.fd == fd
  }

  ghost predicate HeldByOrphan(s: State, fd: Fd) { exists t :: t in s.orphans && s.orphans[t] == fd }

  /** Whoever holds a lock file will come to free it. */
  ghost predicate OwnedInv(s: State) {
    forall i | i in s.flocks ::
      s.flocks[i].instance == i && (HeldByThread(s, s.flocks[i]) || HeldByOrphan(s, s.flocks[i]))
  }

  /** An orphan's thread has left the locked part. */
  ghost predicate OrphanInv(s: State) {
    forall t | t in s.orphans ::
      && t in s.threads && s.orphans[t].proc == s.threads[t].proc
      && (s.threads[t].pc.Releasing? || s.threads[t].pc.Done?)
  }

  ghost predicate OnlineAt(s: State, q: HostSlot, t: nat) {
    t in s.threads && s.threads[t].pc.Online? && s.threads[t].task.Backup?
    && s.threads[t].task.host == Some(q.host) && s.threads[t].proc == q.proc
  }

  ghost predicate PermitInv(s: State) {
    && (forall q | q in s.permits :: |s.permits[q]| <= HOST_CONCURRENCY)
    && (forall q, t :: t in Permits(s, q) <==> OnlineAt(s, q, t))
  }

  ghost predicate Core(s: State) {
    ShapeInv(s) && LockInv(s) && CacheInv(s) && OwnedInv(s) && OrphanInv(s) && PermitInv(s)
  }

  // ---- what holds as long as no thread raises early ----

  /** A thread that has a descriptor uses the cached one, until it drops it from the cache. */
  ghost predicate UsesCached(s: State, th: Thread) {
    HasFd(th.pc) ==>
      var slot := Slot(th.proc, th.pc.fd.instance);
      th.pc.fd.serial < s.serial && if th.pc.Uncached? then slot !in s.fds else slot in s.fds && s.fds[slot] == th.pc.fd
  }

  ghost predicate CachedInv(s: State) { forall t | t in s.threads :: UsesCached(s, s.threads[t]) }

  /** What the cache hands out is open. */
  ghost predicate OpenInv(s: State) {
    && (forall q | q in s.fds :: s.fds[q] !in s.closed && s.fds[q].serial < s.serial)
    && (forall fd | fd in s.closed :: fd.serial < s.serial)
  }

  /** A thread past its flock call holds the lock file. */
  ghost predicate HolderInv(s: State) {
    forall t | t in s.threads && HoldsFlock(s.threads[t].pc) :: HeldBy(s, s.threads[t].pc.fd)
  }

  ghost predicate Inv(s: State) { Core(s) && s.orphans == map[] && CachedInv(s) && OpenInv(s) && HolderInv(s) }

  // ---- every move keeps the core ----

  lemma ShapeMoves(s: State, t: nat, m: Move)
    requires CanMove(s, t, m) && Shape(s.threads[t]) && CacheInv(s)
    ensures Shape(s.threads[t].(pc := NextPc(s, t, m)))
  {
    hide Proper; hide Permits;
  }

  lemma KeepsShape(s: State, t: nat, m: Move)
    requires ShapeInv(s) && CacheInv(s) && t in s.threads && CanMove(s, t, m)
    ensures ShapeInv(Moved(s, t, m))
  {
    hide NextLocks; hide NextFds; hide NextFlocks; hide NextPermits; hide NextOrphans; hide CanMove; hide NextPc;
    hide Shape;
    ShapeMoves(s, t, m);
  }

  lemma SameHolds(th: Thread, pc: Pc)
    requires Held(th) == Held(th.(pc := pc))
    ensures forall id :: Holds(th.(pc := pc), id) <==> Holds(th, id)
  {}

  lemma HoldsOneMore(th: Thread)
    requires th.pc.Acquiring? && th.pc.n < |LockIds(th.task)|
    ensures forall id :: Holds(th.(pc := Acquiring(th.pc.n + 1)), id) <==>
      Holds(th, id) || id == LockIds(th.task)[th.pc.n]
  {
    var th1 := th.(pc := Acquiring(th.pc.n + 1));
    assert LockIds(th1.task)[th.pc.n] == LockIds(th.task)[th.pc.n];
    forall id | Holds(th, id) ensures Holds(th1, id) {
      var k :| 0 <= k < Held(th) && LockIds(th.task)[k] == id;
      assert LockIds(th1.task)[k] == id;
    }
  }

  lemma HoldsOneLess(th: Thread)
    requires Shape(th) && th.pc.Releasing? && th.pc.n > 0
    ensures forall id :: Holds(th.(pc := Releasing(th.pc.n - 1)), id) <==>
      Holds(th, id) && id != LockIds(th.task)[th.pc.n - 1]
    ensures Holds(th, LockIds(th.task)[th.pc.n - 1])
  {
    var th1 := th.(pc := Releasing(th.pc.n - 1));
    forall id | Holds(th, id) && id != LockIds(th.task)[th.pc.n - 1] ensures Holds(th1, id) {
      var k :| 0 <= k < Held(th) && LockIds(th.task)[k] == id;
      assert LockIds(th1.task)[k] == id;
    }
    forall id | Holds(th1, id) ensures Holds(th, id) && id != LockIds(th.task)[th.pc.n - 1] {
      var k :| 0 <= k < Held(th1) && LockIds(th1.task)[k] == id;
      assert LockIds(th.task)[k] == id && k < th.pc.n - 1;
    }
    assert LockIds(th.task)[Held(th) - 1] == LockIds(th.task)[th.pc.n - 1];
  }

  /** Threads other than t keep their place. */
  ghost predicate OnlyMoves(s: State, s1: State, t: nat) {
    && t in s.threads && s1.threads.Keys == s.threads.Keys
    && s1.threads[t].proc == s.threads[t].proc && s1.threads[t].task == s.threads[t].task
    && (forall u | u in s.threads && u != t :: s1.threads[u] == s.threads[u])
  }

  lemma SameHeld(s: State, t: nat, m: Move)
    requires CanMove(s, t, m) && Shape(s.threads[t]) && m != Acquire && m != Release
    ensures Held(s.threads[t].(pc := NextPc(s, t, m))) == Held(s.threads[t])
  {
    hide Proper; hide Permits;
  }

  lemma KeepsLocks(s: State, t: nat, m: Move)
    requires ShapeInv(s) && LockInv(s) && t in s.threads && CanMove(s, t, m)
    ensures LockInv(Moved(s, t, m))
  {
    hide Holds; hide NextFds; hide NextFlocks; hide NextPermits; hide NextOrphans; hide NextPc; hide Held;
    hide CanMove; hide LockInv; hide Shape;
    var th := s.threads[t];
    assert Shape(th);
    if m == Acquire {
      AcquireKeepsLocks(s, t);
    } else if m == Release {
      ReleaseKeepsLocks(s, t);
    } else {
      SameHeld(s, t, m);
      SameHolds(th, NextPc(s, t, m));
      SameLocks(s, Moved(s, t, m), t);
    }
  }

  lemma SameLocks(s: State, s1: State, t: nat)
    requires LockInv(s) && OnlyMoves(s, s1, t) && s1.locks == s.locks
    requires forall id :: Holds(s1.threads[t], id) <==> Holds(s.threads[t], id)
    ensures LockInv(s1)
  {
    hide Holds;
  }

  lemma AcquireEffect(s: State, t: nat)
    requires CanMove(s, t, Acquire)
    ensures var th, s1 := s.threads[t], Moved(s, t, Acquire);
      && th.pc.Acquiring? && th.pc.n < |LockIds(th.task)| && OnlyMoves(s, s1, t)
      && s1.threads[t] == th.(pc := Acquiring(th.pc.n + 1))
      && Slot(th.proc, LockIds(th.task)[th.pc.n]) !in s.locks
      && s1.locks == s.locks[Slot(th.proc, LockIds(th.task)[th.pc.n]) := t]
  {
    hide NextFds; hide NextFlocks; hide NextPermits; hide NextOrphans; hide Permits;
  }

  lemma AcquireKeepsLocks(s: State, t: nat)
    requires LockInv(s) && t in s.threads && CanMove(s, t, Acquire)
    ensures LockInv(Moved(s, t, Acquire))
  {
    hide CanMove; hide Moved; hide LockInv; hide Holds; hide LockIds;
    AcquireEffect(s, t);
    var th := s.threads[t];
    HoldsOneMore(th);
    LockTaken(s, Moved(s, t, Acquire), t, LockIds(th.task)[th.pc.n]);
  }

  lemma LockTaken(s: State, s1: State, t: nat, id: int)
    requires LockInv(s) && OnlyMoves(s, s1, t) && Slot(s.threads[t].proc, id) !in s.locks
    requires s1.locks == s.locks[Slot(s.threads[t].proc, id) := t]
    requires forall i :: Holds(s1.threads[t], i) <==> Holds(s.threads[t], i) || i == id
    ensures LockInv(s1)
  {
    hide Holds;
  }

  lemma ReleaseEffect(s: State, t: nat)
    requires CanMove(s, t, Release)
    ensures var th, s1 := s.threads[t], Moved(s, t, Release);
      && th.pc.Releasing? && 0 < th.pc.n <= |LockIds(th.task)| && OnlyMoves(s, s1, t)
      && s1.threads[t] == th.(pc := Releasing(th.pc.n - 1))
      && s1.locks == s.locks - {Slot(th.proc, LockIds(th.task)[th.pc.n - 1])}
  {
    hide NextFds; hide NextFlocks; hide NextPermits; hide NextOrphans; hide Permits;
  }

  lemma ReleaseKeepsLocks(s: State, t: nat)
    requires LockInv(s) && ShapeInv(s) && t in s.threads && CanMove(s, t, Release)
    ensures LockInv(Moved(s, t, Release))
  {
    hide CanMove; hide Moved; hide LockInv; hide Holds; hide LockIds; hide Shape;
    ReleaseEffect(s, t);
    var th := s.threads[t];
    HoldsOneLess(th);
    LockGiven(s, Moved(s, t, Release), t, LockIds(th.task)[th.pc.n - 1]);
  }

  lemma LockGiven(s: State, s1: State, t: nat, id: int)
    requires LockInv(s) && OnlyMoves(s, s1, t) && Holds(s.threads[t], id)
    requires s1.locks == s.locks - {Slot(s.threads[t].proc, id)}
    requires forall i :: Holds(s1.threads[t], i) <==> Holds(s.threads[t], i) && i != id
    ensures LockInv(s1)
  {
    hide Holds;
  }

  lemma KeepsCache(s: State, t: nat, m: Move)
    requires CanMove(s, t, m) && CacheInv(s)
    ensures CacheInv(Moved(s, t, m))
  {
    hide NextLocks; hide NextFlocks; hide NextPermits; hide NextOrphans; hide NextPc;
  }

  /** How a move changes what the thread holds in the kernel. */
  lemma FlockMoves(s: State, t: nat, m: Move)
    requires CanMove(s, t, m)
    ensures m != Flock && m != Unlock && m != Close && m != RaiseEarly ==>
      var pc, pc1 := s.threads[t].pc, NextPc(s, t, m);
      (HoldsFlock(pc1) <==> HoldsFlock(pc)) && (HoldsFlock(pc) ==> pc1.fd == pc.fd)
    ensures m == Unlock || m == Close || m == RaiseEarly ==> HoldsFlock(s.threads[t].pc) && NextPc(s, t, m).Releasing?
    ensures m == Flock ==> s.threads[t].pc.Flocking? && NextPc(s, t, m) == Flocked(s.threads[t].pc.fd)
  {
    hide Permits; hide LockIds;
  }

  lemma FlockEffects(s: State, t: nat, m: Move)
    requires CanMove(s, t, m)
    ensures m != Flock && m != Unlock && m != Close ==> NextFlocks(s, t, m) == s.flocks
    ensures m == Unlock || m == Close ==>
      HoldsFlock(s.threads[t].pc) && NextFlocks(s, t, m) == Freed(s, s.threads[t].pc.fd)
    ensures m == RaiseEarly ==>
      HoldsFlock(s.threads[t].pc) && NextOrphans(s, t, m) == s.orphans[t := s.threads[t].pc.fd]
    ensures m != RaiseEarly ==> NextOrphans(s, t, m) == s.orphans
  {
    hide Permits; hide LockIds; hide NextPc; hide Freed;
  }

  lemma KeepsOwned(s: State, t: nat, m: Move)
    requires OwnedInv(s) && OrphanInv(s) && t in s.threads && CanMove(s, t, m)
    ensures OwnedInv(Moved(s, t, m))
  {
    hide CanMove; hide NextPc; hide NextLocks; hide NextFds; hide NextFlocks; hide NextPermits; hide NextOrphans;
    hide OrphanInv;
    FlockMoves(s, t, m);
    FlockEffects(s, t, m);
    var s1 := Moved(s, t, m);
    forall i | i in s1.flocks
      ensures s1.flocks[i].instance == i && (HeldByThread(s1, s1.flocks[i]) || HeldByOrphan(s1, s1.flocks[i]))
    {
      if m == Flock && i == s.threads[t].pc.fd.instance {
        FlockTaken(s, t);
        assert HoldsFlock(s1.threads[t].pc);
      } else {
        FlockUntouched(s, t, m, i);
        OwnerStays(s, t, m, i);
      }
    }
  }

  lemma FlockTaken(s: State, t: nat)
    requires CanMove(s, t, Flock)
    ensures var fd := s.threads[t].pc.fd;
      HoldsFlock(NextPc(s, t, Flock)) && NextPc(s, t, Flock).fd == fd && fd.instance in NextFlocks(s, t, Flock)
      && NextFlocks(s, t, Flock)[fd.instance] == fd
  {}

  lemma FlockUntouched(s: State, t: nat, m: Move, i: int)
    requires CanMove(s, t, m) && i in NextFlocks(s, t, m) && !(m == Flock && i == s.threads[t].pc.fd.instance)
    ensures i in s.flocks && NextFlocks(s, t, m)[i] == s.flocks[i]
    ensures m == Unlock || m == Close ==> s.flocks[i].instance == i ==> s.flocks[i] != s.threads[t].pc.fd
  {
    hide NextPc; hide Permits;
  }

  /** The owner of a lock file the move does not free is still an owner. */
  lemma OwnerStays(s: State, t: nat, m: Move, i: int)
    requires OwnedInv(s) && OrphanInv(s) && t in s.threads && CanMove(s, t, m) && i in s.flocks
    requires m == Unlock || m == Close ==> s.flocks[i] != s.threads[t].pc.fd
    ensures var s1 := Moved(s, t, m); HeldByThread(s1, s.flocks[i]) || HeldByOrphan(s1, s.flocks[i])
  {
    hide CanMove; hide NextPc; hide NextLocks; hide NextFds; hide NextFlocks; hide NextPermits; hide NextOrphans;
    FlockMoves(s, t, m);
    FlockEffects(s, t, m);
    var s1, fd := Moved(s, t, m), s.flocks[i];
    if HeldByThread(s, fd) {
      var u :| u in s.threads && HoldsFlock(s.threads[u].pc) && s.threads[u].pc.fd == fd;
      if u != t {
        assert HoldsFlock(s1.threads[u].pc);
      } else if m == RaiseEarly {
        assert s1.orphans[t] == fd;
      } else {
        assert m == Flock ==> false by { if m == Flock { FlockingHoldsNothing(s, t); } }
        assert HoldsFlock(s1.threads[t].pc);
      }
    } else {
      var u :| u in s.orphans && s.orphans[u] == fd;
      assert u in s1.orphans && s1.orphans[u] == fd by { if u == t && m == RaiseEarly { OrphanHasLeft(s, t); } }
    }
  }

  lemma FlockingHoldsNothing(s: State, t: nat)
    requires CanMove(s, t, Flock)
    ensures !HoldsFlock(s.threads[t].pc)
  {}

  lemma OrphanHasLeft(s: State, t: nat)
    requires OrphanInv(s) && t in s.orphans
    ensures !CanMove(s, t, RaiseEarly)
  {}

  lemma KeepsOrphans(s: State, t: nat, m: Move)
    requires OrphanInv(s) && ShapeInv(s) && CanMove(s, t, m)
    ensures OrphanInv(Moved(s, t, m))
  {
    hide NextLocks; hide NextFds; hide NextFlocks; hide NextPermits; hide Proper; hide Permits;
    assert Shape(s.threads[t]);
    assert m == RaiseEarly ==> NextPc(s, t, m).Releasing?;
    assert s.threads[t].pc.Releasing? ==> NextPc(s, t, m).Releasing? || NextPc(s, t, m).Done?;
  }

  lemma PermitMoves(s: State, t: nat, m: Move)
    requires CanMove(s, t, m)
    ensures s.threads[t].pc.Online? <==> m == GoOffline
    ensures NextPc(s, t, m).Online? <==> m == GoOnline
    ensures m == GoOnline || m == GoOffline ==> s.threads[t].task.Backup? && s.threads[t].task.host.Some?
    ensures m == GoOnline ==> |Permits(s, HostSlot(s.threads[t].proc, s.threads[t].task.host.value))| < HOST_CONCURRENCY
  {}

  lemma KeepsPermits(s: State, t: nat, m: Move)
    requires PermitInv(s) && t in s.threads && CanMove(s, t, m)
    ensures PermitInv(Moved(s, t, m))
  {
    hide NextFds; hide NextLocks; hide NextFlocks; hide NextOrphans; hide CanMove; hide NextPc;
    var s1 := Moved(s, t, m);
    PermitMoves(s, t, m);
    forall q, u ensures u in Permits(s1, q) <==> OnlineAt(s1, q, u) {
      assert u in Permits(s, q) <==> OnlineAt(s, q, u);
    }
  }

  lemma MoveKeepsCore(s: State, t: nat, m: Move)
    requires Core(s) && CanMove(s, t, m)
    ensures Core(Moved(s, t, m))
  {
    assert t in s.threads;
    hide ShapeInv; hide LockInv; hide CacheInv; hide OwnedInv; hide OrphanInv; hide PermitInv; hide Moved; hide CanMove;
    KeepsShape(s, t, m);
    KeepsLocks(s, t, m);
    KeepsCache(s, t, m);
    KeepsOwned(s, t, m);
    KeepsOrphans(s, t, m);
    KeepsPermits(s, t, m);
  }

  // ---- spawning, crashing and late unlocking keep the core ----

  lemma NewThread(proc: nat, task: Task)
    requires Proper(task)
    ensures Shape(Thread(proc, task, Acquiring(0))) && forall id :: !Holds(Thread(proc, task, Acquiring(0)), id)
  {}

  lemma SpawnKeepsKernel(s: State, t: nat, proc: nat, task: Task)
    requires OwnedInv(s) && PermitInv(s) && t !in s.threads
    ensures OwnedInv(Do(s, Spawn(t, proc, task))) && PermitInv(Do(s, Spawn(t, proc, task)))
  {
    var s1 := Do(s, Spawn(t, proc, task));
    forall i | i in s1.flocks ensures HeldByThread(s1, s1.flocks[i]) || HeldByOrphan(s1, s1.flocks[i]) {
      if HeldByThread(s, s.flocks[i]) {
        var u :| u in s.threads && HoldsFlock(s.threads[u].pc) && s.threads[u].pc.fd == s.flocks[i];
        assert HoldsFlock(s1.threads[u].pc);
      }
    }
    forall q, u ensures u in Permits(s1, q) <==> OnlineAt(s1, q, u) {
      assert u in Permits(s, q) <==> OnlineAt(s, q, u);
    }
  }

  lemma SpawnKeepsCore(s: State, t: nat, proc: nat, task: Task)
    requires Core(s) && t !in s.threads && Proper(task)
    ensures Core(Do(s, Spawn(t, proc, task)))
  {
    hide Shape; hide OwnedInv; hide PermitInv; hide Holds; hide Proper;
    SpawnKeepsKernel(s, t, proc, task);
    NewThread(proc, task);
  }

  lemma CrashKeepsTables(s: State, p: nat)
    requires Core(s)
    ensures var s1 := CrashOf(s, p); ShapeInv(s1) && LockInv(s1) && CacheInv(s1) && OrphanInv(s1)
  {
    hide OwnedInv; hide PermitInv; hide Holds; hide Shape;
  }

  lemma CrashKeepsOwned(s: State, p: nat)
    requires Core(s)
    ensures OwnedInv(CrashOf(s, p))
  {
    hide LockInv; hide CacheInv; hide PermitInv;
    var s1 := CrashOf(s, p);
    forall i | i in s1.flocks ensures HeldByThread(s1, s1.flocks[i]) || HeldByOrphan(s1, s1.flocks[i]) {
      if HeldByThread(s, s.flocks[i]) {
        var u :| u in s.threads && HoldsFlock(s.threads[u].pc) && s.threads[u].pc.fd == s.flocks[i];
        assert Shape(s.threads[u]);
        assert u in s1.threads && HoldsFlock(s1.threads[u].pc);
      } else {
        var u :| u in s.orphans && s.orphans[u] == s.flocks[i];
        assert u in s1.orphans;
      }
    }
  }

  lemma CrashKeepsPermits(s: State, p: nat)
    requires PermitInv(s)
    ensures PermitInv(CrashOf(s, p))
  {
    var s1 := CrashOf(s, p);
    forall q, t ensures t in Permits(s1, q) <==> OnlineAt(s1, q, t) {
      assert Permits(s1, q) == if q.proc == p then {} else Permits(s, q);
      assert t in Permits(s, q) <==> OnlineAt(s, q, t);
    }
  }

  lemma CrashKeepsCore(s: State, p: nat)
    requires Core(s)
    ensures Core(CrashOf(s, p))
  {
    hide ShapeInv; hide LockInv; hide CacheInv; hide OwnedInv; hide OrphanInv; hide PermitInv;
    CrashKeepsTables(s, p);
    CrashKeepsOwned(s, p);
    CrashKeepsPermits(s, p);
  }

  lemma LateUnlockKeepsCore(s: State, t: nat, ok: bool)
    requires Core(s) && t in s.orphans
    ensures Core(UnlockLate(s, t, ok))
  {
    hide LockInv; hide Shape;
    var s1, fd := UnlockLate(s, t, ok), s.orphans[t];
    assert LockInv(s1) by { SameTables(s, s1); }
    forall i | i in s1.flocks ensures HeldByThread(s1, s1.flocks[i]) || HeldByOrphan(s1, s1.flocks[i]) {
      assert s.flocks[i] != fd;
      if !HeldByThread(s, s.flocks[i]) {
        var u :| u in s.orphans && s.orphans[u] == s.flocks[i];
        assert u in s1.orphans && s1.orphans[u] == s.flocks[i];
      } else {
        var u :| u in s.threads && HoldsFlock(s.threads[u].pc) && s.threads[u].pc.fd == s.flocks[i];
        assert HoldsFlock(s1.threads[u].pc);
      }
    }
    forall q, u ensures u in Permits(s1, q) <==> OnlineAt(s1, q, u) {
      assert u in Permits(s, q) <==> OnlineAt(s, q, u);
    }
  }

  lemma SameTables(s: State, s1: State)
    requires LockInv(s) && s1.threads == s.threads && s1.locks == s.locks
    ensures LockInv(s1)
  {}

  /** Every step of every thread, early raises and late unlocks included, every spawn and every
      crash keeps the core. */
  lemma StepKeepsCore(s: State, a: Action)
    requires Core(s) && Enabled(s, a)
    ensures Core(Do(s, a))
  {
    hide Core;
    match a
    case Spawn(t, proc, task) => SpawnKeepsCore(s, t, proc, task);
    case Crash(p) => CrashKeepsCore(s, p);
    case Step(t, m) => MoveKeepsCore(s, t, m);
    case LateUnlock(t, ok) => LateUnlockKeepsCore(s, t, ok);
  }

  // ---- who shares what ----

  /** Two threads that hold the same instance lock of one process are the same thread. */
  lemma OneOwner(s: State, t: nat, u: nat, id: int)
    requires LockInv(s) && t in s.threads && u in s.threads && s.threads[t].proc == s.threads[u].proc
    requires Holds(s.threads[t], id) && Holds(s.threads[u], id)
    ensures t == u
  {}

  lemma BackupHolds(th: Thread)
    requires Shape(th) && (th.pc.NeedFd? || HasFd(th.pc))
    ensures Holds(th, th.task.instance)
  {
    assert LockIds(th.task)[0] == th.task.instance;
  }

  /** In one process at most one thread is between opening and closing an instance's lock file. */
  lemma OneUser(s: State, t: nat, u: nat)
    requires ShapeInv(s) && LockInv(s) && t in s.threads && u in s.threads && s.threads[t].proc == s.threads[u].proc
    requires HasFd(s.threads[t].pc) && HasFd(s.threads[u].pc)
    requires s.threads[t].pc.fd.instance == s.threads[u].pc.fd.instance
    ensures t == u
  {
    hide Holds; hide LockInv;
    assert Shape(s.threads[t]) && Shape(s.threads[u]);
    BackupHolds(s.threads[t]);
    BackupHolds(s.threads[u]);
    OneOwner(s, t, u, s.threads[t].task.instance);
  }

  /** As long as no thread raised early, a lock file has one thread past its flock call. */
  lemma OneHolder(s: State, t: nat, u: nat)
    requires Inv(s) && t in s.threads && u in s.threads && HoldsFlock(s.threads[t].pc) && HoldsFlock(s.threads[u].pc)
    requires s.threads[t].pc.fd.instance == s.threads[u].pc.fd.instance
    ensures t == u
  {
    hide LockInv; hide CacheInv; hide PermitInv; hide OwnedInv; hide OrphanInv; hide CachedInv;
    assert HeldBy(s, s.threads[t].pc.fd) && HeldBy(s, s.threads[u].pc.fd);
    assert Shape(s.threads[t]) && Shape(s.threads[u]);
    OneUser(s, t, u);
  }

  // ---- every step but an early raise keeps the rest ----

  lemma FdMoves(s: State, t: nat, m: Move)
    requires CanMove(s, t, m)
    ensures var pc, pc1 := s.threads[t].pc, NextPc(s, t, m);
      m != Open && HasFd(pc1) ==> HasFd(pc) && pc1.fd == pc.fd && !pc.Uncached? && (pc1.Uncached? <==> m == Uncache)
  {
    hide Permits; hide LockIds;
  }

  lemma MoverUsesCached(s: State, t: nat, m: Move)
    requires CacheInv(s) && OpenInv(s) && t in s.threads && CanMove(s, t, m) && UsesCached(s, s.threads[t])
    ensures var s1 := Moved(s, t, m); UsesCached(s1, s1.threads[t])
  {
    hide CanMove; hide NextPc; hide NextLocks; hide NextFlocks; hide NextPermits; hide NextOrphans;
    FdMoves(s, t, m);
    if m == Open { OpenedIsCached(s, t); }
  }

  lemma OpenedIsCached(s: State, t: nat)
    requires CanMove(s, t, Open) && CacheInv(s) && OpenInv(s)
    ensures s.threads[t].task.Backup? && NextPc(s, t, Open).Flocking?
    ensures NextPc(s, t, Open).fd.instance == s.threads[t].task.instance && NextPc(s, t, Open).fd.serial <= s.serial
    ensures Slot(s.threads[t].proc, s.threads[t].task.instance) in NextFds(s, t, Open)
    ensures NextFds(s, t, Open)[Slot(s.threads[t].proc, s.threads[t].task.instance)] == NextPc(s, t, Open).fd
  {}

  /** While one thread of a process has an instance's descriptor, no other opens or drops it. */
  lemma AloneOnSlot(s: State, t: nat, m: Move, u: nat)
    requires ShapeInv(s) && LockInv(s) && t in s.threads && CanMove(s, t, m) && (m == Open || m == Uncache)
    requires u in s.threads && u != t && HasFd(s.threads[u].pc) && s.threads[u].proc == s.threads[t].proc
    ensures m == Open ==> s.threads[u].pc.fd.instance != s.threads[t].task.instance
    ensures m == Uncache ==> HasFd(s.threads[t].pc) && s.threads[u].pc.fd.instance != s.threads[t].pc.fd.instance
  {
    hide LockInv; hide Holds; hide Permits;
    assert Shape(s.threads[t]) && Shape(s.threads[u]);
    BackupHolds(s.threads[u]);
    BackupHolds(s.threads[t]);
    if s.threads[u].task.instance == s.threads[t].task.instance { OneOwner(s, t, u, s.threads[t].task.instance); }
  }

  lemma OtherUsesCached(s: State, t: nat, m: Move, u: nat)
    requires ShapeInv(s) && LockInv(s) && CanMove(s, t, m) && u in s.threads && u != t && UsesCached(s, s.threads[u])
    ensures UsesCached(Moved(s, t, m), s.threads[u])
  {
    hide NextLocks; hide NextFlocks; hide NextPermits; hide NextOrphans; hide NextPc; hide LockInv; hide ShapeInv;
    hide Permits;
    if HasFd(s.threads[u].pc) && s.threads[u].proc == s.threads[t].proc && (m == Open || m == Uncache) {
      AloneOnSlot(s, t, m, u);
    }
  }

  lemma KeepsOpen(s: State, t: nat, m: Move)
    requires OpenInv(s) && CacheInv(s) && ShapeInv(s) && CanMove(s, t, m) && UsesCached(s, s.threads[t])
    ensures OpenInv(Moved(s, t, m))
  {
    hide NextLocks; hide NextFlocks; hide NextPermits; hide NextOrphans; hide NextPc; hide Permits; hide Proper;
    hide LockIds;
    assert Shape(s.threads[t]);
  }

  lemma CorePart(s: State)
    requires Core(s)
    ensures ShapeInv(s) && CacheInv(s) && LockInv(s)
  {}

  lemma KeepsCached(s: State, t: nat, m: Move)
    requires Inv(s) && t in s.threads && CanMove(s, t, m)
    ensures CachedInv(Moved(s, t, m)) && OpenInv(Moved(s, t, m))
  {
    hide Core; hide HolderInv; hide CanMove; hide NextPc; hide NextLocks; hide NextFds; hide NextFlocks;
    hide NextPermits; hide NextOrphans;
    hide UsesCached; hide OpenInv;
    var s1 := Moved(s, t, m);
    CorePart(s);
    forall u | u in s1.threads ensures UsesCached(s1, s1.threads[u]) {
      assert UsesCached(s, s.threads[u]);
      if u == t { MoverUsesCached(s, t, m); } else { OtherUsesCached(s, t, m, u); }
    }
    assert UsesCached(s, s.threads[t]);
    KeepsOpen(s, t, m);
  }

  lemma KeepsHolders(s: State, t: nat, m: Move)
    requires Inv(s) && t in s.threads && CanMove(s, t, m) && m != RaiseEarly
    ensures HolderInv(Moved(s, t, m))
  {
    hide Core; hide CachedInv; hide CanMove; hide NextPc; hide NextLocks; hide NextFds; hide NextFlocks;
    hide NextPermits; hide NextOrphans;
    var s1 := Moved(s, t, m);
    FlockMoves(s, t, m);
    FlockEffects(s, t, m);
    forall u | u in s1.threads && HoldsFlock(s1.threads[u].pc) ensures HeldBy(s1, s1.threads[u].pc.fd) {
      assert HoldsFlock(s.threads[u].pc) ==> HeldBy(s, s.threads[u].pc.fd);
      if m == Flock {
        FlockTaken(s, t);
        if u != t { OtherFile(s, t, u); }
      } else if m == Unlock || m == Close {
        assert u != t by { ReleasingHoldsNothing(s1.threads[t].pc); }
        if s.threads[u].pc.fd.instance == s.threads[t].pc.fd.instance { OneHolder(s, t, u); }
        FreedElsewhere(s, s.threads[t].pc.fd, s.threads[u].pc.fd.instance);
      }
    }
  }

  lemma ReleasingHoldsNothing(pc: Pc)
    requires pc.Releasing?
    ensures !HoldsFlock(pc)
  {}

  lemma FreedElsewhere(s: State, fd: Fd, i: int)
    requires i != fd.instance
    ensures (i in Freed(s, fd) <==> i in s.flocks) && (i in s.flocks ==> Freed(s, fd)[i] == s.flocks[i])
  {}

  /** A flock call that succeeds takes the file from nobody: another holder is on another file. */
  lemma OtherFile(s: State, t: nat, u: nat)
    requires Inv(s) && CanMove(s, t, Flock) && u in s.threads && u != t && HoldsFlock(s.threads[u].pc)
    ensures s.threads[u].pc.fd.instance != s.threads[t].pc.fd.instance
    ensures s.threads[u].pc.fd.instance in NextFlocks(s, t, Flock)
    ensures NextFlocks(s, t, Flock)[s.threads[u].pc.fd.instance] == s.threads[u].pc.fd
  {
    hide LockInv; hide CacheInv; hide PermitInv; hide OwnedInv; hide OrphanInv; hide CachedInv;
    assert HeldBy(s, s.threads[u].pc.fd);
    assert Shape(s.threads[t]) && Shape(s.threads[u]);
    if s.threads[u].pc.fd.instance == s.threads[t].pc.fd.instance { OneUser(s, t, u); }
  }

  lemma MoveKeepsInv(s: State, t: nat, m: Move)
    requires Inv(s) && CanMove(s, t, m) && m != RaiseEarly
    ensures Inv(Moved(s, t, m))
  {
    assert t in s.threads;
    FlockMoves(s, t, m);
    FlockEffects(s, t, m);
    hide Core; hide CachedInv; hide HolderInv; hide CanMove; hide NextPc; hide NextLocks; hide NextFds;
    hide NextFlocks; hide NextPermits; hide NextOrphans;
    MoveKeepsCore(s, t, m);
    KeepsCached(s, t, m);
    KeepsHolders(s, t, m);
  }

  lemma SpawnKeepsInv(s: State, t: nat, proc: nat, task: Task)
    requires Inv(s) && t !in s.threads && Proper(task)
    ensures Inv(Do(s, Spawn(t, proc, task)))
  {
    hide Core; hide Proper;
    SpawnKeepsCore(s, t, proc, task);
    assert forall u | u in s.threads :: UsesCached(s, s.threads[u]);
  }

  lemma CrashKeepsInv(s: State, p: nat)
    requires Inv(s)
    ensures Inv(CrashOf(s, p))
  {
    CrashKeepsCore(s, p);
    hide LockInv; hide OwnedInv; hide PermitInv; hide OrphanInv;
    var s1 := CrashOf(s, p);
    forall t | t in s1.threads
      ensures UsesCached(s1, s1.threads[t]) && (HoldsFlock(s1.threads[t].pc) ==> HeldBy(s1, s1.threads[t].pc.fd))
    {
      assert UsesCached(s, s.threads[t]) && Shape(s.threads[t]);
    }
  }

  /** Every step that is not an early raise keeps lock tables, descriptor caches, kernel locks
      and permits in agreement with the threads. */
  lemma StepKeepsInv(s: State, a: Action)
    requires Inv(s) && Enabled(s, a) && !IsEarlyRaise(a)
    ensures Inv(Do(s, a))
  {
    match a
    case Spawn(t, proc, task) => hide Inv; SpawnKeepsInv(s, t, proc, task);
    case Crash(p) => hide Inv; CrashKeepsInv(s, p);
    case Step(t, m) => hide Inv; MoveKeepsInv(s, t, m);
    case LateUnlock(t, ok) => assert false;
  }
}
