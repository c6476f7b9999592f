/** What the lock protocol guarantees over whole runs, and where the guarantee ends. */
module LockSafety {
  import opened Basics
  import opened Locks

  lemma StartInv()
    ensures Inv(START)
  {}

  lemma {:induction false} ReachableCore(actions: seq<Action>, s: State)
    requires Run(actions, s)
    ensures Core(s)
  {
    hide Core;
    if actions == [] {
      StartInv();
      InvCore(START);
    } else {
      var n := |actions| - 1;
      var before :| Run(actions[..n], before) && Enabled(before, actions[n]) && s == Do(before, actions[n]);
      ReachableCore(actions[..n], before);
      StepKeepsCore(before, actions[n]);
    }
  }

  lemma InvCore(s: State)
    requires Inv(s)
    ensures Core(s)
  {}

  lemma {:induction false} ReachableInv(actions: seq<Action>, s: State)
    requires Run(actions, s) && NoEarlyRaise(actions)
    ensures Inv(s)
  {
    hide Inv;
    if actions == [] {
      StartInv();
    } else {
      var n := |actions| - 1;
      var before :| Run(actions[..n], before) && Enabled(before, actions[n]) && s == Do(before, actions[n]);
      ReachableInv(actions[..n], before);
      StepKeepsInv(before, actions[n]);
    }
  }

  // ---- mutual exclusion ----

  /** At most one thread of all processes is inside the locked part for an instance. */
  ghost predicate Exclusive(s: State) {
    forall t, u | t in s.threads && u in s.threads && BothInside(s, t, u) :: t == u
  }

  ghost predicate BothInside(s: State, t: nat, u: nat)
    requires t in s.threads && u in s.threads
  {
    && Inside(s.threads[t].pc) && Inside(s.threads[u].pc) && s.threads[t].task.Backup? && s.threads[u].task.Backup?
    && s.threads[t].task.instance == s.threads[u].task.instance
  }

  lemma InvExclusive(s: State)
    requires Inv(s)
    ensures Exclusive(s)
  {
    forall t, u | t in s.threads && u in s.threads && BothInside(s, t, u) ensures t == u {
      assert Shape(s.threads[t]) && Shape(s.threads[u]);
      OneHolder(s, t, u);
    }
  }

  /** In every interleaving of every set of processes and threads, with crashes and failing
      unlocks but without an exception between a file lock and its try block, exclusion holds. */
  lemma MutualExclusion(actions: seq<Action>, s: State)
    requires Run(actions, s) && NoEarlyRaise(actions)
    ensures Exclusive(s)
  {
    ReachableInv(actions, s);
    InvExclusive(s);
  }

  // ---- runs written out ----

  lemma Extend(actions: seq<Action>, s: State, a: Action)
    requires Run(actions, s) && Enabled(s, a)
    ensures Run(actions + [a], Do(s, a))
  {
    var longer := actions + [a];
    assert longer[..|longer| - 1] == actions;
  }

  lemma EmptyRun()
    ensures Run([], START)
  {}

  /** The steps that take a new backup thread through its locks into the locked part. */
  function EnterSteps(t: nat, proc: nat, task: Task): seq<Action> {
    [Spawn(t, proc, task), Step(t, Acquire), Step(t, Begin), Step(t, Open), Step(t, Flock)]
  }

  /** The description a backup thread of process proc will use. */
  function NextFd(s: State, proc: nat, i: int): Fd {
    if Slot(proc, i) in s.fds then s.fds[Slot(proc, i)] else Fd(proc, i, s.serial)
  }

  function Began(s: State, t: nat, proc: nat, task: Task, id: int): State {
    s.(threads := s.threads[t := Thread(proc, task, if task.Backup? then NeedFd else Working)],
       locks := s.locks[Slot(proc, id) := t], serial := s.serial + 2)
  }

  lemma TakesLock(actions: seq<Action>, s: State, t: nat, proc: nat, task: Task, id: int)
    requires Run(actions, s) && t !in s.threads && Proper(task) && LockIds(task) == [id] && Slot(proc, id) !in s.locks
    ensures Run(actions + [Spawn(t, proc, task), Step(t, Acquire), Step(t, Begin)], Began(s, t, proc, task, id))
  {
    hide Run; hide Proper;
    var a, b, c := Spawn(t, proc, task), Step(t, Acquire), Step(t, Begin);
    var sa := s.(threads := s.threads[t := Thread(proc, task, Acquiring(0))]);
    Extend(actions, s, a);
    AcquireOne(sa, t, id);
    var sb := Do(sa, b);
    Extend(actions + [a], sa, b);
    BeginOne(sb, t);
    Extend(actions + [a] + [b], sb, c);
    assert actions + [a] + [b] + [c] == actions + [a, b, c];
    assert Do(sb, c) == Began(s, t, proc, task, id) by {
      assert s.threads[t := Thread(proc, task, Acquiring(0))].Keys == s.threads.Keys + {t};
    }
  }

  lemma AcquireOne(s: State, t: nat, id: int)
    requires t in s.threads && s.threads[t].pc == Acquiring(0) && LockIds(s.threads[t].task) == [id]
    requires Slot(s.threads[t].proc, id) !in s.locks
    ensures CanMove(s, t, Acquire)
    ensures Moved(s, t, Acquire) ==
      s.(threads := s.threads[t := s.threads[t].(pc := Acquiring(1))],
          locks := s.locks[Slot(s.threads[t].proc, id) := t], serial := s.serial + 1)
  {}

  lemma BeginOne(s: State, t: nat)
    requires t in s.threads && s.threads[t].pc == Acquiring(1) && |LockIds(s.threads[t].task)| == 1
    ensures CanMove(s, t, Begin)
    ensures Moved(s, t, Begin) ==
      s.(threads := s.threads[t := s.threads[t].(pc := if s.threads[t].task.Backup? then NeedFd else Working)],
          serial := s.serial + 1)
  {}

  function FileTaken(s: State, t: nat, fd: Fd): State
    requires t in s.threads
  {
    s.(threads := s.threads[t := s.threads[t].(pc := Flocked(fd))],
        fds := s.fds[Slot(s.threads[t].proc, fd.instance) := fd],
       flocks := s.flocks[fd.instance := fd], serial := s.serial + 2)
  }

  /** The description is open and its file free or already its own. */
  ghost predicate Takable(s: State, fd: Fd, i: int) {
    fd !in s.closed && fd.instance == i && (i in s.flocks ==> s.flocks[i] == fd)
  }

  lemma OpenOne(s: State, t: nat)
    requires t in s.threads && s.threads[t].pc == NeedFd && s.threads[t].task.Backup?
    ensures CanMove(s, t, Open)
    ensures var th := s.threads[t]; var fd := NextFd(s, th.proc, th.task.instance);
      Moved(s, t, Open) == s.(threads := s.threads[t := th.(pc := Flocking(fd))],
          fds := s.fds[Slot(th.proc, th.task.instance) := fd], serial := s.serial + 1)
  {
    var th := s.threads[t];
    var slot := Slot(th.proc, th.task.instance);
    if slot in s.fds { assert s.fds[slot := s.fds[slot]] == s.fds; }
  }

  lemma FlockOne(s: State, t: nat)
    requires t in s.threads && s.threads[t].pc.Flocking? && Takable(s, s.threads[t].pc.fd, s.threads[t].pc.fd.instance)
    ensures CanMove(s, t, Flock)
    ensures var th := s.threads[t];
      Moved(s, t, Flock) == s.(threads := s.threads[t := th.(pc := Flocked(th.pc.fd))],
          flocks := s.flocks[th.pc.fd.instance := th.pc.fd], serial := s.serial + 1)
  {}

  lemma TakesFile(actions: seq<Action>, s: State, t: nat)
    requires Run(actions, s) && t in s.threads && s.threads[t].pc == NeedFd && s.threads[t].task.Backup?
    requires Takable(s, NextFd(s, s.threads[t].proc, s.threads[t].task.instance), s.threads[t].task.instance)
    ensures Run(actions + [Step(t, Open), Step(t, Flock)],
        FileTaken(s, t, NextFd(s, s.threads[t].proc, s.threads[t].task.instance)))
  {
    hide Run; hide CanMove; hide Moved; hide NextFd;
    var a, b := Step(t, Open), Step(t, Flock);
    OpenOne(s, t);
    Extend(actions, s, a);
    var sa := Do(s, a);
    FlockOne(sa, t);
    Extend(actions + [a], sa, b);
    assert actions + [a] + [b] == actions + [a, b];
    assert Do(sa, b) == FileTaken(s, t, NextFd(s, s.threads[t].proc, s.threads[t].task.instance));
  }

  lemma ProperBackup(task: Task)
    requires Proper(task) && task.Backup?
    ensures LockIds(task) == [task.instance]
  {}

  /** The state after a new backup thread went through its locks into the locked part. */
  function Entered(s: State, t: nat, proc: nat, task: Task): State
    requires task.Backup?
  {
    FileTaken(Began(s, t, proc, task, task.instance), t, EnterFd(s, proc, task.instance))
  }

  function EnterFd(s: State, proc: nat, i: int): Fd {
    if Slot(proc, i) in s.fds then s.fds[Slot(proc, i)] else Fd(proc, i, s.serial + 2)
  }

  lemma BeganReady(s: State, t: nat, proc: nat, task: Task)
    requires task.Backup? && Takable(s, EnterFd(s, proc, task.instance), task.instance)
    ensures var sa := Began(s, t, proc, task, task.instance);
      && t in sa.threads && sa.threads[t] == Thread(proc, task, NeedFd)
      && NextFd(sa, proc, task.instance) == EnterFd(s, proc, task.instance)
      && Takable(sa, EnterFd(s, proc, task.instance), task.instance)
  {}

  /** A backup thread nobody stands in the way of reaches the locked part. */
  lemma Enters(actions: seq<Action>, s: State, t: nat, proc: nat, task: Task)
    requires Run(actions, s) && t !in s.threads && task.Backup? && Proper(task) && Slot(proc, task.instance) !in s.locks
    requires Takable(s, EnterFd(s, proc, task.instance), task.instance)
    ensures Run(actions + EnterSteps(t, proc, task), Entered(s, t, proc, task))
  {
    ProperBackup(task);
    hide Run; hide Proper; hide LockIds; hide CanMove; hide FileTaken; hide Began; hide Takable; hide NextFd;
    hide EnterFd; hide EnterSteps;
    var first := [Spawn(t, proc, task), Step(t, Acquire), Step(t, Begin)];
    TakesLock(actions, s, t, proc, task, task.instance);
    BeganReady(s, t, proc, task);
    TakesFile(actions + first, Began(s, t, proc, task, task.instance), t);
    EnterSplits(actions, t, proc, task);
  }

  lemma EnterSplits(actions: seq<Action>, t: nat, proc: nat, task: Task)
    ensures actions + [Spawn(t, proc, task), Step(t, Acquire), Step(t, Begin)] + [Step(t, Open), Step(t, Flock)] ==
            actions + EnterSteps(t, proc, task)
  {}

  lemma {:induction false} FreshNat(used: set<nat>) returns (n: nat)
    ensures n !in used
  {
    n := 0;
    if used != {} {
      var top := LargestNat(used);
      n := top + 1;
      assert n in used ==> n <= top;
    }
  }

  lemma {:induction false} LargestNat(used: set<nat>) returns (n: nat)
    requires used != {}
    ensures n in used && forall k | k in used :: k <= n
  {
    var first :| first in used;
    n := first;
    if used != {first} {
      var m := LargestNat(used - {first});
      if m > n { n := m; }
    }
    forall k | k in used ensures k <= n { assert k == first || k in used - {first}; }
  }

  // ---- an early raise breaks exclusion ----

  function Orphaned(s: State, t: nat, fd: Fd): State
    requires t in s.threads
  {
    s.(threads := s.threads[t := s.threads[t].(pc := Releasing(0))],
        locks := s.locks - {Slot(s.threads[t].proc, fd.instance)},
       orphans := s.orphans[t := fd], serial := s.serial + 2)
  }

  lemma RaiseOne(s: State, t: nat)
    requires t in s.threads && s.threads[t].pc.Flocked? && |LockIds(s.threads[t].task)| == 1
    ensures CanMove(s, t, RaiseEarly)
    ensures Moved(s, t, RaiseEarly) ==
      s.(threads := s.threads[t := s.threads[t].(pc := Releasing(1))], orphans := s.orphans[t := s.threads[t].pc.fd],
          serial := s.serial + 1)
  {}

  lemma ReleaseOne(s: State, t: nat)
    requires t in s.threads && s.threads[t].pc == Releasing(1) && |LockIds(s.threads[t].task)| == 1
    ensures CanMove(s, t, Release)
    ensures Moved(s, t, Release) ==
      s.(threads := s.threads[t := s.threads[t].(pc := Releasing(0))],
          locks := s.locks - {Slot(s.threads[t].proc, LockIds(s.threads[t].task)[0])}, serial := s.serial + 1)
  {
    assert CanMove(s, t, Release) && NextPc(s, t, Release) == Releasing(0);
    hide CanMove; hide LockIds; hide NextPc;
    assert NextFds(s, t, Release) == s.fds && NextFlocks(s, t, Release) == s.flocks;
    assert NextPermits(s, t, Release) == s.permits && NextOrphans(s, t, Release) == s.orphans;
    hide NextFds; hide NextFlocks; hide NextPermits; hide NextOrphans;
  }

  lemma RaisesAndReleases(actions: seq<Action>, s: State, t: nat)
    requires Run(actions, s) && t in s.threads && s.threads[t].pc.Flocked?
    requires LockIds(s.threads[t].task) == [s.threads[t].pc.fd.instance]
    ensures Run(actions + [Step(t, RaiseEarly), Step(t, Release)], Orphaned(s, t, s.threads[t].pc.fd))
  {
    hide Run; hide CanMove; hide Moved; hide LockIds;
    var a, b := Step(t, RaiseEarly), Step(t, Release);
    RaiseOne(s, t);
    Extend(actions, s, a);
    var sa := Do(s, a);
    ReleaseOne(sa, t);
    Extend(actions + [a], sa, b);
    assert actions + [a] + [b] == actions + [a, b];
    assert Do(sa, b) == Orphaned(s, t, s.threads[t].pc.fd);
  }

  lemma UnlocksLate(actions: seq<Action>, s: State, t: nat) returns (s1: State)
    requires Run(actions, s) && t in s.orphans && s.orphans[t] !in s.closed && HeldBy(s, s.orphans[t])
    ensures Run(actions + [LateUnlock(t, true)], s1)
    ensures s1 == s.(flocks := s.flocks - {s.orphans[t].instance}, orphans := s.orphans - {t})
  {
    hide Run;
    Extend(actions, s, LateUnlock(t, true));
    s1 := Do(s, LateUnlock(t, true));
  }

  /** The first half: t raises, a new thread u of its process gets in on the same description,
      and the late unlock of t frees the file under it. */
  lemma FileFreedUnderThread(actions: seq<Action>, s: State, t: nat, u: nat) returns (s1: State)
    requires Run(actions, s) && Inv(s) && t in s.threads && CanMove(s, t, RaiseEarly) && u !in s.threads
    ensures var steps := EnterSteps(u, s.threads[t].proc, s.threads[t].task);
      Run(actions + [Step(t, RaiseEarly), Step(t, Release)] + steps + [LateUnlock(t, true)], s1)
    ensures s.threads[t].task.Backup? && Proper(s.threads[t].task) && s.threads[t].task.instance !in s1.flocks
    ensures u in s1.threads && s1.threads[u].task == s.threads[t].task && Inside(s1.threads[u].pc)
    ensures forall c | c in s1.closed :: c.serial < s1.serial
  {
    hide Run; hide Inv; hide CanMove; hide Proper; hide EnterSteps;
    InWindow(s, t);
    var th := s.threads[t];
    RaisesAndReleases(actions, s, t);
    var sa := Orphaned(s, t, th.pc.fd);
    var done := actions + [Step(t, RaiseEarly), Step(t, Release)];
    Enters(done, sa, u, th.proc, th.task);
    var sb := Entered(sa, u, th.proc, th.task);
    s1 := UnlocksLate(done + EnterSteps(u, th.proc, th.task), sb, t);
  }

  /** However the run got there: a thread that raises between its file lock and its try block can
      be followed by a second thread of its process on the same description, the late unlock, and
      a thread of another process, after which two are inside. */
  lemma EarlyRaiseBreaksExclusion(actions: seq<Action>, s: State, t: nat) returns (more: seq<Action>, s1: State)
    requires Run(actions, s) && NoEarlyRaise(actions) && Enabled(s, Step(t, RaiseEarly))
    ensures NoEarlyRaise(more) && Run(actions + [Step(t, RaiseEarly)] + more, s1) && !Exclusive(s1)
  {
    hide Run; hide NoEarlyRaise; hide Exclusive; hide Inv; hide CanMove; hide Proper; hide EnterSteps;
    ReachableInv(actions, s);
    MoverExists(s, t, RaiseEarly);
    var p, task := s.threads[t].proc, s.threads[t].task;
    var u := FreshNat(s.threads.Keys);
    var sc := FileFreedUnderThread(actions, s, t, u);
    var done := actions + [Step(t, RaiseEarly), Step(t, Release)] + EnterSteps(u, p, task) + [LateUnlock(t, true)];
    var v := FreshNat(sc.threads.Keys);
    var q := FreshProc(sc);
    Enters(done, sc, v, q, task);
    s1 := Entered(sc, v, q, task);
    more := [Step(t, Release)] + EnterSteps(u, p, task) + [LateUnlock(t, true)] + EnterSteps(v, q, task);
    assert done + EnterSteps(v, q, task) == actions + [Step(t, RaiseEarly)] + more;
    NoRaiseIn(t, u, p, v, q, task);
    TwoInside(s1, u, v);
  }

  lemma FreshProc(s: State) returns (q: nat)
    ensures forall i :: Slot(q, i) !in s.locks && Slot(q, i) !in s.fds
  {
    var used := (set k | k in s.locks :: k.proc) + (set k | k in s.fds :: k.proc);
    q := FreshNat(used);
    forall i ensures Slot(q, i) !in s.locks && Slot(q, i) !in s.fds {
      assert Slot(q, i).proc == q;
    }
  }

  lemma InWindow(s: State, t: nat)
    requires Inv(s) && CanMove(s, t, RaiseEarly)
    ensures t in s.threads && s.threads[t].pc.Flocked? && s.threads[t].task.Backup? && Proper(s.threads[t].task)
    ensures var th := s.threads[t]; var fd := th.pc.fd;
      && LockIds(th.task) == [fd.instance] && fd.instance == th.task.instance && fd !in s.closed && HeldBy(s, fd)
      && Slot(th.proc, fd.instance) in s.fds && s.fds[Slot(th.proc, fd.instance)] == fd
      && (forall c | c in s.closed :: c.serial < s.serial)
  {
    hide LockInv; hide OwnedInv; hide PermitInv;
    assert Shape(s.threads[t]) && UsesCached(s, s.threads[t]);
  }

  lemma NoRaiseIn(t: nat, u: nat, p: nat, v: nat, q: nat, task: Task)
    ensures NoEarlyRaise([Step(t, Release)] + EnterSteps(u, p, task) + [LateUnlock(t, true)] + EnterSteps(v, q, task))
  {}

  lemma TwoInside(s: State, u: nat, v: nat)
    requires u in s.threads && v in s.threads && u != v && BothInside(s, u, v)
    ensures !Exclusive(s)
  {}

  /** The exact guard: after a run without an early raise, a step keeps exclusion safe in every
      continuation that adds none if and only if the step is not an early raise itself. */
  lemma EarlyRaiseIsTheOnlyDanger(actions: seq<Action>, s: State, a: Action)
    requires Run(actions, s) && NoEarlyRaise(actions) && Enabled(s, a)
    ensures !IsEarlyRaise(a) <==> forall more, s1 | NoEarlyRaise(more) && Run(actions + [a] + more, s1) :: Exclusive(s1)
  {
    hide Run; hide Exclusive; hide Enabled;
    if IsEarlyRaise(a) {
      var more, s1 := EarlyRaiseBreaksExclusion(actions, s, a.t);
      assert !Exclusive(s1);
    } else {
      forall more, s1 | NoEarlyRaise(more) && Run(actions + [a] + more, s1) ensures Exclusive(s1) {
        MutualExclusion(actions + [a] + more, s1);
      }
    }
  }

  // ---- what holds in every run ----

  /** Within one process a re-encryption never works on an instance whose backup is inside. */
  lemma GuardedExcludesBackup(actions: seq<Action>, s: State, t: nat, u: nat)
    requires Run(actions, s) && t in s.threads && u in s.threads && s.threads[t].proc == s.threads[u].proc
    requires s.threads[t].pc.Working? && Inside(s.threads[u].pc)
    ensures s.threads[t].task.Guarded? && s.threads[u].task.Backup?
    ensures s.threads[u].task.instance !in s.threads[t].task.ids
  {
    hide Run; hide OwnedInv; hide PermitInv; hide LockInv; hide OrphanInv;
    ReachableCore(actions, s);
    assert Shape(s.threads[t]) && Shape(s.threads[u]);
    var i := s.threads[u].task.instance;
    if i in s.threads[t].task.ids {
      var k :| 0 <= k < |s.threads[t].task.ids| && s.threads[t].task.ids[k] == i;
      assert LockIds(s.threads[t].task)[k] == i;
      BackupHolds(s.threads[u]);
      OneOwner(s, t, u, i);
    }
  }

  /** No host ever sees more than two backups of one process at a time. */
  lemma HostCap(actions: seq<Action>, s: State, proc: nat, host: string, online: set<nat>)
    requires Run(actions, s)
    requires forall t | t in online :: OnlineAt(s, HostSlot(proc, host), t)
    ensures |online| <= 2
  {
    hide Run; hide OwnedInv; hide LockInv; hide ShapeInv; hide OrphanInv;
    ReachableCore(actions, s);
    SubsetSize(online, Permits(s, HostSlot(proc, host)));
  }

  /** A thread in the locked part that finds a permit goes on line. */
  function WentOnline(s: State, t: nat, q: HostSlot): State
    requires t in s.threads && s.threads[t].pc.Flocked?
  {
    s.(threads := s.threads[t := s.threads[t].(pc := Online(s.threads[t].pc.fd))],
       permits := s.permits[q := Permits(s, q) + {t}], serial := s.serial + 2)
  }

  lemma EnterTryOne(s: State, t: nat)
    requires t in s.threads && s.threads[t].pc.Flocked?
    ensures CanMove(s, t, EnterTry)
    ensures Moved(s, t, EnterTry) ==
      s.(threads := s.threads[t := s.threads[t].(pc := Trying(s.threads[t].pc.fd))], serial := s.serial + 1)
  {}

  lemma GoOnlineOne(s: State, t: nat, q: HostSlot)
    requires t in s.threads && s.threads[t].pc.Trying? && s.threads[t].task.Backup?
    requires s.threads[t].task.host == Some(q.host) && s.threads[t].proc == q.proc && |Permits(s, q)| < 2
    ensures CanMove(s, t, GoOnline)
    ensures Moved(s, t, GoOnline) ==
      s.(threads := s.threads[t := s.threads[t].(pc := Online(s.threads[t].pc.fd))],
          permits := s.permits[q := Permits(s, q) + {t}], serial := s.serial + 1)
  {}

  lemma GoesOnline(actions: seq<Action>, s: State, t: nat, q: HostSlot)
    requires Run(actions, s) && t in s.threads && s.threads[t].pc.Flocked? && s.threads[t].task.Backup?
    requires s.threads[t].task.host == Some(q.host) && s.threads[t].proc == q.proc && |Permits(s, q)| < 2
    ensures Run(actions + [Step(t, EnterTry), Step(t, GoOnline)], WentOnline(s, t, q))
  {
    hide Run; hide CanMove; hide Moved;
    var a, b := Step(t, EnterTry), Step(t, GoOnline);
    EnterTryOne(s, t);
    Extend(actions, s, a);
    var sa := Do(s, a);
    GoOnlineOne(sa, t, q);
    Extend(actions + [a], sa, b);
    assert actions + [a] + [b] == actions + [a, b];
    assert Do(sa, b) == WentOnline(s, t, q);
  }

  /** The cap is reached: for any host and any two instances, a run in which two backups of one
      process are on line. */
  lemma HostCapIsReached(proc: nat, host: string, i: int, j: int) returns (actions: seq<Action>, s: State)
    requires i != j
    ensures Run(actions, s) && NoEarlyRaise(actions)
    ensures OnlineAt(s, HostSlot(proc, host), 0) && OnlineAt(s, HostSlot(proc, host), 1)
  {
    hide Run;
    var q, x, y := HostSlot(proc, host), Backup(i, Some(host), true), Backup(j, Some(host), true);
    EmptyRun();
    Enters([], START, 0, proc, x);
    var s1 := Entered(START, 0, proc, x);
    var done := [] + EnterSteps(0, proc, x);
    GoesOnline(done, s1, 0, q);
    var s2 := WentOnline(s1, 0, q);
    done := done + [Step(0, EnterTry), Step(0, GoOnline)];
    Enters(done, s2, 1, proc, y);
    var s3 := Entered(s2, 1, proc, y);
    actions := done + EnterSteps(1, proc, y);
    GoesOnline(actions, s3, 1, q);
    actions := actions + [Step(1, EnterTry), Step(1, GoOnline)];
    s := WentOnline(s3, 1, q);
  }

  lemma SubsetSize<T>(a: set<T>, b: set<T>)
    requires a <= b
    ensures |a| <= |b|
  {
    assert b == a + (b - a);
  }

  // ---- each part is needed ----

  /** The instance lock does not stop another process: any two can both hold theirs. */
  lemma InstanceLockAdmitsProcesses(p: nat, q: nat, i: int, host: Option<string>)
    returns (actions: seq<Action>, s: State)
    requires p != q
    ensures Run(actions, s) && {0, 1} <= s.threads.Keys && s.threads[0].proc == p && s.threads[1].proc == q
    ensures Holds(s.threads[0], i) && Holds(s.threads[1], i)
  {
    hide Run;
    var task := Task.Backup(i, host, true);
    EmptyRun();
    TakesLock([], START, 0, p, task, i);
    s := Began(START, 0, p, task, i);
    actions := [] + [Spawn(0, p, task), Step(0, Acquire), Step(0, Begin)];
    TakesLock(actions, s, 1, q, task, i);
    s := Began(s, 1, q, task, i);
    actions := actions + [Spawn(1, q, task), Step(1, Acquire), Step(1, Begin)];
    assert LockIds(task)[0] == i;
  }

  /** Re-encryption takes no file lock: in any two different processes it can work on an instance
      while a backup of it is inside. */
  lemma GuardedMissesOtherProcesses(p: nat, q: nat, i: int, host: Option<string>)
    returns (actions: seq<Action>, s: State)
    requires p != q
    ensures Run(actions, s) && NoEarlyRaise(actions)
    ensures {0, 1} <= s.threads.Keys && s.threads[0] == Thread(p, Guarded([i]), Working)
    ensures s.threads[1].proc == q && s.threads[1].task == Task.Backup(i, host, true) && Inside(s.threads[1].pc)
  {
    hide Run;
    EmptyRun();
    TakesLock([], START, 0, p, Guarded([i]), i);
    s := Began(START, 0, p, Guarded([i]), i);
    var first := [Spawn(0, p, Guarded([i])), Step(0, Acquire), Step(0, Begin)];
    actions := [] + first;
    Enters(actions, s, 1, q, Task.Backup(i, host, true));
    s := Entered(s, 1, q, Task.Backup(i, host, true));
    actions := actions + EnterSteps(1, q, Task.Backup(i, host, true));
    assert actions == first + EnterSteps(1, q, Task.Backup(i, host, true));
    NoRaiseAtStart(p, q, i, host);
  }

  lemma NoRaiseAtStart(p: nat, q: nat, i: int, host: Option<string>)
    ensures var first := [Spawn(0, p, Guarded([i])), Step(0, Acquire), Step(0, Begin)];
      NoEarlyRaise(first + EnterSteps(1, q, Task.Backup(i, host, true)))
  {}

  /** A run in which tasks need not be proper: locks unsorted, or backups without their lock. */
  ghost predicate LooseRun(actions: seq<Action>, s: State) {
    if actions == [] then s == START
    else
      var n := |actions| - 1;
      exists before :: LooseRun(actions[..n], before) && Possible(before, actions[n]) && s == Do(before, actions[n])
  }

  lemma ExtendLoose(actions: seq<Action>, s: State, a: Action) returns (longer: seq<Action>, s1: State)
    requires LooseRun(actions, s) && Possible(s, a)
    ensures LooseRun(longer, s1) && s1 == Do(s, a)
  {
    longer, s1 := actions + [a], Do(s, a);
    assert longer[..|longer| - 1] == actions;
  }

  lemma LooseStart()
    ensures LooseRun([], START)
  {}

  lemma UnlockedEnters(before: seq<Action>, s0: State, t: nat, proc: nat, task: Task)
    returns (actions: seq<Action>, s: State)
    requires LooseRun(before, s0) && t !in s0.threads && task.Backup? && !task.locked && s0.closed == {}
    requires Slot(proc, task.instance) in s0.fds ==> s0.fds[Slot(proc, task.instance)].instance == task.instance
    requires task.instance in s0.flocks ==>
      Slot(proc, task.instance) in s0.fds && s0.flocks[task.instance] == s0.fds[Slot(proc, task.instance)]
    ensures LooseRun(actions, s) && t in s.threads && s.threads[t].proc == proc && s.threads[t].task == task
    ensures Inside(s.threads[t].pc)
    ensures s.threads == s0.threads[t := s.threads[t]] && s.closed == {}
    ensures Slot(proc, task.instance) in s.fds && s.fds[Slot(proc, task.instance)].instance == task.instance
    ensures task.instance in s.flocks && s.flocks[task.instance] == s.fds[Slot(proc, task.instance)]
  {
    hide LooseRun;
    actions, s := ExtendLoose(before, s0, Spawn(t, proc, task));
    actions, s := ExtendLoose(actions, s, Step(t, Begin));
    assert s.threads == s0.threads[t := Thread(proc, task, NeedFd)] && s.fds == s0.fds && s.flocks == s0.flocks;
    assert s.closed == {};
    actions, s := OpensAndFlocks(actions, s, t);
  }

  lemma OpensAndFlocks(before: seq<Action>, s0: State, t: nat) returns (actions: seq<Action>, s: State)
    requires LooseRun(before, s0) && t in s0.threads && s0.threads[t].pc == NeedFd && s0.threads[t].task.Backup?
    requires s0.closed == {}
    requires var slot := Slot(s0.threads[t].proc, s0.threads[t].task.instance);
      (slot in s0.fds ==> s0.fds[slot].instance == slot.id)
      && (slot.id in s0.flocks ==> slot in s0.fds && s0.flocks[slot.id] == s0.fds[slot])
    ensures LooseRun(actions, s) && t in s.threads && s.threads[t].pc.Flocked? && s.closed == {}
    ensures s.threads == s0.threads[t := s0.threads[t].(pc := s.threads[t].pc)]
    ensures var slot := Slot(s0.threads[t].proc, s0.threads[t].task.instance);
      slot in s.fds && s.fds[slot].instance == slot.id && slot.id in s.flocks && s.flocks[slot.id] == s.fds[slot]
  {
    hide LooseRun;
    actions, s := ExtendLoose(before, s0, Step(t, Open));
    actions, s := ExtendLoose(actions, s, Step(t, Flock));
  }

  /** The file lock alone does not exclude threads of one process, which share the cached
      description: without the instance lock two of them are inside together. */
  lemma FlockAdmitsSharers(p: nat, i: int, host: Option<string>) returns (actions: seq<Action>, s: State)
    ensures LooseRun(actions, s) && {0, 1} <= s.threads.Keys && s.threads[0].proc == s.threads[1].proc == p
    ensures s.threads[0].task == s.threads[1].task == Task.Backup(i, host, false) && Inside(s.threads[0].pc)
    ensures Inside(s.threads[1].pc)
  {
    hide LooseRun;
    LooseStart();
    actions, s := UnlockedEnters([], START, 0, p, Task.Backup(i, host, false));
    actions, s := UnlockedEnters(actions, s, 1, p, Task.Backup(i, host, false));
  }

  /** Sorting is what prevents deadlock: two tasks that take the same two locks in opposite
      orders reach a state in which nothing is left to step, though both are unfinished. */
  lemma OppositeOrdersDeadlock(p: nat, i: int, j: int) returns (actions: seq<Action>, s: State)
    requires i != j
    ensures LooseRun(actions, s) && Unfinished(s, 0) && Unfinished(s, 1)
    ensures s.threads[0].task == Guarded([i, j]) && s.threads[1].task == Guarded([j, i])
    ensures forall a :: Progress(a) ==> !Possible(s, a)
  {
    hide LooseRun;
    LooseStart();
    actions, s := ExtendLoose([], START, Spawn(0, p, Guarded([i, j])));
    actions, s := ExtendLoose(actions, s, Spawn(1, p, Guarded([j, i])));
    actions, s := ExtendLoose(actions, s, Step(0, Acquire));
    actions, s := ExtendLoose(actions, s, Step(1, Acquire));
    assert s.threads ==
      map[0 := Thread(p, Guarded([i, j]), Acquiring(1)), 1 := Thread(p, Guarded([j, i]), Acquiring(1))];
    assert s.locks == map[Slot(p, i) := 0, Slot(p, j) := 1];
  }

  // ---- deadlock freedom ----

  /** Steps of existing threads and of generators they left behind. */
  predicate Progress(a: Action) { a.Step? || a.LateUnlock? }

  ghost predicate Unfinished(s: State, t: nat) { t in s.threads && !s.threads[t].pc.Done? }

  ghost predicate CanGo(s: State, t: nat) { exists m :: CanMove(s, t, m) }

  /** The instance lock a thread is waiting for. */
  ghost predicate Wants(s: State, t: nat) {
    t in s.threads && s.threads[t].pc.Acquiring? && s.threads[t].pc.n < |LockIds(s.threads[t].task)|
  }

  ghost function Wanted(s: State, t: nat): int
    requires Wants(s, t)
  {
    LockIds(s.threads[t].task)[s.threads[t].pc.n]
  }

  ghost predicate WaitsForPermit(s: State, t: nat) {
    t in s.threads && s.threads[t].pc.Trying? && s.threads[t].task.Backup? && s.threads[t].task.host.Some?
    && Permits(s, HostSlot(s.threads[t].proc, s.threads[t].task.host.value)) != {}
  }

  /** Where a thread can be stuck. */
  lemma StuckPlaces(s: State, t: nat)
    requires Core(s) && Unfinished(s, t) && !CanGo(s, t)
    ensures
      || (Wants(s, t) && Slot(s.threads[t].proc, Wanted(s, t)) in s.locks)
      || (s.threads[t].pc.Flocking? && s.threads[t].pc.fd.instance in s.flocks)
      || WaitsForPermit(s, t)
  {
    hide LockInv; hide OwnedInv; hide OrphanInv; hide PermitInv; hide Proper;
    var th := s.threads[t];
    assert Shape(th);
    assert forall m :: !CanMove(s, t, m);
    assert !CanMove(s, t, Acquire) && !CanMove(s, t, Begin) && !CanMove(s, t, Open) && !CanMove(s, t, Flock);
    assert !CanMove(s, t, FlockRaises);
    assert !CanMove(s, t, EnterTry) && !CanMove(s, t, GoOnline) && !CanMove(s, t, NoPermit);
    assert !CanMove(s, t, GoOffline);
    assert !CanMove(s, t, UnlockRaises) && !CanMove(s, t, Uncache);
    assert !CanMove(s, t, Close) && !CanMove(s, t, Finish) && !CanMove(s, t, Release) && !CanMove(s, t, Exit);
  }

  /** A thread waiting for a permit is waiting for one that can go offline. */
  lemma PermitHolderGoes(s: State, q: HostSlot) returns (u: nat)
    requires Core(s) && Permits(s, q) != {}
    ensures Unfinished(s, u) && CanGo(s, u)
  {
    hide LockInv; hide OwnedInv; hide ShapeInv; hide OrphanInv;
    u :| u in Permits(s, q);
    assert OnlineAt(s, q, u);
    assert CanMove(s, u, GoOffline);
  }

  /** Something can step: a thread, or the late unlock of a generator. */
  ghost predicate SomethingGoes(s: State) { (exists u :: Unfinished(s, u) && CanGo(s, u)) || s.orphans != map[] }

  /** A thread past its flock call can go, or someone it waits for can; an orphan can unlock. */
  lemma FlockHolderGoes(s: State, i: int)
    requires Core(s) && i in s.flocks
    ensures SomethingGoes(s)
  {
    hide LockInv; hide PermitInv; hide CanGo; hide ShapeInv; hide OrphanInv; hide CacheInv;
    if HeldByThread(s, s.flocks[i]) {
      var u :| u in s.threads && HoldsFlock(s.threads[u].pc) && s.threads[u].pc.fd == s.flocks[i];
      assert Unfinished(s, u);
      if !CanGo(s, u) {
        StuckPlaces(s, u);
        var v := PermitHolderGoes(s, HostSlot(s.threads[u].proc, s.threads[u].task.host.value));
      }
    }
  }

  /** Among stuck threads that wait for instance locks, one waits for the largest id. */
  lemma {:induction false} LargestWanted(s: State, ts: set<nat>) returns (t: nat)
    requires ts != {} && forall u | u in ts :: Wants(s, u)
    ensures t in ts && forall u | u in ts :: Wanted(s, u) <= Wanted(s, t)
  {
    t :| t in ts;
    if ts != {t} {
      var u := LargestWanted(s, ts - {t});
      if Wanted(s, u) > Wanted(s, t) { t := u; }
    }
  }

  /** The owner of a wanted lock is elsewhere, or waits for a larger id: locks are taken in order. */
  lemma OwnerWantsMore(s: State, t: nat)
    requires Core(s) && Wants(s, t) && Slot(s.threads[t].proc, Wanted(s, t)) in s.locks
    ensures var u := s.locks[Slot(s.threads[t].proc, Wanted(s, t))];
      Unfinished(s, u) && (Wants(s, u) ==> Wanted(s, u) > Wanted(s, t))
  {
    hide OwnedInv; hide OrphanInv; hide PermitInv;
    var u := s.locks[Slot(s.threads[t].proc, Wanted(s, t))];
    var th := s.threads[u];
    assert Shape(th) && Holds(th, Wanted(s, t));
    var k :| 0 <= k < Held(th) && LockIds(th.task)[k] == Wanted(s, t);
  }

  lemma UnfinishedGoes(s: State, t: nat)
    requires Core(s) && Unfinished(s, t)
    ensures SomethingGoes(s)
  {
    hide Core; hide CanGo; hide Unfinished; hide Wants;
    var pending := set v | v in s.threads && Unfinished(s, v);
    if v :| v in pending && CanGo(s, v) { return; }
    if v :| v in pending && !Wants(s, v) {
      StuckPlaces(s, v);
      if s.threads[v].pc.Flocking? {
        FlockHolderGoes(s, s.threads[v].pc.fd.instance);
      } else {
        var u := PermitHolderGoes(s, HostSlot(s.threads[v].proc, s.threads[v].task.host.value));
      }
      return;
    }
    assert t in pending by { assert Unfinished(s, t); UnfinishedThread(s, t); }
    var v := LargestWanted(s, pending);
    StuckPlaces(s, v);
    WaitsForLock(s, v);
    OwnerWantsMore(s, v);
    UnfinishedThread(s, s.locks[Slot(s.threads[v].proc, Wanted(s, v))]);
    assert false;
  }

  lemma UnfinishedThread(s: State, t: nat)
    requires Unfinished(s, t)
    ensures t in s.threads
  {}

  lemma WaitsForLock(s: State, t: nat)
    requires Core(s) && Unfinished(s, t) && Wants(s, t) && !CanGo(s, t)
    ensures t in s.threads && Slot(s.threads[t].proc, Wanted(s, t)) in s.locks
  {
    StuckPlaces(s, t);
  }

  lemma GoingAction(s: State) returns (a: Action)
    requires SomethingGoes(s)
    ensures Progress(a) && Enabled(s, a) && (s.orphans == map[] ==> a.Step?)
  {
    hide CanMove;
    if u :| Unfinished(s, u) && CanGo(s, u) {
      var m :| CanMove(s, u, m);
      a := Step(u, m);
    } else {
      var t :| t in s.orphans;
      a := LateUnlock(t, false);
    }
  }

  /** In every reachable state with an unfinished thread something can step, and in a run without
      an early raise it is a thread. */
  lemma DeadlockFree(actions: seq<Action>, s: State, t: nat) returns (a: Action)
    requires Run(actions, s) && Unfinished(s, t)
    ensures Progress(a) && Enabled(s, a)
    ensures NoEarlyRaise(actions) ==> a.Step?
  {
    hide Run; hide Enabled;
    ReachableCore(actions, s);
    UnfinishedGoes(s, t);
    if NoEarlyRaise(actions) { ReachableInv(actions, s); }
    a := GoingAction(s);
  }

  // ---- every thread finishes ----

  /** Moves a thread has left at most. */
  function Rank(th: Thread): nat {
    var n := |LockIds(th.task)|;
    match th.pc
    case Acquiring(k) => n + 10 + (if k < n then n - k else 0)
    case NeedFd => n + 9
    case Flocking(_) => n + 8
    case Flocked(_) => n + 7
    case Trying(_) => n + 6
    case Online(_) => n + 5
    case Saving(_) => n + 4
    case UnlockFailed(_) => n + 3
    case Uncached(_) => n + 2
    case Working => n + 2
    case Releasing(k) => k + 1
    case Done => 0
  }

  lemma MoveLowersRank(s: State, t: nat, m: Move)
    requires CanMove(s, t, m) && Shape(s.threads[t])
    ensures Rank(s.threads[t].(pc := NextPc(s, t, m))) + (if m == RaiseEarly then 1 else 0) < Rank(s.threads[t])
  {
    hide Proper; hide Permits; hide LockIds;
  }

  ghost function Total(threads: map<nat, Thread>, ts: set<nat>): nat
    requires ts <= threads.Keys
  {
    if ts == {} then 0 else var t :| t in ts; Rank(threads[t]) + Total(threads, ts - {t})
  }

  lemma {:induction false} TotalSplit(threads: map<nat, Thread>, ts: set<nat>, t: nat)
    requires t in ts && ts <= threads.Keys
    ensures Total(threads, ts) == Rank(threads[t]) + Total(threads, ts - {t})
    decreases |ts|
  {
    hide Rank;
    var first :| first in ts && Total(threads, ts) == Rank(threads[first]) + Total(threads, ts - {first});
    if first != t {
      TotalSplit(threads, ts - {first}, t);
      TotalSplit(threads, ts - {t}, first);
      assert ts - {first} - {t} == ts - {t} - {first};
    }
  }

  lemma {:induction false} TotalSame(a: map<nat, Thread>, b: map<nat, Thread>, ts: set<nat>)
    requires ts <= a.Keys && ts <= b.Keys && forall t | t in ts :: a[t] == b[t]
    ensures Total(a, ts) == Total(b, ts)
    decreases |ts|
  {
    hide Rank;
    if t :| t in ts {
      TotalSplit(a, ts, t);
      TotalSplit(b, ts, t);
      TotalSame(a, b, ts - {t});
    }
  }

  /** Steps left in the whole system at most. */
  ghost function Work(s: State): nat { Total(s.threads, s.threads.Keys) + |s.orphans| }

  lemma MoveLowersWork(s: State, t: nat, m: Move)
    requires ShapeInv(s) && t in s.threads && CanMove(s, t, m)
    ensures Work(Moved(s, t, m)) < Work(s)
  {
    hide CanMove; hide NextPc; hide Rank; hide Shape; hide NextLocks; hide NextFds; hide NextFlocks; hide NextPermits;
    hide NextOrphans;
    var s1 := Moved(s, t, m);
    assert s1.threads.Keys == s.threads.Keys;
    TotalSplit(s.threads, s.threads.Keys, t);
    TotalSplit(s1.threads, s.threads.Keys, t);
    TotalSame(s.threads, s1.threads, s.threads.Keys - {t});
    MoveLowersRank(s, t, m);
    OrphansGrow(s, t, m);
  }

  lemma OrphansGrow(s: State, t: nat, m: Move)
    requires CanMove(s, t, m)
    ensures |NextOrphans(s, t, m)| <= |s.orphans| + if m == RaiseEarly then 1 else 0
  {
    var o1 := NextOrphans(s, t, m);
    assert |s.orphans| == |s.orphans.Keys| && |o1| == |o1.Keys|;
    assert o1.Keys <= s.orphans.Keys + {t};
    if m == RaiseEarly { SubsetSize(o1.Keys, s.orphans.Keys + {t}); }
  }

  lemma LateUnlockLowersWork(s: State, t: nat, ok: bool)
    requires t in s.orphans
    ensures Work(UnlockLate(s, t, ok)) < Work(s)
  {
    var s1 := UnlockLate(s, t, ok);
    assert s1.orphans.Keys == s.orphans.Keys - {t};
    assert |s.orphans| == |s.orphans.Keys| && |s1.orphans| == |s1.orphans.Keys|;
  }

  lemma ProgressLowersWork(s: State, a: Action)
    requires Core(s) && Progress(a) && Enabled(s, a)
    ensures Work(Do(s, a)) < Work(s)
  {
    hide Work; hide CanMove;
    CorePart(s);
    if a.Step? {
      MoverExists(s, a.t, a.move);
      MoveLowersWork(s, a.t, a.move);
    } else {
      LateUnlockLowersWork(s, a.t, a.ok);
    }
  }

  lemma MoverExists(s: State, t: nat, m: Move)
    requires CanMove(s, t, m)
    ensures t in s.threads
  {}

  /** s1 is reached from s by these steps of existing threads and generators. */
  ghost predicate ProgressesTo(s: State, steps: seq<Action>, s1: State)
    decreases |steps|
  {
    if steps == [] then s == s1
    else Progress(steps[0]) && Enabled(s, steps[0]) && ProgressesTo(Do(s, steps[0]), steps[1..], s1)
  }

  /** No schedule can keep the threads of a state busy for longer than its work. */
  lemma {:induction false} SchedulesAreShort(s: State, steps: seq<Action>, s1: State)
    requires Core(s) && ProgressesTo(s, steps, s1)
    ensures |steps| + Work(s1) <= Work(s) && Core(s1)
    decreases |steps|
  {
    hide Core; hide Possible; hide Do; hide Work;
    if steps != [] {
      ProgressLowersWork(s, steps[0]);
      StepKeepsCore(s, steps[0]);
      SchedulesAreShort(Do(s, steps[0]), steps[1..], s1);
    }
  }

  /** Every schedule can be continued until all threads are done, so a scheduler that just keeps
      stepping something finishes them all. */
  lemma {:induction false} AllFinish(s: State) returns (steps: seq<Action>, s1: State)
    requires Core(s)
    ensures ProgressesTo(s, steps, s1) && |steps| <= Work(s)
    ensures forall t | t in s1.threads :: s1.threads[t].pc.Done?
    decreases Work(s)
  {
    hide Core; hide Possible; hide Do; hide Work; hide SomethingGoes;
    if t :| Unfinished(s, t) {
      UnfinishedGoes(s, t);
      var a := GoingAction(s);
      ProgressLowersWork(s, a);
      StepKeepsCore(s, a);
      var rest;
      rest, s1 := AllFinish(Do(s, a));
      steps := [a] + rest;
    } else {
      steps, s1 := [], s;
      assert forall t | t in s1.threads :: !Unfinished(s, t);
    }
  }
}
