/** The three tables of one worker process, filled lazily under their guards, and that they behave
    as the transition system says: each mirrors its part of the state before and after. */
module LockTables {
  import opened Basics
  import opened Locks

  class Lock {
    var owner: Option<nat>

    constructor ()
      ensures owner == None
    {
      owner := None;
    }
  }

  /** `InstanceLocks`: the same id always gets the same lock, different ids different ones. */
  class InstanceLocks {
    const proc: nat
    var locks: map<int, Lock>

    ghost predicate Valid()
      reads this
    {
      forall i, j | i in locks && j in locks && locks[i] == locks[j] :: i == j
    }

    /** A lock is owned here exactly when the state says so, and by the same thread. */
    ghost predicate Mirrors(s: State)
      reads this, locks.Values
    {
      forall id :: Owner(id) == if Slot(proc, id) in s.locks then Some(s.locks[Slot(proc, id)]) else None
    }

    ghost function Owner(id: int): Option<nat>
      reads this, locks.Values
    {
      if id in locks then locks[id].owner else None
    }

    constructor (proc: nat)
      ensures Valid() && locks == map[] && this.proc == proc && Mirrors(START)
    {
      this.proc := proc;
      locks := map[];
    }

    method ForInstance(id: int) returns (lock: Lock)
      requires Valid()
      modifies this
      ensures Valid() && id in locks && lock == locks[id]
      ensures id in old(locks) ==> locks == old(locks)
      ensures id !in old(locks) ==> fresh(lock) && lock.owner == None && locks == old(locks)[id := lock]
      ensures forall i :: Owner(i) == old(Owner(i))
    {
      if id !in locks {
        var created := new Lock();
        locks := locks[id := created];
      }
      lock := locks[id];
    }

    /** Entering the lock the thread wants next succeeds exactly when the system's Acquire can. */
    method Acquire(id: int, t: nat, ghost s: State) returns (ok: bool)
      requires Valid() && Mirrors(s) && t in s.threads && s.threads[t].proc == proc && s.threads[t].pc.Acquiring?
      requires s.threads[t].pc.n < |LockIds(s.threads[t].task)| && LockIds(s.threads[t].task)[s.threads[t].pc.n] == id
      modifies this, locks.Values
      ensures Valid() && (ok <==> CanMove(s, t, Move.Acquire)) && Mirrors(if ok then Moved(s, t, Move.Acquire) else s)
    {
      hide NextFds; hide NextFlocks; hide NextPermits; hide NextOrphans; hide NextPc;
      var lock := ForInstance(id);
      ok := lock.owner == None;
      if ok {
        lock.owner := Some(t);
        assert forall i | i in locks && i != id :: locks[i] != lock;
        assert forall i | i != id :: Owner(i) == old(Owner(i));
      }
    }

    /** Leaving the lock taken last frees it. */
    method Release(id: int, t: nat, ghost s: State)
      requires Valid() && Mirrors(s) && t in s.threads && s.threads[t].proc == proc && CanMove(s, t, Move.Release)
      requires LockIds(s.threads[t].task)[s.threads[t].pc.n - 1] == id && id in locks
      modifies this, locks.Values
      ensures Valid() && locks == old(locks) && Mirrors(Moved(s, t, Move.Release))
    {
      hide NextFds; hide NextFlocks; hide NextPermits; hide NextOrphans; hide NextPc;
      var lock := locks[id];
      lock.owner := None;
      assert forall i | i in locks && i != id :: locks[i] != lock;
      assert forall i | i != id :: Owner(i) == old(Owner(i));
    }
  }

  class BoundedSemaphore {
    const cap: nat
    var value: nat

    constructor (cap: nat)
      ensures this.cap == cap && value == cap
    {
      this.cap, value := cap, cap;
    }
  }

  /** What urlparse makes of a URL; reading the port raises when it is not a number in range. */
  datatype Port = NoPort | PortNumber(digits: string) | BadPort
  datatype Url = Url(raw: string, hostname: string, port: Port)

  function LowerChar(c: char): char { if 'A' <= c <= 'Z' then (c as int + 32) as char else c }

  function Lower(s: string): string { seq(|s|, i requires 0 <= i < |s| => LowerChar(s[i])) }

  /** `_host_key`: host and port, or the whole URL when there is no host; None where it raises. A
      port of zero counts as none. */
  function HostKey(url: Url): Option<string> {
    if url.hostname == "" then Some(Lower(url.raw))
    else
      match url.port
      case BadPort => None
      case NoPort => Some(Lower(url.hostname))
      case PortNumber(digits) => Some(if digits == "0" then Lower(url.hostname) else Lower(url.hostname) + ":" + digits)
  }

  /** The same letters, upper or lower case. */
  ghost predicate SameButCase(a: string, b: string) {
    |a| == |b| && forall i | 0 <= i < |a| ::
      || a[i] == b[i]
      || ('A' <= a[i] <= 'Z' && b[i] as int == a[i] as int + 32)
      || ('A' <= b[i] <= 'Z' && a[i] as int == b[i] as int + 32)
  }

  lemma LowerMeans(a: string, b: string)
    ensures Lower(a) == Lower(b) <==> SameButCase(a, b)
  {
    if Lower(a) == Lower(b) {
      forall i | 0 <= i < |a| ensures LowerChar(a[i]) == LowerChar(b[i]) { assert Lower(a)[i] == Lower(b)[i]; }
    }
  }

  /** No port and port zero are the same. */
  ghost predicate SamePort(a: Port, b: Port) {
    a == b || (a in {NoPort, PortNumber("0")} && b in {NoPort, PortNumber("0")})
  }

  /** Two URLs that name a host without a colon share a semaphore exactly when host and port are
      the same up to case, with or without a port. */
  lemma SameKeyIff(a: Url, b: Url)
    requires a.hostname != "" && b.hostname != "" && ':' !in Lower(a.hostname) && ':' !in Lower(b.hostname)
    requires a.port != BadPort && b.port != BadPort
    ensures HostKey(a) == HostKey(b) <==> SameButCase(a.hostname, b.hostname) && SamePort(a.port, b.port)
  {
    hide Lower; hide SameButCase;
    LowerMeans(a.hostname, b.hostname);
    var x, y := Lower(a.hostname), Lower(b.hostname);
    if a.port.PortNumber? && a.port.digits != "0" {
      if b.port.PortNumber? && b.port.digits != "0" {
        SameSuffixed(x, a.port.digits, y, b.port.digits);
      } else {
        assert (x + ":" + a.port.digits)[|x|] == ':';
      }
    } else if b.port.PortNumber? && b.port.digits != "0" {
      assert (y + ":" + b.port.digits)[|y|] == ':';
    }
  }

  lemma SameSuffixed(x: string, p: string, y: string, q: string)
    requires ':' !in x && ':' !in y
    ensures x + ":" + p == y + ":" + q <==> x == y && p == q
  {
    var k, l := x + ":" + p, y + ":" + q;
    if k == l {
      assert k[|x|] == ':' && l[|y|] == ':';
      assert forall i | 0 <= i < |x| :: x[i] in x && k[i] == x[i];
      assert forall i | 0 <= i < |y| :: y[i] in y && l[i] == y[i];
      assert |x| == |y|;
      assert k[..|x|] == x && l[..|y|] == y && k[|x| + 1..] == p && l[|y| + 1..] == q;
    }
  }

  /** Without a host the whole text of the URL is the key; a port that cannot be read raises. */
  lemma HostlessKeys(a: Url, b: Url)
    ensures a.hostname == "" && b.hostname == "" ==> (HostKey(a) == HostKey(b) <==> SameButCase(a.raw, b.raw))
    ensures HostKey(a) == None <==> a.hostname != "" && a.port == BadPort
  {
    LowerMeans(a.raw, b.raw);
  }

  /** `HostSemaphores`: one semaphore per normalised host, all with the same bound. */
  class HostSemaphores {
    const proc: nat
    const perHost: nat
    var sems: map<string, BoundedSemaphore>

    ghost predicate Valid()
      reads this, sems.Values
    {
      && (forall k | k in sems :: sems[k].cap == perHost)
      && (forall j, k | j in sems && k in sems && sems[j] == sems[k] :: j == k)
    }

    ghost function Free(host: string): nat
      reads this, sems.Values
    {
      if host in sems then sems[host].value else perHost
    }

    /** Free permits plus holders make the bound. */
    ghost predicate Mirrors(s: State)
      reads this, sems.Values
    {
      forall host :: Free(host) + |Permits(s, HostSlot(proc, host))| == perHost
    }

    constructor (proc: nat)
      ensures Valid() && sems == map[] && this.proc == proc && perHost == HOST_CONCURRENCY && Mirrors(START)
    {
      this.proc, perHost := proc, HOST_CONCURRENCY;
      sems := map[];
    }

    /** `for_url`: None where the host key raises. */
    method ForUrl(url: Url) returns (sem: BoundedSemaphore?)
      requires Valid()
      modifies this
      ensures Valid() && (sem == null <==> HostKey(url).None?)
      ensures sem != null ==> HostKey(url).value in sems && sem == sems[HostKey(url).value] && sem.cap == perHost
      ensures forall h :: Free(h) == old(Free(h))
    {
      var key := HostKey(url);
      if key.None? { return null; }
      sem := ForHost(key.value);
    }

    method ForHost(host: string) returns (sem: BoundedSemaphore)
      requires Valid()
      modifies this
      ensures Valid() && host in sems && sem == sems[host] && sem.cap == perHost
      ensures host in old(sems) ==> sems == old(sems)
      ensures host !in old(sems) ==> fresh(sem) && sems == old(sems)[host := sem]
      ensures forall h :: Free(h) == old(Free(h))
    {
      if host in sems {
        sem := sems[host];
      } else {
        sem := new BoundedSemaphore(perHost);
        sems := sems[host := sem];
      }
    }

    /** Entering the semaphore succeeds exactly when the system's GoOnline can. */
    method Acquire(t: nat, ghost s: State, host: string) returns (ok: bool)
      requires Valid() && Mirrors(s) && perHost == HOST_CONCURRENCY && t in s.threads && s.threads[t].proc == proc
      requires s.threads[t].pc.Trying? && s.threads[t].task.Backup? && s.threads[t].task.host == Some(host)
      requires t !in Permits(s, HostSlot(proc, host))
      modifies this, sems.Values
      ensures Valid() && (ok <==> CanMove(s, t, GoOnline)) && Mirrors(if ok then Moved(s, t, GoOnline) else s)
    {
      hide NextFds; hide NextFlocks; hide NextLocks; hide NextOrphans; hide NextPc;
      var sem := ForHost(host);
      ok := sem.value > 0;
      if ok {
        sem.value := sem.value - 1;
        assert forall h | h in sems && h != host :: sems[h] != sem;
        assert forall h | h != host :: Free(h) == old(Free(h));
        ghost var s1 := Moved(s, t, GoOnline);
        assert Permits(s1, HostSlot(proc, host)) == Permits(s, HostSlot(proc, host)) + {t};
        assert forall h | h != host :: Permits(s1, HostSlot(proc, h)) == Permits(s, HostSlot(proc, h));
      }
    }

    /** Leaving it gives the permit back. */
    method Release(t: nat, ghost s: State, host: string)
      requires Valid() && Mirrors(s) && host in sems && t in s.threads && s.threads[t].proc == proc
      requires CanMove(s, t, GoOffline) && s.threads[t].task.host == Some(host) && t in Permits(s, HostSlot(proc, host))
      modifies sems.Values
      ensures Valid() && Mirrors(Moved(s, t, GoOffline))
    {
      hide NextFds; hide NextFlocks; hide NextLocks; hide NextOrphans; hide NextPc;
      var sem := sems[host];
      sem.value := sem.value + 1;
      assert forall h | h in sems && h != host :: sems[h] != sem;
      assert forall h | h != host :: Free(h) == old(Free(h));
      ghost var s1 := Moved(s, t, GoOffline);
      assert Permits(s1, HostSlot(proc, host)) == Permits(s, HostSlot(proc, host)) - {t};
      assert forall h | h != host :: Permits(s1, HostSlot(proc, h)) == Permits(s, HostSlot(proc, h));
    }
  }

  /** `CrossProcessInstanceLock`: one open descriptor per instance until one is dropped. */
  class DescriptorCache {
    const proc: nat
    var cache: map<int, Fd>

    ghost predicate Mirrors(s: State)
      reads this
    {
      && (forall id :: id in cache <==> Slot(proc, id) in s.fds)
      && (forall id | id in cache :: cache[id] == s.fds[Slot(proc, id)])
    }

    constructor (proc: nat)
      ensures cache == map[] && this.proc == proc && Mirrors(START)
    {
      this.proc := proc;
      cache := map[];
    }

    /** `_fd_for`: the descriptor the system's Open moves to; serial makes a new one unique. */
    method FdFor(id: int, serial: nat, t: nat, ghost s: State) returns (fd: Fd)
      requires Mirrors(s) && t in s.threads && s.threads[t].proc == proc && CanMove(s, t, Open)
      requires s.threads[t].task.instance == id && serial == s.serial
      modifies this
      ensures NextPc(s, t, Open) == Flocking(fd) && Mirrors(Moved(s, t, Open)) && cache == old(cache)[id := fd]
    {
      if id in cache {
        fd := cache[id];
      } else {
        fd := Fd(proc, id, serial);
        cache := cache[id := fd];
      }
    }

    /** After a failed unlock: forget the descriptor; the caller then closes it. */
    method Drop(t: nat, ghost s: State, id: int)
      requires Mirrors(s) && t in s.threads && s.threads[t].proc == proc && CanMove(s, t, Uncache)
      requires s.threads[t].pc.fd.instance == id
      modifies this
      ensures Mirrors(Moved(s, t, Uncache)) && cache == old(cache) - {id}
    {
      cache := cache - {id};
    }
  }
}
