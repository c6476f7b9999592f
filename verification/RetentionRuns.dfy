/** Pruning as a choice function: what one prune chooses from the set of backups, and why
    pruning along the way never changes what a later prune chooses. */
module RetentionRuns {
  import opened Basics
  import opened Ordering
  import opened Retention

  // ---- the list computation makes the set choice ----

  ghost predicate DistinctIds(s: set<Backup>) {
    forall x, y | x in s && y in s && x.id == y.id :: x == y
  }

  ghost predicate StrictlyDescending(s: seq<Backup>) {
    forall i, j | 0 <= i < j < |s| :: s[i].at > s[j].at
  }

  lemma DistinctDescends(s: seq<Backup>)
    requires Descending(s) && Distinct(s) && DistinctTimes(Elements(s))
    ensures StrictlyDescending(s)
  {
    forall i, j | 0 <= i < j < |s| ensures s[i].at > s[j].at {
      assert s[i] in Elements(s) && s[j] in Elements(s);
    }
  }

  lemma {:induction false} PrefixCount(s: seq<Backup>, n: nat)
    requires n <= |s| && StrictlyDescending(s)
    ensures |Elements(s[..n])| == n
  {
    if n > 0 {
      PrefixCount(s, n - 1);
      assert s[..n] == s[..n - 1] + [s[n - 1]];
      ElementsSnoc(s[..n - 1], s[n - 1]);
    } else { assert Elements(s[..0]) == {}; }
  }

  lemma NewerIsPrefix(s: seq<Backup>, i: nat)
    requires i < |s| && StrictlyDescending(s)
    ensures Newer(Elements(s), s[i]) == Elements(s[..i]) && |Newer(Elements(s), s[i])| == i
  {
    PrefixCount(s, i);
    forall x ensures x in Newer(Elements(s), s[i]) <==> x in Elements(s[..i]) {
      if x in Elements(s[..i]) { var j :| 0 <= j < i && s[..i][j] == x; assert s[j] == x; }
      if x in Newer(Elements(s), s[i]) { var j :| 0 <= j < |s| && s[j] == x; assert j < i; assert s[..i][j] == x; }
    }
  }

  /** In a descending list the n newest are the first n. */
  lemma TopIsPrefix(s: seq<Backup>, n: int)
    requires StrictlyDescending(s)
    ensures Top(Elements(s), n) == Elements(Take(s, n))
  {
    forall x ensures x in Top(Elements(s), n) <==> x in Elements(Take(s, n)) {
      if x in Elements(s) {
        var i :| 0 <= i < |s| && s[i] == x;
        NewerIsPrefix(s, i);
        if i < n { assert Take(s, n)[i] == x; }
        if x in Take(s, n) { var j :| 0 <= j < |Take(s, n)| && Take(s, n)[j] == x; assert s[j] == x; assert i == j; }
      }
    }
  }

  lemma {:induction false} SelectedDescends(s: seq<Backup>, ids: set<int>)
    requires StrictlyDescending(s)
    ensures StrictlyDescending(Selected(s, ids))
  {
    if s != [] {
      SelectedDescends(s[1..], ids);
      SelectedMember(s[1..], ids);
    }
  }

  ghost function IdsOf(s: set<Backup>): set<int> { set b | b in s :: b.id }

  lemma IdsOfElements(s: seq<Backup>)
    ensures IdsOf(Elements(s)) == Ids(s)
  {}

  lemma BucketIsNewest(s: seq<Backup>, i: nat, window: Option<int>, now: int, bucket: int -> int)
    requires i < |s| && StrictlyDescending(s)
    ensures (window.Some? && FirstOfBucket(s, i, Cutoff(now, window.value), bucket))
       <==> (InWindow(s[i], window, now) && NewestOfBucket(Elements(s), s[i], bucket))
  {
    if InWindow(s[i], window, now) && FirstOfBucket(s, i, Cutoff(now, window.value), bucket) {
      forall y | y in Elements(s) && bucket(y.at) == bucket(s[i].at) ensures y.at <= s[i].at {
        var j :| 0 <= j < |s| && s[j] == y;
      }
    }
    if InWindow(s[i], window, now) && NewestOfBucket(Elements(s), s[i], bucket) {
      forall j | 0 <= j < i && s[j].at >= Cutoff(now, window.value) ensures bucket(s[j].at) != bucket(s[i].at) {
        assert s[j] in Elements(s);
      }
    }
  }

  ghost function NewestSet(s: set<Backup>, window: Option<int>, now: int, bucket: int -> int): set<Backup> {
    set x | x in s && InWindow(x, window, now) && NewestOfBucket(s, x, bucket)
  }

  lemma BucketIdsAre(s: seq<Backup>, window: Option<int>, now: int, bucket: int -> int)
    requires StrictlyDescending(s)
    ensures BucketIds(s, window, now, bucket) == IdsOf(NewestSet(Elements(s), window, now, bucket))
  {
    hide FirstOfBucket; hide NewestOfBucket;
    forall i | 0 <= i < |s| ensures
      (window.Some? && FirstOfBucket(s, i, Cutoff(now, window.value), bucket))
      <==> (InWindow(s[i], window, now) && NewestOfBucket(Elements(s), s[i], bucket))
    {
      BucketIsNewest(s, i, window, now, bucket);
    }
    var chosen := NewestSet(Elements(s), window, now, bucket);
    forall k ensures k in BucketIds(s, window, now, bucket) <==> k in IdsOf(chosen) {
      if k in BucketIds(s, window, now, bucket) {
        var i :| 0 <= i < |s| && FirstOfBucket(s, i, Cutoff(now, window.value), bucket) && s[i].id == k;
        assert s[i] in chosen;
      }
      if k in IdsOf(chosen) {
        var x :| x in chosen && x.id == k;
        var i :| 0 <= i < |s| && s[i] == x;
      }
    }
  }

  lemma IdsOfUnion(s: set<Backup>, t: set<Backup>)
    ensures IdsOf(s + t) == IdsOf(s) + IdsOf(t)
  {}

  ghost function RecentSet(s: set<Backup>, window: Option<int>, now: int): set<Backup> {
    set x | x in s && InWindow(x, window, now)
  }

  ghost function NewestOnly(s: set<Backup>): set<Backup> { set x | x in s && Newer(s, x) == {} }

  lemma TierParts(s: set<Backup>, p: Policy, now: int, cal: Calendar)
    ensures TierKeep(s, p, now, cal) ==
      RecentSet(s, p.keepAllDays, now) + NewestSet(s, p.dailyDays, now, cal.day)
      + NewestSet(s, Scaled(p.weeklyWeeks, 7), now, cal.week)
      + NewestSet(s, Scaled(p.monthlyMonths, 31), now, cal.month)
      + NewestOnly(s)
  {
    hide NewestOfBucket; hide Newer; hide InWindow;
  }

  lemma TierIdsAre(s: seq<Backup>, p: Policy, now: int, cal: Calendar)
    requires s != [] && StrictlyDescending(s)
    ensures TierIds(s, p, now, cal) == IdsOf(TierKeep(Elements(s), p, now, cal))
  {
    hide BucketIds; hide NewestSet; hide Cutoff; hide TierKeep; hide IdsOf;
    var all := Elements(s);
    var r, d := RecentSet(all, p.keepAllDays, now), NewestSet(all, p.dailyDays, now, cal.day);
    var w, m := NewestSet(all, Scaled(p.weeklyWeeks, 7), now, cal.week),
        NewestSet(all, Scaled(p.monthlyMonths, 31), now, cal.month);
    BucketIdsAre(s, p.dailyDays, now, cal.day);
    BucketIdsAre(s, Scaled(p.weeklyWeeks, 7), now, cal.week);
    BucketIdsAre(s, Scaled(p.monthlyMonths, 31), now, cal.month);
    RecentIdsAre(s, p.keepAllDays, now);
    NewestIsFirst(s);
    TierParts(all, p, now, cal);
    IdsOfUnion(r, d);
    IdsOfUnion(r + d, w);
    IdsOfUnion(r + d + w, m);
    IdsOfUnion(r + d + w + m, {s[0]});
    assert IdsOf({s[0]}) == {s[0].id} by { OneId(s[0]); }
  }

  lemma OneId(x: Backup)
    ensures IdsOf({x}) == {x.id}
  {}

  lemma RecentIdsAre(s: seq<Backup>, window: Option<int>, now: int)
    ensures RecentIds(s, window, now) == IdsOf(RecentSet(Elements(s), window, now))
  {}

  lemma NewestIsFirst(s: seq<Backup>)
    requires s != [] && StrictlyDescending(s)
    ensures NewestOnly(Elements(s)) == {s[0]}
  {
    NewerIsPrefix(s, 0);
    assert s[0] in Elements(s);
    forall x | x in Elements(s) && Newer(Elements(s), x) == {} ensures x == s[0] {
      var i :| 0 <= i < |s| && s[i] == x;
      NewerIsPrefix(s, i);
    }
  }

  /** With distinct ids and times, the list computation keeps exactly the set choice. */
  lemma KeepIdsIsChoice(backups: seq<Backup>, p: Policy, now: int, cal: Calendar)
    requires Distinct(backups) && DistinctTimes(Elements(backups)) && DistinctIds(Elements(backups))
    ensures KeepIds(NewestFirst(backups), p, now, cal) == IdsOf(Keep(Elements(backups), p, now, cal))
  {
    hide TierIds; hide TierKeep; hide Take; hide Top; hide Selected; hide Ids;
    var s := NewestFirst(backups);
    SortedDistinct(backups);
    if s != [] {
      TopIsPrefix(s, if p.countCap > 0 then p.countCap else 1);
      IdsOfElements(Take(s, if p.countCap > 0 then p.countCap else 1));
      TakeOne(s, p.countCap);
      TierIdsAre(s, p, now, cal);
      if p.countCap > 0 { CappedTiers(s, p, now, cal); }
    } else {
      assert Elements(s) == {};
      EmptyKeep(p, now, cal);
    }
  }

  lemma EmptyKeep(p: Policy, now: int, cal: Calendar)
    ensures Keep({}, p, now, cal) == {}
  {}

  lemma SortedDistinct(backups: seq<Backup>)
    requires Distinct(backups) && DistinctTimes(Elements(backups))
    ensures StrictlyDescending(NewestFirst(backups)) && Elements(NewestFirst(backups)) == Elements(backups)
  {
    var s := NewestFirst(backups);
    NewestFirstSorts(backups);
    SameMembers(backups, s);
    DistinctByCount(backups, s);
    DistinctDescends(s);
  }

  lemma DistinctByCount(s: seq<Backup>, t: seq<Backup>)
    requires Distinct(s) && multiset(s) == multiset(t)
    ensures Distinct(t)
  {
    forall i, j | 0 <= i < j < |t| ensures t[i] != t[j] {
      if t[i] == t[j] {
        assert t == t[..i] + [t[i]] + t[i + 1..j] + [t[j]] + t[j + 1..];
        assert multiset(t)[t[i]] >= 2;
        CountOne(s, t[i]);
        assert false;
      }
    }
  }

  lemma {:induction false} CountOne(s: seq<Backup>, x: Backup)
    requires Distinct(s)
    ensures multiset(s)[x] <= 1
  {
    if s != [] {
      CountOne(s[1..], x);
      assert s == [s[0]] + s[1..];
    }
  }

  lemma TakeOne(s: seq<Backup>, n: int)
    requires s != []
    ensures n > 0 ==> Ids(Take(s, n)) + {s[0].id} == Ids(Take(s, n))
    ensures n <= 0 ==> Ids(Take(s, n)) + {s[0].id} == Ids(Take(s, 1))
  {
    TakeBounds(s, n);
    TakeBounds(s, 1);
  }

  /** The cap keeps the newest of what the tiers chose. */
  lemma CappedTiers(s: seq<Backup>, p: Policy, now: int, cal: Calendar)
    requires s != [] && StrictlyDescending(s) && DistinctIds(Elements(s)) && p.countCap > 0
    ensures var tiers := TierIds(s, p, now, cal);
      IdsOf(Top(TierKeep(Elements(s), p, now, cal), p.countCap)) ==
      if |tiers| > p.countCap then Ids(Take(Selected(s, tiers), p.countCap)) + {s[0].id} else tiers
  {
    hide TierIds; hide TierKeep; hide Take; hide Top; hide Selected; hide Ids;
    var tiers, chosen := TierIds(s, p, now, cal), TierKeep(Elements(s), p, now, cal);
    TierIdsAre(s, p, now, cal);
    TierIdsAreIds(s, p, now, cal);
    var list := Selected(s, tiers);
    SelectedDescends(s, tiers);
    SelectedMember(s, tiers);
    assert Elements(list) == chosen by { TierKeepSubset(Elements(s), p, now, cal); }
    TopIsPrefix(list, p.countCap);
    IdsOfElements(Take(list, p.countCap));
    TakeBounds(list, p.countCap);
    PrefixCount(list, |list|);
    assert list[..|list|] == list;
    SameCount(chosen);
    TakeAll(list, p.countCap);
  }

  lemma TierKeepSubset(s: set<Backup>, p: Policy, now: int, cal: Calendar)
    ensures TierKeep(s, p, now, cal) <= s
  {}

  lemma TakeAll(s: seq<Backup>, n: int)
    requires n > 0
    ensures |s| <= n ==> Take(s, n) == s
  {}

  lemma {:induction false} SameCount(s: set<Backup>)
    requires DistinctIds(s)
    ensures |IdsOf(s)| == |s|
  {
    if s != {} {
      var x :| x in s;
      SameCount(s - {x});
      assert IdsOf(s) == IdsOf(s - {x}) + {x.id};
    }
  }

  // ---- pruning along the way ----

  lemma {:induction false} NewestExists(s: set<Backup>) returns (x: Backup)
    requires s != {}
    ensures x in s && forall y | y in s :: y.at <= x.at
  {
    x :| x in s;
    if s != {x} {
      var y := NewestExists(s - {x});
      if y.at > x.at { x := y; }
    }
  }

  /** A backup that beats x inside x's bucket has a survivor of the first prune at or above it. */
  lemma SurvivorInBucket(s: set<Backup>, y: Backup, window: Option<int>, now: int, bucket: int -> int)
    returns (z: Backup)
    requires y in s && InWindow(y, window, now)
    ensures z in NewestSet(s, window, now, bucket) && z.at >= y.at && bucket(z.at) == bucket(y.at)
  {
    var mates := set q | q in s && bucket(q.at) == bucket(y.at);
    assert y in mates;
    z := NewestExists(mates);
  }

  lemma BucketHeritage(s: set<Backup>, kept: set<Backup>, later: set<Backup>, window: Option<int>, t0: int, t1: int,
      bucket: int -> int)
    requires t0 <= t1 && NewestSet(s, window, t0, bucket) <= kept <= s
    ensures NewestSet(kept + later, window, t1, bucket) == NewestSet(s + later, window, t1, bucket)
  {
    forall x | x in NewestSet(kept + later, window, t1, bucket) ensures x in NewestSet(s + later, window, t1, bucket) {
      forall y | y in s + later && bucket(y.at) == bucket(x.at) ensures y.at <= x.at {
        if y in s && InWindow(y, window, t0) {
          var z := SurvivorInBucket(s, y, window, t0, bucket);
          assert z in kept + later;
        }
      }
    }
  }

  lemma NewestHeritage(s: set<Backup>, kept: set<Backup>, later: set<Backup>)
    requires NewestOnly(s) <= kept <= s
    ensures forall x | x in s + later :: Newer(s + later, x) == {} <==>
      x in kept + later && Newer(kept + later, x) == {}
  {
    forall x | x in s + later ensures Newer(s + later, x) == {} <==> x in kept + later && Newer(kept + later, x) == {} {
      if Newer(s + later, x) == {} {
        assert Newer(s, x) <= Newer(s + later, x);
        assert Newer(kept + later, x) <= Newer(s + later, x);
      }
      if x in kept + later && Newer(kept + later, x) == {} {
        forall y | y in s + later ensures y.at <= x.at {
          if y in s {
            var z := NewestExists(s);
            assert z in NewestOnly(s);
            assert z !in Newer(kept + later, x);
          } else { assert y !in Newer(kept + later, x); }
        }
      }
    }
  }

  /** Tiers: pruning first and adding later chooses what pruning everything at once chooses. */
  lemma TierHeritage(s: set<Backup>, later: set<Backup>, p: Policy, t0: int, t1: int, cal: Calendar)
    requires t0 <= t1
    ensures TierKeep(TierKeep(s, p, t0, cal) + later, p, t1, cal) == TierKeep(s + later, p, t1, cal)
  {
    hide NewestOfBucket; hide Newer;
    var kept := TierKeep(s, p, t0, cal);
    TierParts(s, p, t0, cal);
    TierParts(s + later, p, t1, cal);
    TierParts(kept + later, p, t1, cal);
    BucketHeritage(s, kept, later, p.dailyDays, t0, t1, cal.day);
    BucketHeritage(s, kept, later, Scaled(p.weeklyWeeks, 7), t0, t1, cal.week);
    BucketHeritage(s, kept, later, Scaled(p.monthlyMonths, 31), t0, t1, cal.month);
    NewestHeritage(s, kept, later);
    RecentHeritage(s, kept, later, p.keepAllDays, t0, t1);
    assert NewestOnly(kept + later) == NewestOnly(s + later);
  }

  lemma RecentHeritage(s: set<Backup>, kept: set<Backup>, later: set<Backup>, window: Option<int>, t0: int, t1: int)
    requires t0 <= t1 && RecentSet(s, window, t0) <= kept <= s
    ensures RecentSet(kept + later, window, t1) == RecentSet(s + later, window, t1)
  {}

  lemma {:induction false} OldestExists(s: set<Backup>) returns (x: Backup)
    requires s != {}
    ensures x in s && forall y | y in s :: x.at <= y.at
  {
    x :| x in s;
    if s != {x} {
      var y := OldestExists(s - {x});
      if y.at < x.at { x := y; }
    }
  }

  lemma Smaller<T>(s: set<T>, t: set<T>)
    requires s <= t
    ensures |s| <= |t|
    ensures s < t ==> |s| < |t|
  {
    assert t == s + (t - s);
  }

  /** A set of at least n backups has at least n among its n newest. */
  lemma {:induction false} TopFull(s: set<Backup>, n: nat)
    requires |s| >= n
    ensures |Top(s, n)| >= n
    decreases |s|
  {
    if |s| == n {
      forall x | x in s ensures |Newer(s, x)| < n { assert x !in Newer(s, x); Smaller(Newer(s, x), s); }
      assert Top(s, n) == s;
    } else {
      var m := OldestExists(s);
      TopFull(s - {m}, n);
      forall x | x in Top(s - {m}, n) ensures x in Top(s, n) {
        assert Newer(s, x) == Newer(s - {m}, x);
      }
      Smaller(Top(s - {m}, n), Top(s, n));
    }
  }

  /** Whatever a count prune drops is beaten by n of the survivors. */
  lemma DroppedIsBeaten(s: set<Backup>, z: Backup, n: nat)
    requires z in s && z !in Top(s, n)
    ensures |Newer(Top(s, n), z)| >= n
  {
    var above := Newer(s, z);
    TopFull(above, n);
    forall x | x in Top(above, n) ensures x in Newer(Top(s, n), z) {
      assert Newer(s, x) == Newer(above, x);
    }
    Smaller(Top(above, n), Newer(Top(s, n), z));
  }

  /** Counts: the same law for the n newest. */
  lemma TopHeritage(s: set<Backup>, later: set<Backup>, n: nat)
    ensures Top(Top(s, n) + later, n) == Top(s + later, n)
  {
    var kept := Top(s, n);
    forall x | x in Top(s + later, n) ensures x in Top(kept + later, n) {
      Smaller(Newer(s, x), Newer(s + later, x));
      Smaller(Newer(kept + later, x), Newer(s + later, x));
    }
    forall x | x in Top(kept + later, n) ensures x in Top(s + later, n) {
      forall z | z in Newer(s, x) ensures z in kept {
        if z !in kept {
          DroppedIsBeaten(s, z, n);
          Smaller(Newer(kept, z), Newer(kept + later, x));
          assert false;
        }
      }
      assert Newer(kept + later, x) == Newer(s + later, x);
    }
  }

  // ---- one tier under a cap ----

  /** What a single bucket tier keeps; every backup its own bucket gives the keep-all tier. */
  ghost function OneTier(s: set<Backup>, window: Option<int>, now: int, bucket: int -> int): set<Backup> {
    NewestSet(s, window, now, bucket) + NewestOnly(s)
  }

  lemma OneTierNewest(s: set<Backup>, window: Option<int>, now: int, bucket: int -> int, x: Backup)
    requires x in OneTier(s, window, now, bucket)
    ensures x in s && NewestOfBucket(s, x, bucket)
  {
    if Newer(s, x) == {} {
      forall y | y in s ensures y.at <= x.at { assert y !in Newer(s, x); }
    }
  }

  /** Newest backups of their buckets are in different buckets. */
  lemma DifferentBuckets(s: set<Backup>, bucket: int -> int, x: Backup, y: Backup)
    requires DistinctTimes(s) && x in s && y in s && NewestOfBucket(s, x, bucket) && NewestOfBucket(s, y, bucket)
    ensures bucket(x.at) == bucket(y.at) ==> x == y
  {}

  ghost predicate ApartIn(a: set<Backup>, bucket: int -> int) {
    forall x, y | x in a && y in a && bucket(x.at) == bucket(y.at) :: x == y
  }

  /** Backups of different buckets, all newer than x and inside the window, have as many
      representatives newer than x in any larger set. */
  lemma {:induction false} Representatives(a: set<Backup>, b: set<Backup>, window: Option<int>, now: int,
      bucket: int -> int, x: Backup)
    returns (r: set<Backup>)
    requires a <= b && ApartIn(a, bucket) && forall y | y in a :: y.at > x.at && InWindow(y, window, now)
    ensures r <= Newer(OneTier(b, window, now, bucket), x) && |r| == |a|
    ensures forall z | z in r :: exists y :: y in a && bucket(y.at) == bucket(z.at)
    decreases |a|
  {
    r := {};
    if y :| y in a {
      var rest := Representatives(a - {y}, b, window, now, bucket, x);
      var z := SurvivorInBucket(b, y, window, now, bucket);
      assert z !in rest;
      r := rest + {z};
    }
  }

  lemma TierOfSubset(b: set<Backup>, u: set<Backup>, window: Option<int>, now: int, bucket: int -> int, y: Backup)
    requires b <= u && y in b && y in OneTier(u, window, now, bucket)
    ensures y in OneTier(b, window, now, bucket)
  {
    assert Newer(b, y) <= Newer(u, y);
  }

  /** The situation of the next lemmas: kept is what a first prune at t0 leaves of s. */
  ghost predicate FirstPrune(s: set<Backup>, kept: set<Backup>, window: Option<int>, bucket: int -> int, t0: int,
      n: nat)
  {
    n >= 1 && kept == Top(OneTier(s, window, t0, bucket), n)
  }

  /** What the cap cut is beaten, in every larger set and at every later time, by n others. */
  lemma CutStaysBeaten(s: set<Backup>, kept: set<Backup>, b: set<Backup>, window: Option<int>, bucket: int -> int,
      t0: int, t1: int, n: nat, u: Backup, x: Backup)
    requires FirstPrune(s, kept, window, bucket, t0, n) && DistinctTimes(s) && kept <= b
    requires u in OneTier(s, window, t0, bucket) && u !in kept && x.at <= u.at && InWindow(x, window, t1)
    ensures |Newer(OneTier(b, window, t1, bucket), x)| >= n
  {
    DroppedIsBeaten(OneTier(s, window, t0, bucket), u, n);
    var above := Newer(kept, u);
    forall y, z | y in above && z in above && bucket(y.at) == bucket(z.at) ensures y == z {
      OneTierNewest(s, window, t0, bucket, y);
      OneTierNewest(s, window, t0, bucket, z);
      DifferentBuckets(s, bucket, y, z);
    }
    var r := Representatives(above, b, window, t1, bucket, x);
    Smaller(r, Newer(OneTier(b, window, t1, bucket), x));
  }

  /** The newest survives every capped prune. */
  lemma NewestIsKept(s: set<Backup>, kept: set<Backup>, window: Option<int>, bucket: int -> int, t0: int, n: nat,
      z: Backup)
    requires FirstPrune(s, kept, window, bucket, t0, n) && z in NewestOnly(s)
    ensures z in kept
  {
    var tier := OneTier(s, window, t0, bucket);
    assert Newer(tier, z) <= Newer(s, z);
  }

  /** A later choice from the full history that was there at the first prune was kept by it. */
  lemma LaterChoiceIsKept(s: set<Backup>, kept: set<Backup>, later: set<Backup>, window: Option<int>,
      bucket: int -> int, t0: int, t1: int, n: nat, x: Backup)
    requires FirstPrune(s, kept, window, bucket, t0, n) && t0 <= t1 && DistinctTimes(s + later) && kept <= s
    requires x in Top(OneTier(s + later, window, t1, bucket), n) && x in s
    ensures x in kept
  {
    var all := s + later;
    if x in NewestOnly(all) {
      assert Newer(s, x) <= Newer(all, x);
      NewestIsKept(s, kept, window, bucket, t0, n, x);
    } else if x !in kept {
      assert x in OneTier(s, window, t0, bucket);
      CutStaysBeaten(s, kept, all, window, bucket, t0, t1, n, x, x);
    }
  }

  lemma LaterChoiceStays(s: set<Backup>, kept: set<Backup>, later: set<Backup>, window: Option<int>,
      bucket: int -> int, t0: int, t1: int, n: nat, x: Backup)
    requires FirstPrune(s, kept, window, bucket, t0, n) && t0 <= t1 && DistinctTimes(s + later) && kept <= s
    requires x in Top(OneTier(s + later, window, t1, bucket), n)
    ensures x in Top(OneTier(kept + later, window, t1, bucket), n)
  {
    var all, now := s + later, kept + later;
    if x in s { LaterChoiceIsKept(s, kept, later, window, bucket, t0, t1, n, x); }
    TierOfSubset(now, all, window, t1, bucket, x);
    var above := Newer(OneTier(now, window, t1, bucket), x);
    if x in NewestOnly(all) {
      assert above <= Newer(all, x);
    } else {
      forall y, z | y in above && z in above && bucket(y.at) == bucket(z.at) ensures y == z {
        OneTierNewest(now, window, t1, bucket, y);
        OneTierNewest(now, window, t1, bucket, z);
        DifferentBuckets(now, bucket, y, z);
      }
      var r := Representatives(above, all, window, t1, bucket, x);
      Smaller(r, Newer(OneTier(all, window, t1, bucket), x));
    }
  }

  /** Nothing the full history would choose at or above a survivor's choice is missing. */
  lemma NothingMissingAbove(s: set<Backup>, kept: set<Backup>, later: set<Backup>, window: Option<int>,
      bucket: int -> int, t0: int, t1: int, n: nat, x: Backup, y: Backup)
    requires FirstPrune(s, kept, window, bucket, t0, n) && t0 <= t1 && DistinctTimes(s + later) && kept <= s
    requires x in Top(OneTier(kept + later, window, t1, bucket), n) && InWindow(x, window, t1)
    requires y in OneTier(s + later, window, t1, bucket) && y.at >= x.at
    ensures y in kept + later
  {
    if y in s && y !in kept {
      TierHolds(s, later, window, bucket, t0, t1, x, y);
      CutStaysBeaten(s, kept, kept + later, window, bucket, t0, t1, n, y, x);
    }
  }

  lemma TierHolds(s: set<Backup>, later: set<Backup>, window: Option<int>, bucket: int -> int, t0: int, t1: int,
      x: Backup, y: Backup)
    requires t0 <= t1 && y in s && y in OneTier(s + later, window, t1, bucket) && y.at >= x.at
    requires InWindow(x, window, t1)
    ensures y in OneTier(s, window, t0, bucket)
  {
    TierOfSubset(s, s + later, window, t1, bucket, y);
    OneTierNewest(s, window, t1, bucket, y);
  }

  lemma SurvivorChoiceIsRight(s: set<Backup>, kept: set<Backup>, later: set<Backup>, window: Option<int>,
      bucket: int -> int, t0: int, t1: int, n: nat, x: Backup)
    requires FirstPrune(s, kept, window, bucket, t0, n) && t0 <= t1 && DistinctTimes(s + later) && kept <= s
    requires x in Top(OneTier(kept + later, window, t1, bucket), n)
    ensures x in Top(OneTier(s + later, window, t1, bucket), n)
  {
    var all, now := s + later, kept + later;
    if InWindow(x, window, t1) {
      OneTierNewest(now, window, t1, bucket, x);
      var z := SurvivorInBucket(all, x, window, t1, bucket);
      NothingMissingAbove(s, kept, later, window, bucket, t0, t1, n, x, z);
      assert z == x;
      forall y | y in Newer(OneTier(all, window, t1, bucket), x)
        ensures y in Newer(OneTier(now, window, t1, bucket), x)
      {
        NothingMissingAbove(s, kept, later, window, bucket, t0, t1, n, x, y);
        TierOfSubset(now, all, window, t1, bucket, y);
      }
      Smaller(Newer(OneTier(all, window, t1, bucket), x), Newer(OneTier(now, window, t1, bucket), x));
    } else {
      NewestAgain(s, kept, later, window, bucket, t0, n, x);
      assert Newer(OneTier(all, window, t1, bucket), x) <= Newer(all, x);
    }
  }

  lemma NewestAgain(s: set<Backup>, kept: set<Backup>, later: set<Backup>, window: Option<int>, bucket: int -> int,
      t0: int, n: nat, x: Backup)
    requires FirstPrune(s, kept, window, bucket, t0, n) && kept <= s && x in NewestOnly(kept + later)
    ensures x in NewestOnly(s + later)
  {
    forall y | y in s + later ensures y.at <= x.at {
      if y in s {
        var z := NewestExists(s);
        assert z in NewestOnly(s);
        NewestIsKept(s, kept, window, bucket, t0, n, z);
        assert z !in Newer(kept + later, x);
      } else {
        assert y !in Newer(kept + later, x);
      }
    }
  }

  /** One tier and a cap: pruning first and adding later chooses what pruning at once chooses. */
  lemma CappedTierHeritage(s: set<Backup>, later: set<Backup>, window: Option<int>, bucket: int -> int, t0: int,
      t1: int, n: nat)
    requires t0 <= t1 && n >= 1 && DistinctTimes(s + later)
    ensures var kept := Top(OneTier(s, window, t0, bucket), n);
      Top(OneTier(kept + later, window, t1, bucket), n) == Top(OneTier(s + later, window, t1, bucket), n)
  {
    hide OneTier; hide Top; hide DistinctTimes;
    var kept := Top(OneTier(s, window, t0, bucket), n);
    assert kept <= s by { TopOfTier(s, window, t0, bucket, n); }
    var now, all := OneTier(kept + later, window, t1, bucket), OneTier(s + later, window, t1, bucket);
    forall x ensures x in Top(now, n) <==> x in Top(all, n) {
      if x in Top(OneTier(kept + later, window, t1, bucket), n) {
        SurvivorChoiceIsRight(s, kept, later, window, bucket, t0, t1, n, x);
      }
      if x in Top(OneTier(s + later, window, t1, bucket), n) {
        LaterChoiceStays(s, kept, later, window, bucket, t0, t1, n, x);
      }
    }
  }

  lemma TopOfTier(s: set<Backup>, window: Option<int>, now: int, bucket: int -> int, n: nat)
    ensures Top(OneTier(s, window, now, bucket), n) <= s
  {}

  function TierCount(p: Policy): nat {
    (if p.keepAllDays.Some? then 1 else 0) + (if p.dailyDays.Some? then 1 else 0)
    + (if p.weeklyWeeks.Some? then 1 else 0) + (if p.monthlyMonths.Some? then 1 else 0)
  }

  function SoleWindow(p: Policy): Option<int> {
    if p.keepAllDays.Some? then p.keepAllDays else if p.dailyDays.Some? then p.dailyDays
    else if p.weeklyWeeks.Some? then Scaled(p.weeklyWeeks, 7) else Scaled(p.monthlyMonths, 31)
  }

  function SoleBucket(p: Policy, cal: Calendar): int -> int {
    if p.keepAllDays.Some? then ((t: int) => t) else if p.dailyDays.Some? then cal.day
    else if p.weeklyWeeks.Some? then cal.week else cal.month
  }

  lemma SoleTier(s: set<Backup>, p: Policy, now: int, cal: Calendar)
    requires TierCount(p) == 1
    ensures TierKeep(s, p, now, cal) == OneTier(s, SoleWindow(p), now, SoleBucket(p, cal))
  {
    TierParts(s, p, now, cal);
    hide TierKeep; hide Newer;
    if p.keepAllDays.Some? {
      assert RecentSet(s, p.keepAllDays, now) == NewestSet(s, p.keepAllDays, now, SoleBucket(p, cal));
    }
  }

  /** A cap of one keeps the newest, whatever the tiers. */
  lemma CapOne(s: set<Backup>, p: Policy, now: int, cal: Calendar)
    ensures Top(TierKeep(s, p, now, cal), 1) == Top(s, 1)
  {
    var tier := TierKeep(s, p, now, cal);
    forall x ensures x in Top(tier, 1) <==> x in Top(s, 1) {
      if x in Top(s, 1) { assert Newer(tier, x) <= Newer(s, x); }
      if x in Top(tier, 1) {
        var z := NewestExists(s);
        assert Newer(s, z) == {};
        assert z !in Newer(tier, x);
        assert Newer(s, x) == {};
      }
    }
  }

  /** Policies for which pruning along the way never matters: no tiers, no cap, a cap of one, or
      a single tier. */
  ghost predicate Unmixed(p: Policy) { !p.HasTiers() || p.countCap <= 1 || TierCount(p) == 1 }

  lemma KeepHeritage(s: set<Backup>, later: set<Backup>, p: Policy, t0: int, t1: int, cal: Calendar)
    requires t0 <= t1 && Unmixed(p) && (p.HasTiers() && p.countCap > 1 ==> DistinctTimes(s + later))
    ensures Keep(Keep(s, p, t0, cal) + later, p, t1, cal) == Keep(s + later, p, t1, cal)
  {
    hide TierKeep; hide Top; hide OneTier;
    if !p.HasTiers() {
      TopHeritage(s, later, if p.countCap > 0 then p.countCap else 1);
    } else if p.countCap <= 0 {
      TierHeritage(s, later, p, t0, t1, cal);
    } else if p.countCap == 1 {
      CapOne(s, p, t0, cal);
      CapOne(Top(s, 1) + later, p, t1, cal);
      CapOne(s + later, p, t1, cal);
      TopHeritage(s, later, 1);
    } else {
      SoleTier(s, p, t0, cal);
      SoleTier(Keep(s, p, t0, cal) + later, p, t1, cal);
      SoleTier(s + later, p, t1, cal);
      CappedTierHeritage(s, later, SoleWindow(p), SoleBucket(p, cal), t0, t1, p.countCap);
    }
  }

  // ---- whole histories ----

  /** One instance's life: a successful backup arrives, or cleanup prunes at some time. */
  datatype Op = Arrive(backup: Backup) | Prune(now: int)

  ghost function Arrived(ops: seq<Op>): set<Backup> {
    set op | op in ops && op.Arrive? :: op.backup
  }

  /** Clocks do not run backwards, and none is past t. */
  ghost predicate ClocksUpTo(ops: seq<Op>, t: int) {
    && (forall i | 0 <= i < |ops| && ops[i].Prune? :: ops[i].now <= t)
    && (forall i, j | 0 <= i < j < |ops| && ops[i].Prune? && ops[j].Prune? :: ops[i].now <= ops[j].now)
  }

  /** The rows left after the operations; every prune keeps what compute_keep_ids names. */
  ghost function RowsAfter(ops: seq<Op>, p: Policy, cal: Calendar): seq<Backup> {
    if ops == [] then []
    else
      var rows := RowsAfter(ops[..|ops| - 1], p, cal);
      match ops[|ops| - 1]
      case Arrive(b) => rows + [b]
      case Prune(now) => Selected(rows, KeepIds(NewestFirst(rows), p, now, cal))
  }

  ghost function SetAfter(ops: seq<Op>, p: Policy, cal: Calendar): set<Backup> {
    if ops == [] then {}
    else
      var s := SetAfter(ops[..|ops| - 1], p, cal);
      match ops[|ops| - 1]
      case Arrive(b) => s + {b}
      case Prune(now) => Keep(s, p, now, cal)
  }

  lemma ArrivedSnoc(ops: seq<Op>)
    requires ops != []
    ensures Arrived(ops) == Arrived(ops[..|ops| - 1]) + match ops[|ops| - 1] case Arrive(b) => {b} case Prune(_) => {}
  {
    var n := |ops| - 1;
    assert ops == ops[..n] + [ops[n]];
    forall b ensures b in Arrived(ops) <==> Arrive(b) in ops {
      assert b in Arrived(ops) ==> exists op :: op in ops && op == Arrive(b);
    }
    forall b ensures b in Arrived(ops[..n]) <==> Arrive(b) in ops[..n] {
      assert b in Arrived(ops[..n]) ==> exists op :: op in ops[..n] && op == Arrive(b);
    }
  }

  lemma {:induction false} AfterArrived(ops: seq<Op>, p: Policy, cal: Calendar)
    ensures SetAfter(ops, p, cal) <= Arrived(ops)
  {
    hide Keep;
    if ops != [] {
      var n := |ops| - 1;
      AfterArrived(ops[..n], p, cal);
      ArrivedSnoc(ops);
      if ops[n].Prune? { KeepSubset(SetAfter(ops[..n], p, cal), p, ops[n].now, cal); }
    }
  }

  /** The state after any history is as good as the full history for every later prune. */
  lemma {:induction false} HistoryForgotten(ops: seq<Op>, later: set<Backup>, p: Policy, t: int, cal: Calendar)
    requires Unmixed(p) && ClocksUpTo(ops, t)
    requires p.HasTiers() && p.countCap > 1 ==> DistinctTimes(Arrived(ops) + later)
    ensures Keep(SetAfter(ops, p, cal) + later, p, t, cal) == Keep(Arrived(ops) + later, p, t, cal)
  {
    hide Keep;
    if ops != [] {
      var n := |ops| - 1;
      var s, all := SetAfter(ops[..n], p, cal), Arrived(ops[..n]);
      ArrivedSnoc(ops);
      AfterArrived(ops[..n], p, cal);
      match ops[n]
      case Arrive(b) =>
        HistoryForgotten(ops[..n], {b} + later, p, t, cal);
        assert s + {b} + later == s + ({b} + later) && all + {b} + later == all + ({b} + later);
      case Prune(now) =>
        KeepHeritage(s, later, p, now, t, cal);
        HistoryForgotten(ops[..n], later, p, t, cal);
        assert Arrived(ops) == all;
    } else { assert Arrived(ops) == {}; }
  }

  ghost predicate DistinctArrivals(ops: seq<Op>) {
    && (forall i, j | 0 <= i < j < |ops| && ops[i].Arrive? && ops[j].Arrive? :: ops[i].backup.id != ops[j].backup.id)
    && (forall i, j | 0 <= i < j < |ops| && ops[i].Arrive? && ops[j].Arrive? :: ops[i].backup.at != ops[j].backup.at)
  }

  /** The rows in the table are the set the choice functions speak about. */
  lemma {:induction false} RowsAreSet(ops: seq<Op>, p: Policy, cal: Calendar)
    requires DistinctArrivals(ops)
    ensures var rows := RowsAfter(ops, p, cal);
      Elements(rows) == SetAfter(ops, p, cal) && Elements(rows) <= Arrived(ops) && Distinct(rows)
  {
    hide Keep; hide KeepIds; hide Selected; hide NewestFirst;
    if ops != [] {
      var n := |ops| - 1;
      var rows := RowsAfter(ops[..n], p, cal);
      RowsAreSet(ops[..n], p, cal);
      ArrivedSnoc(ops);
      match ops[n]
      case Arrive(b) =>
        ElementsSnoc(rows, b);
        assert b !in Arrived(ops[..n]);
        assert forall i | 0 <= i < |rows| :: rows[i] in Elements(rows);
      case Prune(now) =>
        DistinctParts(ops[..n]);
        PruneIsChoice(rows, p, now, cal);
        KeepSubset(Elements(rows), p, now, cal);
    }
  }

  lemma DistinctParts(ops: seq<Op>)
    requires DistinctArrivals(ops)
    ensures DistinctTimes(Arrived(ops)) && DistinctIds(Arrived(ops))
  {
    forall x, y | x in Arrived(ops) && y in Arrived(ops) && (x.at == y.at || x.id == y.id) ensures x == y {
      var i :| 0 <= i < |ops| && ops[i] == Arrive(x);
      var j :| 0 <= j < |ops| && ops[j] == Arrive(y);
    }
  }

  lemma PruneIsChoice(rows: seq<Backup>, p: Policy, now: int, cal: Calendar)
    requires Distinct(rows) && DistinctTimes(Elements(rows)) && DistinctIds(Elements(rows))
    ensures var kept := Selected(rows, KeepIds(NewestFirst(rows), p, now, cal));
      Elements(kept) == Keep(Elements(rows), p, now, cal) && Distinct(kept)
  {
    hide Keep; hide KeepIds;
    var ids := KeepIds(NewestFirst(rows), p, now, cal);
    KeepIdsIsChoice(rows, p, now, cal);
    SelectedMember(rows, ids);
    SelectedDistinct(rows, ids);
    KeepSubset(Elements(rows), p, now, cal);
  }

  lemma KeepSubset(s: set<Backup>, p: Policy, now: int, cal: Calendar)
    ensures Keep(s, p, now, cal) <= s
  {}

  lemma {:induction false} SelectedDistinct(s: seq<Backup>, ids: set<int>)
    requires Distinct(s)
    ensures Distinct(Selected(s, ids))
  {
    if s != [] {
      SelectedDistinct(s[1..], ids);
      SelectedMember(s[1..], ids);
    }
  }

  /** Any interleaving of arrivals and prunes that ends with a prune leaves the rows that one
      prune of the whole never-pruned history leaves. */
  lemma IncrementalEqualsBatch(ops: seq<Op>, p: Policy, now: int, cal: Calendar)
    requires Unmixed(p) && DistinctArrivals(ops) && ClocksUpTo(ops, now)
    ensures Elements(RowsAfter(ops + [Prune(now)], p, cal)) == Keep(Arrived(ops), p, now, cal)
  {
    hide Keep; hide RowsAfter;
    var all := ops + [Prune(now)];
    assert all[..|all| - 1] == ops;
    RowsAreSet(all, p, cal);
    DistinctParts(ops);
    assert Arrived(ops) + {} == Arrived(ops);
    HistoryForgotten(ops, {}, p, now, cal);
    assert SetAfter(ops, p, cal) + {} == SetAfter(ops, p, cal) && Arrived(ops) + {} == Arrived(ops);
  }

  // ---- several tiers together with a count cap ----

  /** A choice from fewer backups that is no choice from all of them stands in for a newer one
      that is missing. */
  lemma StandsInForMissing(all: set<Backup>, s: set<Backup>, p: Policy, now: int, cal: Calendar, y: Backup)
    returns (u: Backup)
    requires s <= all && y in TierKeep(s, p, now, cal) && y !in TierKeep(all, p, now, cal)
    ensures u in TierKeep(all, p, now, cal) && u !in s && u.at > y.at
  {
    TierParts(s, p, now, cal);
    TierParts(all, p, now, cal);
    if y in NewestSet(s, p.dailyDays, now, cal.day) {
      u := SurvivorInBucket(all, y, p.dailyDays, now, cal.day);
    } else if y in NewestSet(s, Scaled(p.weeklyWeeks, 7), now, cal.week) {
      u := SurvivorInBucket(all, y, Scaled(p.weeklyWeeks, 7), now, cal.week);
    } else if y in NewestSet(s, Scaled(p.monthlyMonths, 31), now, cal.month) {
      u := SurvivorInBucket(all, y, Scaled(p.monthlyMonths, 31), now, cal.month);
    } else {
      u := NewestExists(all);
      assert u in NewestOnly(all);
      assert u in s ==> u !in Newer(s, y);
    }
  }

  /** A choice from all backups is one from any part that contains it, and at any earlier time. */
  lemma ChoiceOfPart(all: set<Backup>, s: set<Backup>, p: Policy, t0: int, t1: int, cal: Calendar, b: Backup)
    requires s <= all && b in s && t0 <= t1 && b in TierKeep(all, p, t1, cal)
    ensures b in TierKeep(s, p, t0, cal)
  {
    assert Newer(s, b) <= Newer(all, b);
  }

  ghost predicate Capped(p: Policy) { p.HasTiers() && p.countCap > 0 }

  lemma BatchChoiceChosen(all: set<Backup>, s: set<Backup>, p: Policy, now: int, cal: Calendar, b: Backup)
    requires Capped(p) && s <= all && Keep(all, p, now, cal) <= s && b in Keep(all, p, now, cal)
    ensures b in Keep(s, p, now, cal)
  {
    hide TierKeep;
    var tier, part := TierKeep(all, p, now, cal), TierKeep(s, p, now, cal);
    ChoiceOfPart(all, s, p, now, now, cal, b);
    forall y | y in Newer(part, b) ensures y in Newer(tier, b) {
      if y !in tier {
        var u := StandsInForMissing(all, s, p, now, cal, y);
        assert Newer(tier, u) <= Newer(tier, b);
        Smaller(Newer(tier, u), Newer(tier, b));
      }
    }
    Smaller(Newer(part, b), Newer(tier, b));
  }

  lemma OnlyBatchChoices(all: set<Backup>, s: set<Backup>, p: Policy, now: int, cal: Calendar, x: Backup)
    requires Capped(p) && s <= all && Keep(all, p, now, cal) <= s && x in Keep(s, p, now, cal)
    ensures x in Keep(all, p, now, cal)
  {
    hide TierKeep;
    var tier, part, batch := TierKeep(all, p, now, cal), TierKeep(s, p, now, cal), Keep(all, p, now, cal);
    if x !in batch {
      var u := x;
      if x !in tier { u := StandsInForMissing(all, s, p, now, cal, x); }
      DroppedIsBeaten(tier, u, p.countCap);
      forall b | b in Newer(batch, u) ensures b in Newer(part, x) { ChoiceOfPart(all, s, p, now, now, cal, b); }
      Smaller(Newer(batch, u), Newer(part, x));
    }
  }

  /** Tiers and a cap: what is left chooses as everything would exactly when everything's choice
      is still there. */
  lemma SameChoiceIffPresent(all: set<Backup>, s: set<Backup>, p: Policy, now: int, cal: Calendar)
    requires Capped(p) && s <= all
    ensures Keep(s, p, now, cal) == Keep(all, p, now, cal) <==> Keep(all, p, now, cal) <= s
  {
    hide Keep;
    KeepSubset(s, p, now, cal);
    if Keep(all, p, now, cal) <= s {
      forall x ensures x in Keep(s, p, now, cal) <==> x in Keep(all, p, now, cal) {
        if x in Keep(s, p, now, cal) { OnlyBatchChoices(all, s, p, now, cal, x); }
        if x in Keep(all, p, now, cal) { BatchChoiceChosen(all, s, p, now, cal, x); }
      }
    }
  }

  /** What the cap cut at step i of a history: chosen by the tiers, not among the newest n. */
  ghost function CutAt(ops: seq<Op>, i: nat, p: Policy, cal: Calendar): set<Backup>
    requires i < |ops|
  {
    if ops[i].Arrive? then {}
    else
      var s := SetAfter(ops[..i], p, cal);
      TierKeep(s, p, ops[i].now, cal) - Keep(s, p, ops[i].now, cal)
  }

  /** Only a prune whose tiers choose more than the cap cuts anything. */
  lemma CutNeedsFullCap(ops: seq<Op>, i: nat, p: Policy, cal: Calendar)
    requires i < |ops| && Capped(p) && CutAt(ops, i, p, cal) != {}
    ensures ops[i].Prune? && |TierKeep(SetAfter(ops[..i], p, cal), p, ops[i].now, cal)| > p.countCap
  {
    hide TierKeep; hide Top;
    if ops[i].Prune? {
      var tier := TierKeep(SetAfter(ops[..i], p, cal), p, ops[i].now, cal);
      if |tier| <= p.countCap { TopOfFew(tier, p.countCap); }
    }
  }

  lemma TopOfFew(s: set<Backup>, n: int)
    requires |s| <= n
    ensures Top(s, n) == s
  {
    forall x | x in s ensures |Newer(s, x)| < n { assert x !in Newer(s, x); Smaller(Newer(s, x), s); }
  }

  ghost predicate NeverCut(ops: seq<Op>, p: Policy, cal: Calendar, b: Backup) {
    forall i | 0 <= i < |ops| :: b !in CutAt(ops, i, p, cal)
  }

  /** A backup that the final tiers choose is still there exactly when no cap cut it. */
  lemma {:induction false} PresentIffNeverCut(ops: seq<Op>, all: set<Backup>, p: Policy, t: int, cal: Calendar,
      b: Backup)
    requires Capped(p) && DistinctArrivals(ops) && ClocksUpTo(ops, t) && Arrived(ops) <= all && b in Arrived(ops)
    requires b in TierKeep(all, p, t, cal)
    ensures b in SetAfter(ops, p, cal) <==> NeverCut(ops, p, cal, b)
  {
    hide Keep; hide TierKeep;
    var n := |ops| - 1;
    var before := ops[..n];
    ArrivedSnoc(ops);
    AfterArrived(before, p, cal);
    CutsOfPrefix(ops, p, cal, b);
    if b in Arrived(before) {
      PresentIffNeverCut(before, all, p, t, cal, b);
      if ops[n].Arrive? {
        OneArrival(ops, b);
      } else if b in SetAfter(before, p, cal) {
        ChoiceOfPart(all, SetAfter(before, p, cal), p, ops[n].now, t, cal, b);
      } else {
        KeepSubset(SetAfter(before, p, cal), p, ops[n].now, cal);
      }
    } else {
      NotYetCut(before, p, cal, b);
    }
  }

  lemma OneArrival(ops: seq<Op>, b: Backup)
    requires ops != [] && DistinctArrivals(ops) && b in Arrived(ops[..|ops| - 1])
    ensures ops[|ops| - 1] != Arrive(b)
  {
    var before := ops[..|ops| - 1];
    var op :| op in before && op.Arrive? && op.backup == b;
    var i :| 0 <= i < |before| && before[i] == op;
    assert ops[i] == op;
  }

  lemma CutsOfPrefix(ops: seq<Op>, p: Policy, cal: Calendar, b: Backup)
    requires ops != []
    ensures var n := |ops| - 1;
      NeverCut(ops, p, cal, b) <==> NeverCut(ops[..n], p, cal, b) && b !in CutAt(ops, n, p, cal)
  {
    hide Keep; hide TierKeep;
    var n := |ops| - 1;
    forall i | 0 <= i < n ensures CutAt(ops[..n], i, p, cal) == CutAt(ops, i, p, cal) {
      assert ops[..n][..i] == ops[..i];
    }
  }

  lemma {:induction false} NotYetCut(ops: seq<Op>, p: Policy, cal: Calendar, b: Backup)
    requires b !in Arrived(ops)
    ensures NeverCut(ops, p, cal, b)
  {
    hide Keep; hide TierKeep;
    forall i | 0 <= i < |ops| ensures b !in CutAt(ops, i, p, cal) {
      var s := SetAfter(ops[..i], p, cal);
      AfterArrived(ops[..i], p, cal);
      assert Arrived(ops[..i]) <= Arrived(ops) by { assert forall op | op in ops[..i] :: op in ops; }
      if ops[i].Prune? { TierKeepSubset(s, p, ops[i].now, cal); }
    }
  }

  /** The law for tiers and a cap, exactly: pruning along the way equals one prune of the full
      history if and only if no earlier cap cut a backup that prune keeps. */
  lemma IncrementalEqualsBatchIff(ops: seq<Op>, p: Policy, now: int, cal: Calendar)
    requires Capped(p) && DistinctArrivals(ops) && ClocksUpTo(ops, now)
    ensures Elements(RowsAfter(ops + [Prune(now)], p, cal)) == Keep(Arrived(ops), p, now, cal)
       <==> forall b | b in Keep(Arrived(ops), p, now, cal) :: NeverCut(ops, p, cal, b)
  {
    hide RowsAfter; hide Keep; hide TierKeep; hide NeverCut; hide Arrived;
    var rows := ops + [Prune(now)];
    assert rows[..|rows| - 1] == ops;
    assert DistinctArrivals(rows);
    RowsAreSet(rows, p, cal);
    AfterArrived(ops, p, cal);
    SameChoiceIffPresent(Arrived(ops), SetAfter(ops, p, cal), p, now, cal);
    forall b | b in Keep(Arrived(ops), p, now, cal) ensures b in SetAfter(ops, p, cal) <==> NeverCut(ops, p, cal, b) {
      KeepInTiers(Arrived(ops), p, now, cal, b);
      PresentIffNeverCut(ops, Arrived(ops), p, now, cal, b);
    }
  }

  lemma KeepInTiers(s: set<Backup>, p: Policy, now: int, cal: Calendar, b: Backup)
    requires Capped(p) && b in Keep(s, p, now, cal)
    ensures b in s && b in TierKeep(s, p, now, cal)
  {}

  /** The cap of a tiered policy never bites: at every prune the tiers, applied to what is there,
      choose no more than the cap. */
  ghost predicate CapIdle(ops: seq<Op>, p: Policy, cal: Calendar) {
    forall i | 0 <= i < |ops| && ops[i].Prune? ::
      |TierKeep(SetAfter(ops[..i], p, cal), p, ops[i].now, cal)| <= p.countCap
  }

  /** In particular the law holds while the cap stays idle. */
  lemma IncrementalEqualsBatchWhileCapIdle(ops: seq<Op>, p: Policy, now: int, cal: Calendar)
    requires Capped(p) && DistinctArrivals(ops) && ClocksUpTo(ops, now) && CapIdle(ops, p, cal)
    ensures Elements(RowsAfter(ops + [Prune(now)], p, cal)) == Keep(Arrived(ops), p, now, cal)
  {
    hide RowsAfter; hide Keep; hide TierKeep; hide CutAt;
    forall i | 0 <= i < |ops| ensures CutAt(ops, i, p, cal) == {} {
      if CutAt(ops, i, p, cal) != {} {
        CutNeedsFullCap(ops, i, p, cal);
      }
    }
    IncrementalEqualsBatchIff(ops, p, now, cal);
  }

  const OLD := Backup(1, 0)
  const MID := Backup(2, 40 * DAY)
  const NEW := Backup(3, 40 * DAY + 1)
  const MIXED := Policy(2, Some(1), None, None, Some(12))

  function ThirtyOneDayMonths(): Calendar
  {
    Calendar((t: int) => t / DAY, (t: int) => t / (7 * DAY), (t: int) => t / (31 * DAY))
  }

  function MixedHistory(): seq<Op> { [Arrive(OLD), Arrive(MID), Arrive(NEW), Prune(40 * DAY + 2)] }

  /** Once the cap bites it can drop a backup that a later prune of the full history would
      still keep as the newest of its month. */
  lemma MixedPolicyForgets()
    ensures var ops, now, cal := MixedHistory(), 60 * DAY, ThirtyOneDayMonths();
      DistinctArrivals(ops) && ClocksUpTo(ops, now)
      && OLD in Keep(Arrived(ops), MIXED, now, cal) && OLD !in RowsAfter(ops + [Prune(now)], MIXED, cal)
  {
    hide RowsAfter; hide Keep; hide DistinctArrivals; hide ClocksUpTo;
    var ops, now, cal := MixedHistory(), 60 * DAY, ThirtyOneDayMonths();
    var first, t0 := [Arrive(OLD), Arrive(MID), Arrive(NEW)], 40 * DAY + 2;
    MixedIsHistory();
    MixedArrivals();
    MixedBatch();
    MixedFirstPrune();
    assert ops == first + [Prune(t0)];
    SetAfterSnoc(first, Prune(t0), MIXED, cal);
    SetAfterSnoc(ops, Prune(now), MIXED, cal);
    KeepSubset(SetAfter(ops, MIXED, cal), MIXED, now, cal);
    RowsAreSet(ops + [Prune(now)], MIXED, cal);
    assert OLD !in Elements(RowsAfter(ops + [Prune(now)], MIXED, cal));
  }

  lemma SetAfterSnoc(ops: seq<Op>, op: Op, p: Policy, cal: Calendar)
    ensures SetAfter(ops + [op], p, cal) ==
      if op.Arrive? then SetAfter(ops, p, cal) + {op.backup} else Keep(SetAfter(ops, p, cal), p, op.now, cal)
  {
    hide Keep;
    assert (ops + [op])[..|ops|] == ops;
  }

  lemma MixedIsHistory()
    ensures DistinctArrivals(MixedHistory()) && ClocksUpTo(MixedHistory(), 60 * DAY)
    ensures DistinctArrivals(MixedHistory() + [Prune(60 * DAY)])
  {}

  lemma MixedArrivals()
    ensures Arrived(MixedHistory()) == {OLD, MID, NEW}
    ensures SetAfter([Arrive(OLD), Arrive(MID), Arrive(NEW)], MIXED, ThirtyOneDayMonths()) == {OLD, MID, NEW}
  {
    hide Keep;
    var ops, cal := MixedHistory(), ThirtyOneDayMonths();
    assert Arrive(OLD) in ops && Arrive(MID) in ops && Arrive(NEW) in ops;
    SetAfterSnoc([], Arrive(OLD), MIXED, cal);
    SetAfterSnoc([Arrive(OLD)], Arrive(MID), MIXED, cal);
    SetAfterSnoc([Arrive(OLD), Arrive(MID)], Arrive(NEW), MIXED, cal);
    assert [] + [Arrive(OLD)] == [Arrive(OLD)];
    assert [Arrive(OLD)] + [Arrive(MID)] == [Arrive(OLD), Arrive(MID)];
    assert [Arrive(OLD), Arrive(MID)] + [Arrive(NEW)] == [Arrive(OLD), Arrive(MID), Arrive(NEW)];
  }

  lemma MixedFirstPrune()
    ensures OLD !in Keep({OLD, MID, NEW}, MIXED, 40 * DAY + 2, ThirtyOneDayMonths())
  {
    var s, cal := {OLD, MID, NEW}, ThirtyOneDayMonths();
    var tiers := TierKeep(s, MIXED, 40 * DAY + 2, cal);
    assert MID in tiers && NEW in tiers;
    assert Newer(tiers, OLD) == {MID, NEW};
  }

  lemma MixedBatch()
    ensures OLD in Keep({OLD, MID, NEW}, MIXED, 60 * DAY, ThirtyOneDayMonths())
  {
    var s, cal := {OLD, MID, NEW}, ThirtyOneDayMonths();
    var tiers := TierKeep(s, MIXED, 60 * DAY, cal);
    assert cal.month(0) == 0 && cal.month(40 * DAY) == 1 && cal.month(40 * DAY + 1) == 1;
    assert NewestOfBucket(s, OLD, cal.month);
    assert !NewestOfBucket(s, MID, cal.month) by { assert NEW in s; }
    assert Newer(s, MID) != {} by { assert NEW in Newer(s, MID); }
    assert MID !in tiers;
    assert Newer(tiers, OLD) <= {NEW};
    Smaller(Newer(tiers, OLD), {NEW});
  }
}
