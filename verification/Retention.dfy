/** Grandfather-father-son retention: which backups of one instance survive. */
module Retention {
  import opened Basics

  datatype Backup = Backup(id: int, at: int)

  /** Tier sizes in days, weeks and months; countCap 0 or less means no cap. */
  datatype Policy = Policy(
    countCap: int, keepAllDays: Option<int>, dailyDays: Option<int>, weeklyWeeks: Option<int>,
        monthlyMonths: Option<int>)
  {
    predicate HasTiers() { keepAllDays.Some? || dailyDays.Some? || weeklyWeeks.Some? || monthlyMonths.Some? }
  }

  /** UTC date, ISO week and calendar month of an instant, each coded as an integer. */
  datatype Calendar = Calendar(day: int -> int, week: int -> int, month: int -> int)

  /** Instants are microseconds since some epoch. */
  const DAY := 86_400_000_000

  // ---- the sorted list ----

  /** sorted(..., reverse=True) keeps the input order of equal times. */
  function Place(b: Backup, s: seq<Backup>): seq<Backup> {
    if s == [] || b.at >= s[0].at then [b] + s else [s[0]] + Place(b, s[1..])
  }

  function NewestFirst(s: seq<Backup>): seq<Backup> {
    if s == [] then [] else Place(s[0], NewestFirst(s[1..]))
  }

  ghost predicate Descending(s: seq<Backup>) {
    forall i, j | 0 <= i < j < |s| :: s[i].at >= s[j].at
  }

  lemma {:induction false} PlaceMembers(b: Backup, s: seq<Backup>)
    ensures multiset(Place(b, s)) == multiset(s) + multiset{b}
  {
    if s != [] && b.at < s[0].at {
      PlaceMembers(b, s[1..]);
      assert s == [s[0]] + s[1..];
    }
  }

  lemma {:induction false} PlaceSorts(b: Backup, s: seq<Backup>)
    requires Descending(s)
    ensures Descending(Place(b, s))
  {
    if s != [] && b.at < s[0].at {
      var rest := Place(b, s[1..]);
      PlaceSorts(b, s[1..]);
      PlaceMembers(b, s[1..]);
      forall j | 0 <= j < |rest| ensures s[0].at >= rest[j].at {
        assert rest[j] in multiset(rest);
        assert rest[j] == b || rest[j] in s[1..];
      }
    }
  }

  lemma {:induction false} NewestFirstSorts(s: seq<Backup>)
    ensures Descending(NewestFirst(s)) && multiset(NewestFirst(s)) == multiset(s)
  {
    if s != [] {
      NewestFirstSorts(s[1..]);
      PlaceSorts(s[0], NewestFirst(s[1..]));
      PlaceMembers(s[0], NewestFirst(s[1..]));
      assert s == [s[0]] + s[1..];
    }
  }

  // ---- the keep set by position in the sorted list ----

  function Cutoff(now: int, days: int): int { now - days * DAY }

  /** Position i is the first of its bucket among those inside the window. */
  ghost predicate FirstOfBucket(ordered: seq<Backup>, i: nat, cutoff: int, bucket: int -> int)
    requires i < |ordered|
  {
    ordered[i].at >= cutoff
    && forall j | 0 <= j < i && ordered[j].at >= cutoff :: bucket(ordered[j].at) != bucket(ordered[i].at)
  }

  ghost function BucketIds(ordered: seq<Backup>, window: Option<int>, now: int, bucket: int -> int): set<int> {
    if window.None? then {}
    else set i | 0 <= i < |ordered| && FirstOfBucket(ordered, i, Cutoff(now, window.value), bucket) :: ordered[i].id
  }

  function Ids(s: seq<Backup>): set<int> { set b | b in s :: b.id }

  ghost function RecentIds(ordered: seq<Backup>, window: Option<int>, now: int): set<int> {
    if window.None? then {} else set b | b in ordered && b.at >= Cutoff(now, window.value) :: b.id
  }

  function Scaled(o: Option<int>, k: int): Option<int> { if o.None? then None else Some(k * o.value) }

  ghost function TierIds(ordered: seq<Backup>, p: Policy, now: int, cal: Calendar): set<int>
    requires ordered != []
  {
    RecentIds(ordered, p.keepAllDays, now)
    + BucketIds(ordered, p.dailyDays, now, cal.day)
    + BucketIds(ordered, Scaled(p.weeklyWeeks, 7), now, cal.week)
    + BucketIds(ordered, Scaled(p.monthlyMonths, 31), now, cal.month)
    + {ordered[0].id}
  }

  function Selected(ordered: seq<Backup>, ids: set<int>): seq<Backup> {
    if ordered == [] then []
    else (if ordered[0].id in ids then [ordered[0]] else []) + Selected(ordered[1..], ids)
  }

  function Take<T>(s: seq<T>, n: int): seq<T> { if n <= 0 then [] else if n < |s| then s[..n] else s }

  /** What compute_keep_ids returns for the sorted list. */
  ghost function KeepIds(ordered: seq<Backup>, p: Policy, now: int, cal: Calendar): set<int> {
    if ordered == [] then {}
    else if !p.HasTiers() then Ids(Take(ordered, p.countCap)) + {ordered[0].id}
    else
      var tiers := TierIds(ordered, p, now, cal);
      if p.countCap > 0 && |tiers| > p.countCap
      then Ids(Take(Selected(ordered, tiers), p.countCap)) + {ordered[0].id}
      else tiers
  }

  /** `newest_per_bucket`: adds the first id of every bucket inside the window. */
  method NewestPerBucket(ordered: seq<Backup>, window: int, now: int, bucket: int -> int, before: set<int>)
    returns (keep: set<int>)
    ensures keep == before + BucketIds(ordered, Some(window), now, bucket)
  {
    var cutoff := Cutoff(now, window);
    keep := before;
    var seen: set<int> := {};
    for i := 0 to |ordered|
      invariant forall b :: b in seen <==>
        exists j | 0 <= j < i :: ordered[j].at >= cutoff && bucket(ordered[j].at) == b
      invariant keep == before + set j | 0 <= j < i && FirstOfBucket(ordered, j, cutoff, bucket) :: ordered[j].id
    {
      var at := ordered[i].at;
      assert FirstOfBucket(ordered, i, cutoff, bucket) <==> at >= cutoff && bucket(at) !in seen;
      if at >= cutoff && bucket(at) !in seen {
        seen := seen + {bucket(at)};
        keep := keep + {ordered[i].id};
      }
    }
  }

  /** `compute_keep_ids` on any list, in any order, with repeated times or ids. */
  method ComputeKeepIds(backups: seq<Backup>, p: Policy, now: int, cal: Calendar) returns (keep: set<int>)
    ensures keep == KeepIds(NewestFirst(backups), p, now, cal)
    ensures keep <= Ids(backups)
    ensures backups != [] ==> exists b :: b in backups && b.id in keep && forall c | c in backups :: c.at <= b.at
    ensures p.countCap > 0 ==> |keep| <= p.countCap
  {
    hide Ids; hide Take; hide Selected; hide BucketIds; hide TierIds;
    NewestFirstSorts(backups);
    var ordered := NewestFirst(backups);
    SameMembers(backups, ordered);
    KeepBounds(ordered, p, now, cal);
    if backups == [] { return {}; }
    if !p.HasTiers() {
      TakeBounds(ordered, p.countCap);
      keep := if p.countCap > 0 then Ids(Take(ordered, p.countCap)) else {};
      if keep == {} { keep := {ordered[0].id}; }
      NoTake(ordered, p.countCap);
    } else {
      keep := UniteTiers(ordered, p, now, cal);
      if p.countCap > 0 && |keep| > p.countCap {
        keep := Ids(Take(Selected(ordered, keep), p.countCap));
        keep := keep + {ordered[0].id};
      }
    }
    assert ordered[0] in ordered;
  }

  lemma NoTake(s: seq<Backup>, n: int)
    ensures n <= 0 ==> Ids(Take(s, n)) == {}
  {}

  /** The tier part: the union over the tiers, and always the newest. */
  method UniteTiers(ordered: seq<Backup>, p: Policy, now: int, cal: Calendar) returns (keep: set<int>)
    requires ordered != []
    ensures keep == TierIds(ordered, p, now, cal)
  {
    hide BucketIds;
    keep := {};
    if p.keepAllDays.Some? {
      keep := set b | b in ordered && b.at >= Cutoff(now, p.keepAllDays.value) :: b.id;
    }
    assert keep == RecentIds(ordered, p.keepAllDays, now);
    keep := AddTier(ordered, p.dailyDays, now, cal.day, keep);
    keep := AddTier(ordered, Scaled(p.weeklyWeeks, 7), now, cal.week, keep);
    keep := AddTier(ordered, Scaled(p.monthlyMonths, 31), now, cal.month, keep);
    keep := keep + {ordered[0].id};
  }

  method AddTier(ordered: seq<Backup>, window: Option<int>, now: int, bucket: int -> int, before: set<int>)
    returns (keep: set<int>)
    ensures keep == before + BucketIds(ordered, window, now, bucket)
  {
    keep := before;
    if window.Some? { keep := NewestPerBucket(ordered, window.value, now, bucket, keep); }
  }

  lemma SameMembers(s: seq<Backup>, t: seq<Backup>)
    requires multiset(s) == multiset(t)
    ensures |s| == |t| && (forall b :: b in s <==> b in t) && Ids(s) == Ids(t)
  {
    forall b ensures b in s <==> b in t { assert b in multiset(s) <==> b in multiset(t); }
    assert |s| == |multiset(s)| && |t| == |multiset(t)|;
  }

  lemma {:induction false} SelectedMember(ordered: seq<Backup>, ids: set<int>)
    ensures forall b :: b in Selected(ordered, ids) <==> b in ordered && b.id in ids
    ensures |ordered| > 0 && ordered[0].id in ids ==>
      Selected(ordered, ids) != [] && Selected(ordered, ids)[0] == ordered[0]
  {
    if ordered != [] {
      SelectedMember(ordered[1..], ids);
      assert ordered == [ordered[0]] + ordered[1..];
    }
  }

  lemma {:induction false} IdsBound(s: seq<Backup>)
    ensures |Ids(s)| <= |s|
  {
    if s != [] {
      var n := |s| - 1;
      IdsBound(s[..n]);
      assert s == s[..n] + [s[n]];
      assert Ids(s) == Ids(s[..n]) + {s[n].id};
    }
  }

  lemma TakeBounds(s: seq<Backup>, n: int)
    requires s != []
    ensures Ids(Take(s, n)) <= Ids(s) && s[0].id in Ids(s)
    ensures n > 0 ==> Ids(Take(s, n)) + {s[0].id} == Ids(Take(s, n)) && |Ids(Take(s, n))| <= n
  {
    IdsBound(Take(s, n));
    assert s[0] in s;
    if n > 0 { assert Take(s, n)[0] == s[0] && s[0] in Take(s, n); }
  }

  lemma TierIdsAreIds(ordered: seq<Backup>, p: Policy, now: int, cal: Calendar)
    requires ordered != []
    ensures ordered[0].id in TierIds(ordered, p, now, cal) && TierIds(ordered, p, now, cal) <= Ids(ordered)
  {
    hide FirstOfBucket;
    assert forall i | 0 <= i < |ordered| :: ordered[i] in ordered;
  }

  lemma KeepBounds(ordered: seq<Backup>, p: Policy, now: int, cal: Calendar)
    ensures KeepIds(ordered, p, now, cal) <= Ids(ordered)
    ensures ordered != [] ==> ordered[0].id in KeepIds(ordered, p, now, cal)
    ensures p.countCap > 0 ==> |KeepIds(ordered, p, now, cal)| <= p.countCap
  {
    hide TierIds; hide Ids; hide Take; hide Selected;
    if ordered != [] {
      TakeBounds(ordered, p.countCap);
      var tiers := TierIds(ordered, p, now, cal);
      TierIdsAreIds(ordered, p, now, cal);
      SelectedMember(ordered, tiers);
      TakeBounds(Selected(ordered, tiers), p.countCap);
      SubIds(Selected(ordered, tiers), ordered);
    }
  }

  lemma SubIds(s: seq<Backup>, t: seq<Backup>)
    requires forall b | b in s :: b in t
    ensures Ids(s) <= Ids(t)
  {}

  // ---- the keep set as a choice from a set ----

  ghost predicate DistinctTimes(s: set<Backup>) {
    forall x, y | x in s && y in s && x.at == y.at :: x == y
  }

  ghost function Newer(s: set<Backup>, x: Backup): set<Backup> { set y | y in s && y.at > x.at }

  /** The n newest. */
  ghost function Top(s: set<Backup>, n: int): set<Backup> { set x | x in s && |Newer(s, x)| < n }

  ghost predicate NewestOfBucket(s: set<Backup>, x: Backup, bucket: int -> int) {
    forall y | y in s && bucket(y.at) == bucket(x.at) :: y.at <= x.at
  }

  ghost predicate InWindow(x: Backup, window: Option<int>, now: int) {
    window.Some? && x.at >= Cutoff(now, window.value)
  }

  ghost predicate TierKeeps(s: set<Backup>, x: Backup, p: Policy, now: int, cal: Calendar) {
    || InWindow(x, p.keepAllDays, now)
    || (InWindow(x, p.dailyDays, now) && NewestOfBucket(s, x, cal.day))
    || (InWindow(x, Scaled(p.weeklyWeeks, 7), now) && NewestOfBucket(s, x, cal.week))
    || (InWindow(x, Scaled(p.monthlyMonths, 31), now) && NewestOfBucket(s, x, cal.month))
    || Newer(s, x) == {}
  }

  ghost function TierKeep(s: set<Backup>, p: Policy, now: int, cal: Calendar): set<Backup> {
    set x | x in s && TierKeeps(s, x, p, now, cal)
  }

  /** Retention as a choice from a set of backups: no list, no order of visiting. */
  ghost function Keep(s: set<Backup>, p: Policy, now: int, cal: Calendar): set<Backup> {
    if !p.HasTiers() then Top(s, if p.countCap > 0 then p.countCap else 1)
    else if p.countCap > 0 then Top(TierKeep(s, p, now, cal), p.countCap)
    else TierKeep(s, p, now, cal)
  }
}
