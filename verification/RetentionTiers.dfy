/** The kept set read off the policy: which field keeps which backup, in microseconds. */
module RetentionTiers {
  import opened Basics
  import opened Ordering
  import opened Retention
  import opened RetentionRuns

  /** No backup of the set that falls into the same bucket is newer. */
  ghost predicate LatestIn(s: set<Backup>, x: Backup, bucket: int -> int) {
    forall y | y in s && bucket(y.at) == bucket(x.at) :: y.at <= x.at
  }

  /** Some tier wants x: a field of the policy is set, its window reaches back to x, and for the day,
      week and month tiers x is the latest of its bucket. The latest of all is always wanted. */
  ghost predicate Wanted(s: set<Backup>, x: Backup, p: Policy, now: int, cal: Calendar) {
    || (p.keepAllDays.Some? && x.at >= now - p.keepAllDays.value * 86_400_000_000)
    || (p.dailyDays.Some? && x.at >= now - p.dailyDays.value * 86_400_000_000 && LatestIn(s, x, cal.day))
    || (p.weeklyWeeks.Some? && x.at >= now - p.weeklyWeeks.value * (7 * 86_400_000_000) && LatestIn(s, x, cal.week))
    || (p.monthlyMonths.Some? && x.at >= now - p.monthlyMonths.value * (31 * 86_400_000_000)
        && LatestIn(s, x, cal.month))
    || forall y | y in s :: y.at <= x.at
  }

  /** How the four tier fields and the count decide about x. */
  ghost predicate PolicyKeeps(s: set<Backup>, x: Backup, p: Policy, now: int, cal: Calendar) {
    if p.keepAllDays == None && p.dailyDays == None && p.weeklyWeeks == None && p.monthlyMonths == None then
      |set y | y in s && y.at > x.at| < (if p.countCap >= 1 then p.countCap else 1)
    else
      && Wanted(s, x, p, now, cal)
      && (p.countCap >= 1 ==> |set y | y in s && Wanted(s, y, p, now, cal) && y.at > x.at| < p.countCap)
  }

  lemma WantedIsTierKeeps(s: set<Backup>, x: Backup, p: Policy, now: int, cal: Calendar)
    requires x in s
    ensures TierKeeps(s, x, p, now, cal) <==> Wanted(s, x, p, now, cal)
  {
    hide Newer; hide NewestOfBucket; hide LatestIn;
    SameLatest(s, x, cal.day);
    SameLatest(s, x, cal.week);
    SameLatest(s, x, cal.month);
    NoneNewer(s, x);
    if p.weeklyWeeks.Some? { WindowScale(p.weeklyWeeks, 7); }
    if p.monthlyMonths.Some? { WindowScale(p.monthlyMonths, 31); }
  }

  lemma SameLatest(s: set<Backup>, x: Backup, bucket: int -> int)
    ensures NewestOfBucket(s, x, bucket) <==> LatestIn(s, x, bucket)
  {}

  lemma NoneNewer(s: set<Backup>, x: Backup)
    ensures Newer(s, x) == {} <==> forall y | y in s :: y.at <= x.at
  {
    if Newer(s, x) == {} {
      forall y | y in s ensures y.at <= x.at { assert y !in Newer(s, x); }
    }
  }

  lemma WindowScale(o: Option<int>, k: int)
    requires o.Some?
    ensures Scaled(o, k).Some? && Scaled(o, k).value * 86_400_000_000 == o.value * (k * 86_400_000_000)
  {}

  /** The set choice keeps x exactly when the policy keeps it. */
  lemma KeepMeans(s: set<Backup>, p: Policy, now: int, cal: Calendar, x: Backup)
    ensures x in Keep(s, p, now, cal) <==> x in s && PolicyKeeps(s, x, p, now, cal)
  {
    hide TierKeeps; hide Wanted;
    forall y | y in s ensures TierKeeps(s, y, p, now, cal) <==> Wanted(s, y, p, now, cal) {
      WantedIsTierKeeps(s, y, p, now, cal);
    }
    assert Newer(s, x) == set y | y in s && y.at > x.at;
    assert Newer(TierKeep(s, p, now, cal), x) == set y | y in s && Wanted(s, y, p, now, cal) && y.at > x.at;
  }

  /** The ids that come out of the list computation are those of the backups the policy keeps. */
  lemma KeptIff(backups: seq<Backup>, p: Policy, now: int, cal: Calendar, x: Backup)
    requires Distinct(backups) && DistinctTimes(Elements(backups)) && DistinctIds(Elements(backups)) && x in backups
    ensures x.id in KeepIds(NewestFirst(backups), p, now, cal) <==> PolicyKeeps(Elements(backups), x, p, now, cal)
  {
    hide KeepIds; hide Keep; hide PolicyKeeps; hide NewestFirst;
    KeepIdsIsChoice(backups, p, now, cal);
    KeepMeans(Elements(backups), p, now, cal, x);
    var kept := Keep(Elements(backups), p, now, cal);
    KeepSubset(Elements(backups), p, now, cal);
    if y :| y in kept && y.id == x.id { assert y == x; }
  }
}
