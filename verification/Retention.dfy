/** The retention policy: the scan over snapshots from newest to oldest, what it
    protects, and why pruning may be interrupted and repeated. */
module Retention {
  import opened Model

  datatype Policy = Policy(keepLast: int, keepDaily: int, keepWeekly: int)

  const NANOS_PER_DAY := 86_400_000_000_000

  /** The UTC day of a time in nanoseconds since 1970. */
  function Day(t: int): int {
    t / NANOS_PER_DAY
  }

  /** The ISO week of a day: weeks begin on Monday, and day 0 was a Thursday. */
  function Week(t: int): int {
    (Day(t) + 3) / 7
  }

  /* ---- the order of snapshot IDs ---- */

  /** Go's `<` on strings. */
  predicate Less(a: string, b: string) {
    b != "" && (a == "" || a[0] < b[0] || (a[0] == b[0] && Less(a[1..], b[1..])))
  }

  lemma {:induction false} LessTransitive(a: string, b: string, c: string)
    requires Less(a, b) && Less(b, c)
    ensures Less(a, c)
  {
    if a != "" && a[0] == b[0] == c[0] {
      LessTransitive(a[1..], b[1..], c[1..]);
    }
  }

  lemma {:induction false} LessIrreflexive(a: string)
    ensures !Less(a, a)
  {
    if a != "" {
      LessIrreflexive(a[1..]);
    }
  }

  /** The order in which `Snapshots` returns manifests. */
  ghost predicate Ascending(list: seq<Manifest>) {
    forall j, k :: 0 <= j < k < |list| ==> Less(list[j].id, list[k].id)
  }

  ghost predicate Descending(list: seq<Manifest>) {
    forall j, k :: 0 <= j < k < |list| ==> Less(list[k].id, list[j].id)
  }

  /** Sorting an ascending list the other way round. */
  function NewestFirst(list: seq<Manifest>): (r: seq<Manifest>)
    ensures |r| == |list| && forall k :: 0 <= k < |r| ==> r[k] == list[|list| - 1 - k]
  {
    seq(|list|, k requires 0 <= k < |list| => list[|list| - 1 - k])
  }

  /** `NewestFirst` is what any descending sort of the list returns. */
  lemma NewestFirstSorts(list: seq<Manifest>, sorted: seq<Manifest>)
    requires Ascending(list)
    ensures Descending(NewestFirst(list))
    ensures Descending(sorted) && multiset(sorted) == multiset(list) ==> sorted == NewestFirst(list)
  {
    var r := NewestFirst(list);
    if Descending(sorted) && multiset(sorted) == multiset(list) {
      ReverseSameElements(list);
      DescendingUnique(sorted, r);
    }
  }

  lemma {:induction false} ReverseSameElements(list: seq<Manifest>)
    ensures multiset(NewestFirst(list)) == multiset(list)
  {
    if list != [] {
      ReverseSameElements(list[1..]);
      assert NewestFirst(list) == NewestFirst(list[1..]) + [list[0]];
      assert list == [list[0]] + list[1..];
    }
  }

  /** The head of a descending list is above every other entry. */
  lemma HeadIsNewest(a: seq<Manifest>, m: Manifest)
    requires Descending(a) && m in a && m != a[0]
    ensures Less(m.id, a[0].id)
  {
    hide Less;
    var k :| 0 <= k < |a| && a[k] == m;
  }

  lemma SameHead(a: seq<Manifest>, b: seq<Manifest>)
    requires Descending(a) && Descending(b) && multiset(a) == multiset(b) && a != [] && b != []
    ensures a[0] == b[0]
  {
    hide Less;
    assert a[0] in multiset(b) && b[0] in multiset(a);
    if a[0] != b[0] {
      HeadIsNewest(a, b[0]);
      HeadIsNewest(b, a[0]);
      LessTransitive(a[0].id, b[0].id, a[0].id);
      LessIrreflexive(a[0].id);
      assert false;
    }
  }

  lemma {:induction false} DescendingUnique(a: seq<Manifest>, b: seq<Manifest>)
    requires Descending(a) && Descending(b) && multiset(a) == multiset(b)
    ensures a == b
  {
    hide Less;
    assert |multiset(a)| == |a| && |multiset(b)| == |b|;
    if a != [] {
      SameHead(a, b);
      assert a == [a[0]] + a[1..] && b == [b[0]] + b[1..];
      assert multiset(a[1..]) == multiset(a) - multiset{a[0]};
      assert multiset(b[1..]) == multiset(b) - multiset{b[0]};
      DescendingUnique(a[1..], b[1..]);
    }
  }

  /* ---- buckets ---- */

  /** The distinct buckets among the first i. */
  function Before(buckets: seq<int>, i: nat): set<int>
    requires i <= |buckets|
  {
    set j | 0 <= j < i :: buckets[j]
  }

  /** Entry i is the first of its bucket, and fewer than `count` buckets come
      before it. */
  predicate Leads(buckets: seq<int>, count: int, i: nat)
    requires i < |buckets|
  {
    buckets[i] !in Before(buckets, i) && |Before(buckets, i)| < count
  }

  function Times(list: seq<Manifest>): seq<int> {
    seq(|list|, k requires 0 <= k < |list| => if list[k].created.Some? then list[k].created.value else 0)
  }

  function DaysOf(list: seq<Manifest>): (d: seq<int>)
    ensures |d| == |list|
  {
    seq(|list|, k requires 0 <= k < |list| => Day(Times(list)[k]))
  }

  function WeeksOf(list: seq<Manifest>): (w: seq<int>)
    ensures |w| == |list|
  {
    seq(|list|, k requires 0 <= k < |list| => Week(Times(list)[k]))
  }

  /** The policy protects the i-th newest snapshot. */
  predicate Protected(p: Policy, list: seq<Manifest>, i: nat)
    requires i < |list|
  {
    || i < p.keepLast
    || Leads(DaysOf(list), p.keepDaily, i)
    || Leads(WeeksOf(list), p.keepWeekly, i)
  }

  function Unprotected(p: Policy, list: seq<Manifest>, n: nat): seq<Manifest>
    requires n <= |list|
  {
    if n == 0 then [] else
      Unprotected(p, list, n - 1) + if Protected(p, list, n - 1) then [] else [list[n - 1]]
  }

  predicate Dated(list: seq<Manifest>) {
    forall k :: 0 <= k < |list| ==> list[k].created.Some?
  }

  /* ---- the scan ---- */

  /** The buckets the scan has taken after the first i entries. */
  function Taken(buckets: seq<int>, limit: int, i: nat): set<int>
    requires i <= |buckets|
  {
    if i == 0 then {}
    else if Leads(buckets, limit, i - 1) then Taken(buckets, limit, i - 1) + {buckets[i - 1]}
    else Taken(buckets, limit, i - 1)
  }

  /** The scan takes the first `limit` buckets there are. */
  lemma {:induction false} TakenSize(buckets: seq<int>, limit: int, i: nat)
    requires i <= |buckets|
    ensures Taken(buckets, limit, i) <= Before(buckets, i)
    ensures |Before(buckets, i)| <= limit ==> Taken(buckets, limit, i) == Before(buckets, i)
    ensures |Before(buckets, i)| >= limit >= 0 ==> |Taken(buckets, limit, i)| == limit
    ensures limit < 0 ==> Taken(buckets, limit, i) == {}
  {
    if i > 0 {
      TakenSize(buckets, limit, i - 1);
      BeforeNext(buckets, i - 1);
      var b, t := Before(buckets, i - 1), Taken(buckets, limit, i - 1);
      SubsetSize(b, Before(buckets, i));
      if buckets[i - 1] !in b {
        assert |b + {buckets[i - 1]}| == |b| + 1;
        if |b| < limit {
          assert t == b;
        }
      } else {
        assert b + {buckets[i - 1]} == b;
      }
    }
  }

  lemma BeforeNext(buckets: seq<int>, i: nat)
    requires i < |buckets|
    ensures Before(buckets, i + 1) == Before(buckets, i) + {buckets[i]}
  {}

  lemma SubsetSize<T>(a: set<T>, b: set<T>)
    requires a <= b
    ensures |a| <= |b|
    ensures |a| == |b| ==> a == b
  {
    var rest := b - a;
    assert b == a + rest && |b| == |a| + |rest|;
  }

  /** The test of the scan decides `Leads`. */
  lemma ScanDecides(buckets: seq<int>, limit: int, i: nat)
    requires i < |buckets|
    ensures var taken := Taken(buckets, limit, i);
            limit > 0 && buckets[i] !in taken && |taken| < limit <==> Leads(buckets, limit, i)
  {
    TakenSize(buckets, limit, i);
    SubsetSize(Taken(buckets, limit, i), Before(buckets, i));
  }

  /** One bucket of the scan: a new key is taken while there is room. */
  method TakeBucket(limit: int, key: int, seen: set<int>, count: nat, ghost buckets: seq<int>, ghost i: nat)
    returns (keeps: bool, seen': set<int>, count': nat)
    requires i < |buckets| && buckets[i] == key && seen == Taken(buckets, limit, i) && count == |seen|
    ensures keeps == Leads(buckets, limit, i)
    ensures seen' == Taken(buckets, limit, i + 1) && count' == |seen'|
  {
    ScanDecides(buckets, limit, i);
    keeps, seen', count' := false, seen, count;
    if limit > 0 {
      if key !in seen && count < limit {
        keeps, seen', count' := true, seen + {key}, count + 1;
      }
    }
  }

  datatype Outcome = BadPolicy | BadTime(id: string) | Candidates(remove: seq<Manifest>)

  /** Exactly the protected ones of the first n are in `keep`. */
  ghost predicate KeepsExactly(p: Policy, list: seq<Manifest>, n: nat, keep: set<string>)
    requires n <= |list|
  {
    && (forall k :: 0 <= k < n ==> (list[k].id in keep <==> Protected(p, list, k)))
    && (forall id :: id in keep ==> exists k :: 0 <= k < n && list[k].id == id)
  }

  lemma KeepsNext(p: Policy, snapshots: seq<Manifest>, n: nat, keep: set<string>)
    requires Ascending(snapshots) && n < |snapshots| && KeepsExactly(p, NewestFirst(snapshots), n, keep)
    ensures var list := NewestFirst(snapshots);
            KeepsExactly(p, list, n + 1, if Protected(p, list, n) then keep + {list[n].id} else keep)
  {
    hide Protected, Less, NewestFirst;
    IdsDiffer(snapshots, n);
    var list := NewestFirst(snapshots);
    var keep' := if Protected(p, list, n) then keep + {list[n].id} else keep;
    forall id | id in keep'
      ensures exists k :: 0 <= k < n + 1 && list[k].id == id
    {
      if id in keep {
        var k :| 0 <= k < n && list[k].id == id;
      } else {
        assert list[n].id == id;
      }
    }
  }

  /** The snapshots the policy does not protect, newest first. The list is what
      `Snapshots` returned. */
  method RetentionCandidates(p: Policy, snapshots: seq<Manifest>) returns (r: Outcome)
    requires Ascending(snapshots)
    ensures r.BadPolicy? <==> p.keepLast < 0 || p.keepDaily < 0 || p.keepWeekly < 0
    ensures r.BadTime? ==> exists s :: s in snapshots && s.created.None? && s.id == r.id
    ensures r.Candidates? ==>
              Dated(snapshots) && r.remove == Unprotected(p, NewestFirst(snapshots), |snapshots|)
  {
    hide Protected, Leads, Day, Week, Less, Before;
    if p.keepLast < 0 || p.keepDaily < 0 || p.keepWeekly < 0 {
      return BadPolicy;
    }
    var list := NewestFirst(snapshots);
    var keep: set<string> := {};
    var days: set<int>, weeks: set<int> := {}, {};
    var dayCount, weekCount := 0, 0;
    for index := 0 to |list|
      invariant forall k :: 0 <= k < index ==> list[k].created.Some?
      invariant days == Taken(DaysOf(list), p.keepDaily, index) && dayCount == |days|
      invariant weeks == Taken(WeeksOf(list), p.keepWeekly, index) && weekCount == |weeks|
      invariant KeepsExactly(p, list, index, keep)
    {
      var snapshot := list[index];
      if snapshot.created.None? {
        assert snapshot == snapshots[|list| - 1 - index];
        return BadTime(snapshot.id);
      }
      KeepsNext(p, snapshots, index, keep);
      ProtectedMeans(p, list, index);
      if index < p.keepLast {
        keep := keep + {snapshot.id};
      }
      var daily, weekly;
      daily, days, dayCount := TakeBucket(p.keepDaily, Day(snapshot.created.value), days, dayCount, DaysOf(list),
                                          index);
      if daily {
        keep := keep + {snapshot.id};
      }
      weekly, weeks, weekCount := TakeBucket(p.keepWeekly, Week(snapshot.created.value), weeks, weekCount,
                                             WeeksOf(list), index);
      if weekly {
        keep := keep + {snapshot.id};
      }
    }
    var remove: seq<Manifest> := [];
    for i := 0 to |list|
      invariant remove == Unprotected(p, list, i)
    {
      if list[i].id !in keep {
        remove := remove + [list[i]];
      }
    }
    forall k | 0 <= k < |snapshots|
      ensures snapshots[k].created.Some?
    {
      assert list[|list| - 1 - k] == snapshots[k];
    }
    return Candidates(remove);
  }

  lemma ProtectedMeans(p: Policy, list: seq<Manifest>, i: nat)
    requires i < |list|
    ensures Protected(p, list, i) <==>
              i < p.keepLast || Leads(DaysOf(list), p.keepDaily, i) || Leads(WeeksOf(list), p.keepWeekly, i)
  {}

  /** Snapshot IDs are distinct: the entry at `index` has none of the earlier IDs. */
  lemma IdsDiffer(snapshots: seq<Manifest>, index: nat)
    requires Ascending(snapshots) && index < |snapshots|
    ensures forall k :: 0 <= k < index ==> NewestFirst(snapshots)[k].id != NewestFirst(snapshots)[index].id
  {
    forall k | 0 <= k < index
      ensures NewestFirst(snapshots)[k].id != NewestFirst(snapshots)[index].id
    {
      LessIrreflexive(NewestFirst(snapshots)[k].id);
    }
  }

  /* ---- what the policy promises ---- */

  /** Raising any count protects no snapshot less. */
  lemma LargerCountsKeepMore(p: Policy, q: Policy, list: seq<Manifest>, i: nat)
    requires p.keepLast <= q.keepLast && p.keepDaily <= q.keepDaily && p.keepWeekly <= q.keepWeekly
    requires i < |list| && Protected(p, list, i)
    ensures Protected(q, list, i)
  {}

  /** The indices that lead a bucket. */
  function Leaders(buckets: seq<int>, count: int, n: nat): set<nat>
    requires n <= |buckets|
  {
    if n == 0 then {}
    else if Leads(buckets, count, n - 1) then Leaders(buckets, count, n - 1) + {n - 1}
    else Leaders(buckets, count, n - 1)
  }

  lemma {:induction false} LeadersAre(buckets: seq<int>, count: int, n: nat)
    requires n <= |buckets|
    ensures forall i: nat :: i in Leaders(buckets, count, n) <==> i < n && Leads(buckets, count, i)
  {
    hide Leads;
    if n > 0 {
      LeadersAre(buckets, count, n - 1);
    }
  }

  lemma {:induction false} LeadersTaken(buckets: seq<int>, count: int, n: nat)
    requires n <= |buckets|
    ensures |Leaders(buckets, count, n)| == |Taken(buckets, count, n)|
  {
    hide Leads, Before;
    if n > 0 {
      LeadersTaken(buckets, count, n - 1);
      LeaderIsNew(buckets, count, n - 1);
      LeadersAre(buckets, count, n - 1);
    }
  }

  lemma LeaderIsNew(buckets: seq<int>, count: int, i: nat)
    requires i < |buckets|
    ensures Leads(buckets, count, i) ==> buckets[i] !in Taken(buckets, count, i)
  {
    TakenSize(buckets, count, i);
  }

  lemma FewLeaders(buckets: seq<int>, count: nat, n: nat)
    requires n <= |buckets|
    ensures |Leaders(buckets, count, n)| <= count
  {
    hide Leads, Before, Leaders, Taken;
    LeadersTaken(buckets, count, n);
    TakenSize(buckets, count, n);
  }

  function ProtectedSet(p: Policy, list: seq<Manifest>): set<nat> {
    set i: nat | 0 <= i < |list| && Protected(p, list, i)
  }

  function FirstNats(n: nat): set<nat> {
    if n == 0 then {} else FirstNats(n - 1) + {n - 1}
  }

  lemma {:induction false} FirstNatsSize(n: nat)
    ensures |FirstNats(n)| == n && forall i: nat :: i in FirstNats(n) <==> i < n
  {
    if n > 0 {
      FirstNatsSize(n - 1);
    }
  }

  /** At most KeepLast + KeepDaily + KeepWeekly snapshots are kept. */
  lemma FewAreKept(p: Policy, list: seq<Manifest>)
    requires p.keepLast >= 0 && p.keepDaily >= 0 && p.keepWeekly >= 0
    ensures |ProtectedSet(p, list)| <= p.keepLast + p.keepDaily + p.keepWeekly
  {
    hide Leads, DaysOf, WeeksOf;
    var last := FirstNats(p.keepLast);
    var daily := Leaders(DaysOf(list), p.keepDaily, |list|);
    var weekly := Leaders(WeeksOf(list), p.keepWeekly, |list|);
    FirstNatsSize(p.keepLast);
    FewLeaders(DaysOf(list), p.keepDaily, |list|);
    FewLeaders(WeeksOf(list), p.keepWeekly, |list|);
    LeadersAre(DaysOf(list), p.keepDaily, |list|);
    LeadersAre(WeeksOf(list), p.keepWeekly, |list|);
    assert ProtectedSet(p, list) <= last + daily + weekly;
    SubsetSize(ProtectedSet(p, list), last + daily + weekly);
    UnionSize(last, daily);
    UnionSize(last + daily, weekly);
  }

  lemma UnionSize<T>(a: set<T>, b: set<T>)
    ensures |a + b| <= |a| + |b|
  {
    assert a + b == a + (b - a);
    SubsetSize(b - a, b);
  }

  /* ---- pruning ---- */

  /** `rest` is `list` without some of its unprotected entries: at[j] is where
      the j-th remaining entry was. */
  ghost predicate Pruned(p: Policy, list: seq<Manifest>, rest: seq<Manifest>, at: seq<nat>) {
    && |at| == |rest|
    && (forall j :: 0 <= j < |at| ==> at[j] < |list| && rest[j] == list[at[j]])
    && (forall j, k :: 0 <= j < k < |at| ==> at[j] < at[k])
    && (forall i :: 0 <= i < |list| && Protected(p, list, i) ==> i in at)
  }

  ghost predicate PrunedBuckets(count: int, buckets: seq<int>, rest: seq<int>, at: seq<nat>) {
    && |at| == |rest|
    && (forall j :: 0 <= j < |at| ==> at[j] < |buckets| && rest[j] == buckets[at[j]])
    && (forall j, k :: 0 <= j < k < |at| ==> at[j] < at[k])
    && (forall i :: 0 <= i < |buckets| && Leads(buckets, count, i) ==> i in at)
  }

  /** Everything kept before position at[j] is still before position j. */
  lemma PrunedBefore(count: int, buckets: seq<int>, rest: seq<int>, at: seq<nat>, j: nat)
    requires PrunedBuckets(count, buckets, rest, at) && j < |at|
    ensures Before(rest, j) <= Before(buckets, at[j])
    ensures forall i :: 0 <= i < at[j] && i in at ==> buckets[i] in Before(rest, j)
  {
    forall i | 0 <= i < at[j] && i in at
      ensures buckets[i] in Before(rest, j)
    {
      var k :| 0 <= k < |at| && at[k] == i;
      assert k < j;
      assert rest[k] == buckets[i];
    }
  }

  /** The buckets taken before position at[j] are all still before position j. */
  lemma {:induction false} TakenStays(count: int, buckets: seq<int>, rest: seq<int>, at: seq<nat>, j: nat, i: nat)
    requires PrunedBuckets(count, buckets, rest, at) && j < |at| && i <= at[j]
    ensures Taken(buckets, count, i) <= Before(rest, j)
  {
    if i > 0 {
      TakenStays(count, buckets, rest, at, j, i - 1);
      PrunedBefore(count, buckets, rest, at, j);
    }
  }

  /** Removing entries that lead no bucket changes no leader. */
  lemma PrunedLeads(count: int, buckets: seq<int>, rest: seq<int>, at: seq<nat>, j: nat)
    requires PrunedBuckets(count, buckets, rest, at) && j < |at|
    ensures Leads(rest, count, j) <==> Leads(buckets, count, at[j])
  {
    var i := at[j];
    PrunedBefore(count, buckets, rest, at, j);
    SubsetSize(Before(rest, j), Before(buckets, i));
    TakenStays(count, buckets, rest, at, j, i);
    TakenSize(buckets, count, i);
    SubsetSize(Taken(buckets, count, i), Before(rest, j));
  }

  lemma PrunedKeys(p: Policy, list: seq<Manifest>, rest: seq<Manifest>, at: seq<nat>)
    requires Pruned(p, list, rest, at)
    ensures PrunedBuckets(p.keepDaily, DaysOf(list), DaysOf(rest), at)
    ensures PrunedBuckets(p.keepWeekly, WeeksOf(list), WeeksOf(rest), at)
  {
    hide Leads, Day, Week;
    forall i | 0 <= i < |list| && (Leads(DaysOf(list), p.keepDaily, i) || Leads(WeeksOf(list), p.keepWeekly, i))
      ensures i in at
    {
      assert Protected(p, list, i);
    }
  }

  /** Positions never grow, and the first KeepLast entries stay where they are. */
  lemma {:induction false} PrunedPositions(p: Policy, list: seq<Manifest>, rest: seq<Manifest>, at: seq<nat>, j: nat)
    requires Pruned(p, list, rest, at) && j < |at|
    ensures j <= at[j]
    ensures at[j] < p.keepLast ==> at[j] == j
    ensures j < p.keepLast ==> at[j] == j
  {
    hide Leads, Day, Week;
    if j > 0 {
      PrunedPositions(p, list, rest, at, j - 1);
    }
    if j < p.keepLast && j < |list| {
      assert Protected(p, list, j);
      var k :| 0 <= k < |at| && at[k] == j;
      if k < j {
        PrunedPositions(p, list, rest, at, k);
      }
    }
  }

  /** Pruning is safe to interrupt and to repeat: after deleting any of the
      candidates, in any order, the same policy protects exactly what it protected
      before. */
  lemma PruningIsStable(p: Policy, list: seq<Manifest>, rest: seq<Manifest>, at: seq<nat>, j: nat)
    requires Pruned(p, list, rest, at) && j < |rest|
    ensures Protected(p, rest, j) <==> Protected(p, list, at[j])
  {
    hide Leads, Day, Week;
    PrunedKeys(p, list, rest, at);
    PrunedLeads(p.keepDaily, DaysOf(list), DaysOf(rest), at, j);
    PrunedLeads(p.keepWeekly, WeeksOf(list), WeeksOf(rest), at, j);
    PrunedPositions(p, list, rest, at, j);
  }

  /** Idempotence: once all candidates are deleted, the policy selects nothing. */
  lemma {:induction false} NothingLeftToPrune(p: Policy, list: seq<Manifest>, rest: seq<Manifest>, at: seq<nat>, n: nat)
    requires Pruned(p, list, rest, at) && n <= |rest|
    requires forall j :: 0 <= j < |at| ==> Protected(p, list, at[j])
    ensures Unprotected(p, rest, n) == []
  {
    hide Protected;
    if n > 0 {
      NothingLeftToPrune(p, list, rest, at, n - 1);
      PruningIsStable(p, list, rest, at, n - 1);
    }
  }

  /** The IDs of the snapshots the policy selects. */
  function CandidateIds(p: Policy, list: seq<Manifest>): set<string> {
    set i | 0 <= i < |list| && !Protected(p, list, i) :: list[i].id
  }

  lemma {:induction false} UnprotectedAre(p: Policy, list: seq<Manifest>, n: nat)
    requires n <= |list|
    ensures forall m :: m in Unprotected(p, list, n) <==>
              exists i :: 0 <= i < n && !Protected(p, list, i) && list[i] == m
  {
    hide Protected;
    if n > 0 {
      UnprotectedAre(p, list, n - 1);
    }
  }

  /** What is left of the first n snapshots without some IDs, and where they were. */
  function Without(list: seq<Manifest>, gone: set<string>, n: nat): seq<Manifest>
    requires n <= |list|
  {
    if n == 0 then [] else
      Without(list, gone, n - 1) + if list[n - 1].id in gone then [] else [list[n - 1]]
  }

  function Positions(list: seq<Manifest>, gone: set<string>, n: nat): seq<nat>
    requires n <= |list|
  {
    if n == 0 then [] else
      Positions(list, gone, n - 1) + if list[n - 1].id in gone then [] else [n - 1]
  }

  ghost predicate ArePositions(list: seq<Manifest>, gone: set<string>, n: nat, at: seq<nat>)
    requires n <= |list|
  {
    && (forall j :: 0 <= j < |at| ==> at[j] < n && list[at[j]].id !in gone)
    && (forall j, k :: 0 <= j < k < |at| ==> at[j] < at[k])
    && (forall i :: 0 <= i < n && list[i].id !in gone ==> i in at)
  }

  lemma {:induction false} PositionsAre(list: seq<Manifest>, gone: set<string>, n: nat)
    requires n <= |list|
    ensures ArePositions(list, gone, n, Positions(list, gone, n))
  {
    hide ArePositions;
    if n > 0 {
      PositionsAre(list, gone, n - 1);
      NextPosition(list, gone, n - 1, Positions(list, gone, n - 1));
    } else {
      NoPositions(list, gone);
    }
  }

  lemma NoPositions(list: seq<Manifest>, gone: set<string>)
    ensures ArePositions(list, gone, 0, [])
  {}

  lemma NextPosition(list: seq<Manifest>, gone: set<string>, n: nat, at: seq<nat>)
    requires n < |list| && ArePositions(list, gone, n, at)
    ensures ArePositions(list, gone, n + 1, at + if list[n].id in gone then [] else [n])
  {
    if list[n].id in gone {
      assert at + [] == at;
    } else {
      forall i | 0 <= i < n + 1 && list[i].id !in gone
        ensures i in at + [n]
      {}
    }
  }

  lemma {:induction false} WithoutIs(list: seq<Manifest>, gone: set<string>, n: nat)
    requires n <= |list|
    ensures var rest, at := Without(list, gone, n), Positions(list, gone, n);
            |rest| == |at| && forall j :: 0 <= j < |at| ==> at[j] < n && rest[j] == list[at[j]]
  {
    if n > 0 {
      WithoutIs(list, gone, n - 1);
    }
  }

  lemma WithoutIsPruned(p: Policy, list: seq<Manifest>, gone: set<string>)
    requires Descending(list) && gone <= CandidateIds(p, list)
    ensures Pruned(p, list, Without(list, gone, |list|), Positions(list, gone, |list|))
  {
    hide Protected, Less;
    WithoutIs(list, gone, |list|);
    PositionsAre(list, gone, |list|);
    forall i | 0 <= i < |list| && Protected(p, list, i)
      ensures list[i].id !in gone
    {
      if list[i].id in gone {
        var k :| 0 <= k < |list| && !Protected(p, list, k) && list[k].id == list[i].id;
        DescendingDiffer(list, i, k);
      }
    }
  }

  lemma DescendingDiffer(list: seq<Manifest>, i: nat, k: nat)
    requires Descending(list) && i < |list| && k < |list| && i != k
    ensures list[i].id != list[k].id
  {
    hide Less;
    LessIrreflexive(list[i].id);
  }

  /** A pruning that was interrupted goes on where it stopped: once some of the
      candidates are gone, the policy selects exactly the others. */
  lemma PruningResumes(p: Policy, list: seq<Manifest>, gone: set<string>)
    requires Descending(list) && gone <= CandidateIds(p, list)
    ensures CandidateIds(p, Without(list, gone, |list|)) == CandidateIds(p, list) - gone
  {
    hide Protected, Less, Pruned;
    var rest, at := Without(list, gone, |list|), Positions(list, gone, |list|);
    WithoutIs(list, gone, |list|);
    PositionsAre(list, gone, |list|);
    WithoutIsPruned(p, list, gone);
    forall j | 0 <= j < |rest|
      ensures Protected(p, rest, j) <==> Protected(p, list, at[j])
    {
      PruningIsStable(p, list, rest, at, j);
    }
    forall id | id in CandidateIds(p, list) - gone
      ensures id in CandidateIds(p, rest)
    {
      var i :| 0 <= i < |list| && !Protected(p, list, i) && list[i].id == id;
      var j :| 0 <= j < |at| && at[j] == i;
      assert !Protected(p, rest, j) && rest[j].id == id;
    }
  }

  /** Lists in the same order with the same members are equal. */
  lemma {:induction false} DescendingCounts(list: seq<Manifest>, m: Manifest)
    requires Descending(list)
    ensures multiset(list)[m] == if m in list then 1 else 0
  {
    hide Less;
    if list != [] {
      var rest := list[1..];
      assert list == [list[0]] + rest;
      DescendingCounts(rest, m);
      if m == list[0] && m in rest {
        var k :| 0 <= k < |rest| && rest[k] == m;
        DescendingDiffer(list, 0, k + 1);
      }
    }
  }

  lemma DescendingSame(a: seq<Manifest>, b: seq<Manifest>)
    requires Descending(a) && Descending(b) && forall m :: m in a <==> m in b
    ensures a == b
  {
    hide Less;
    forall m
      ensures multiset(a)[m] == multiset(b)[m]
    {
      DescendingCounts(a, m);
      DescendingCounts(b, m);
    }
    assert multiset(a) == multiset(b);
    DescendingUnique(a, b);
  }

  /* ---- time-ordered IDs ---- */

  /** Newer IDs have later creation times. */
  ghost predicate TimeOrdered(buckets: seq<int>) {
    forall j, k :: 0 <= j < k < |buckets| ==> buckets[j] >= buckets[k]
  }

  /** The buckets later than b. */
  function Later(buckets: seq<int>, b: int): set<int> {
    set j | 0 <= j < |buckets| && buckets[j] > b :: buckets[j]
  }

  /** When IDs follow time, a bucket's leader is the newest entry of one of the
      `count` latest buckets. */
  lemma LeadersAreNewest(buckets: seq<int>, count: int, i: nat)
    requires TimeOrdered(buckets) && i < |buckets|
    ensures Leads(buckets, count, i) <==>
              && (forall j :: 0 <= j < |buckets| && buckets[j] == buckets[i] ==> i <= j)
              && |Later(buckets, buckets[i])| < count
  {
    if forall j :: 0 <= j < |buckets| && buckets[j] == buckets[i] ==> i <= j {
      assert Later(buckets, buckets[i]) == Before(buckets, i);
    }
  }

  /** With time-ordered IDs the policy keeps the newest KeepLast snapshots and the
      newest snapshot of each of the latest KeepDaily days and KeepWeekly weeks. */
  lemma ProtectedMeansNewest(p: Policy, list: seq<Manifest>, i: nat)
    requires i < |list| && TimeOrdered(Times(list))
    ensures var days, weeks := DaysOf(list), WeeksOf(list);
            Protected(p, list, i) <==>
              || i < p.keepLast
              || ((forall j :: 0 <= j < |list| && days[j] == days[i] ==> i <= j)
                  && |Later(days, days[i])| < p.keepDaily)
              || ((forall j :: 0 <= j < |list| && weeks[j] == weeks[i] ==> i <= j)
                  && |Later(weeks, weeks[i])| < p.keepWeekly)
  {
    hide Leads, Later;
    BucketsOrdered(list);
    LeadersAreNewest(DaysOf(list), p.keepDaily, i);
    LeadersAreNewest(WeeksOf(list), p.keepWeekly, i);
  }

  lemma BucketsOrdered(list: seq<Manifest>)
    requires TimeOrdered(Times(list))
    ensures TimeOrdered(DaysOf(list)) && TimeOrdered(WeeksOf(list))
  {
    hide Day, Week;
    forall j, k | 0 <= j < k < |list|
      ensures DaysOf(list)[j] >= DaysOf(list)[k] && WeeksOf(list)[j] >= WeeksOf(list)[k]
    {
      DayMonotone(Times(list)[k], Times(list)[j]);
    }
  }

  lemma DayMonotone(s: int, t: int)
    requires s <= t
    ensures Day(s) <= Day(t) && Week(s) <= Week(t)
  {}
}
