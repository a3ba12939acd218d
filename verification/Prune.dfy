/** The prune command: selects by the retention policy and deletes one snapshot
    after another. It may stop anywhere and be run again. */
module Prune {
  import opened Model
  import opened Store
  import opened Retention
  import opened Published
  import opened Nesting
  import opened Repository
  import opened Collection

  function ManifestKeys(h: Handle, ids: set<string>): set<ObjKey> {
    set id | id in ids :: ManifestKeyOf(h, id)
  }

  /** Apart from the lock, the manifests of these IDs are all that has gone. */
  ghost predicate Lost(h: Handle, a: Objects, b: Objects, gone: set<string>) {
    Unlocked(b) == Unlocked(a) - ManifestKeys(h, gone)
  }

  /** The other snapshots are as they were. */
  lemma OthersStay(h: Handle, a: Objects, b: Objects, gone: set<string>)
    requires Lost(h, a, b, gone)
    ensures PublishedIds(h, b) == PublishedIds(h, a) - gone
    ensures forall id :: id !in gone ==> ReadManifest(h, b, id) == ReadManifest(h, a, id)
  {
    hide ManifestPlain;
    SameManifests(h, a, Unlocked(a));
    SameManifests(h, b, Unlocked(b));
    var c := Unlocked(a) - ManifestKeys(h, gone);
    forall id
      ensures id in PublishedIds(h, c) <==> id in PublishedIds(h, Unlocked(a)) - gone
    {
      assert id in PublishedIds(h, c) <==> '/' !in id && ManifestKeyOf(h, id) in c;
      assert id in PublishedIds(h, Unlocked(a)) <==> '/' !in id && ManifestKeyOf(h, id) in Unlocked(a);
    }
    forall id | id !in gone
      ensures ReadManifest(h, c, id) == ReadManifest(h, Unlocked(a), id)
    {}
  }

  lemma LostOneMore(h: Handle, a: Objects, b: Objects, c: Objects, gone: set<string>, id: string)
    requires Lost(h, a, b, gone) && Unlocked(c) == Unlocked(b) - {ManifestKeyOf(h, id)}
    ensures Lost(h, a, c, gone + {id})
  {
    assert ManifestKeys(h, gone + {id}) == ManifestKeys(h, gone) + {ManifestKeyOf(h, id)};
  }

  lemma LostNothing(h: Handle, a: Objects)
    ensures Lost(h, a, a, {})
  {}

  lemma NothingIsLost(h: Handle, a: Objects, b: Objects)
    requires Lost(h, a, b, {})
    ensures Unlocked(b) == Unlocked(a)
  {
    assert ManifestKeys(h, {}) == {};
  }

  /** The list of the remaining snapshots is the old list without those that have
      gone. */
  lemma ListWithout(h: Handle, a: Objects, b: Objects, gone: set<string>, list: seq<Manifest>, rest: seq<Manifest>)
    requires Lost(h, a, b, gone) && IsSnapshotList(h, a, list) && IsSnapshotList(h, b, rest)
    ensures NewestFirst(rest) == Without(NewestFirst(list), gone, |list|)
  {
    hide Lost, Less, ReadManifest, PublishedIds, IsSnapshotList, Without;
    var newest := NewestFirst(list);
    var left := Without(newest, gone, |list|);
    OthersStay(h, a, b, gone);
    NewestFirstSorts(list, newest) by {
      ListIsAscending(h, a, list);
    }
    NewestFirstSorts(rest, NewestFirst(rest)) by {
      ListIsAscending(h, b, rest);
    }
    WithoutDescends(newest, gone);
    forall m
      ensures m in NewestFirst(rest) <==> m in left
    {
      ListHas(h, a, list, m);
      ListHas(h, b, rest, m);
      WithoutHas(newest, gone, m);
      ReverseHas(list, m);
      ReverseHas(rest, m);
    }
    DescendingSame(NewestFirst(rest), left);
  }

  lemma ListIsAscending(h: Handle, objects: Objects, list: seq<Manifest>)
    requires IsSnapshotList(h, objects, list)
    ensures Ascending(list)
  {}

  lemma ListHas(h: Handle, objects: Objects, list: seq<Manifest>, m: Manifest)
    requires IsSnapshotList(h, objects, list)
    ensures m in list <==> m.id in PublishedIds(h, objects) && ReadManifest(h, objects, m.id) == Ok(m)
  {
    hide Less, ReadManifest, PublishedIds;
    if m.id in PublishedIds(h, objects) && ReadManifest(h, objects, m.id) == Ok(m) {
      var k :| 0 <= k < |list| && list[k].id == m.id;
      assert list[k] in list;
    }
  }

  lemma ReverseHas(list: seq<Manifest>, m: Manifest)
    ensures m in NewestFirst(list) <==> m in list
  {
    if m in list {
      var k :| 0 <= k < |list| && list[k] == m;
      assert NewestFirst(list)[|list| - 1 - k] == m;
    }
  }

  lemma WithoutHas(list: seq<Manifest>, gone: set<string>, m: Manifest)
    ensures m in Without(list, gone, |list|) <==> m in list && m.id !in gone
  {
    var rest, at := Without(list, gone, |list|), Positions(list, gone, |list|);
    WithoutIs(list, gone, |list|);
    PositionsAre(list, gone, |list|);
    if m in list && m.id !in gone {
      var i :| 0 <= i < |list| && list[i] == m;
      var j :| 0 <= j < |at| && at[j] == i;
      assert rest[j] == m;
    }
  }

  lemma WithoutDescends(list: seq<Manifest>, gone: set<string>)
    requires Descending(list)
    ensures Descending(Without(list, gone, |list|))
  {
    hide Less;
    WithoutIs(list, gone, |list|);
    PositionsAre(list, gone, |list|);
  }

  /** What a pruning has done to the store: some candidates are gone and nothing
      else, and the policy now selects exactly the other candidates. */
  ghost predicate PrunedStore(h: Handle, p: Policy, a: Objects, b: Objects, list: seq<Manifest>, gone: set<string>) {
    && Lost(h, a, b, gone) && gone <= CandidateIds(p, NewestFirst(list))
    && forall rest :: IsSnapshotList(h, b, rest) ==>
         CandidateIds(p, NewestFirst(rest)) == CandidateIds(p, NewestFirst(list)) - gone
  }

  lemma PrunedSoFar(h: Handle, p: Policy, a: Objects, b: Objects, list: seq<Manifest>, gone: set<string>)
    requires IsSnapshotList(h, a, list) && Lost(h, a, b, gone) && gone <= CandidateIds(p, NewestFirst(list))
    ensures PrunedStore(h, p, a, b, list, gone)
  {
    hide Lost, Less, IsSnapshotList, CandidateIds, Without;
    ListIsAscending(h, a, list);
    NewestFirstSorts(list, NewestFirst(list));
    forall rest | IsSnapshotList(h, b, rest)
      ensures CandidateIds(p, NewestFirst(rest)) == CandidateIds(p, NewestFirst(list)) - gone
    {
      ListWithout(h, a, b, gone, list, rest);
      PruningResumes(p, NewestFirst(list), gone);
    }
  }

  /** The candidates can be read, and are not the selector's name. */
  lemma CandidatesRead(h: Handle, p: Policy, a: Objects, list: seq<Manifest>, m: Manifest)
    requires IsSnapshotList(h, a, list) && m in Unprotected(p, NewestFirst(list), |list|)
    ensures ReadManifest(h, a, m.id) == Ok(m) && m.id in CandidateIds(p, NewestFirst(list)) && m.id != LATEST
  {
    hide Protected, Less, PublishedIds, IsSnapshotList, ManifestPlain;
    UnprotectedAre(p, NewestFirst(list), |list|);
    ReverseHas(list, m);
    ListHas(h, a, list, m);
  }

  /** The IDs of the first n candidates. */
  function FirstIds(remove: seq<Manifest>, n: nat): set<string>
    requires n <= |remove|
  {
    set k | 0 <= k < n :: remove[k].id
  }

  lemma FirstIdsNext(remove: seq<Manifest>, n: nat)
    requires n < |remove|
    ensures FirstIds(remove, n + 1) == FirstIds(remove, n) + {remove[n].id}
  {}

  lemma NoFirstIds(remove: seq<Manifest>)
    ensures FirstIds(remove, 0) == {}
  {}

  lemma AllIds(p: Policy, list: seq<Manifest>)
    ensures FirstIds(Unprotected(p, list, |list|), |Unprotected(p, list, |list|)|) == CandidateIds(p, list)
  {
    hide Protected;
    var remove := Unprotected(p, list, |list|);
    UnprotectedAre(p, list, |list|);
    forall id | id in CandidateIds(p, list)
      ensures id in FirstIds(remove, |remove|)
    {
      var i :| 0 <= i < |list| && !Protected(p, list, i) && list[i].id == id;
      assert list[i] in remove;
      var k :| 0 <= k < |remove| && remove[k] == list[i];
    }
    forall id | id in FirstIds(remove, |remove|)
      ensures id in CandidateIds(p, list)
    {
      var k :| 0 <= k < |remove| && remove[k].id == id;
      assert remove[k] in remove;
    }
  }

  /** No candidate comes twice. */
  lemma {:induction false} UnprotectedDiffer(p: Policy, list: seq<Manifest>, n: nat, k: nat)
    requires Descending(list) && n <= |list| && k < |Unprotected(p, list, n)|
    ensures Unprotected(p, list, n)[k].id !in FirstIds(Unprotected(p, list, n), k)
  {
    hide Protected, Less;
    var before := Unprotected(p, list, n - 1);
    if k < |before| {
      UnprotectedDiffer(p, list, n - 1, k);
      assert forall j :: 0 <= j < k ==> Unprotected(p, list, n)[j] == before[j];
    } else {
      UnprotectedAre(p, list, n - 1);
      forall j | 0 <= j < k
        ensures Unprotected(p, list, n)[j].id != list[n - 1].id
      {
        assert before[j] in before;
        var i :| 0 <= i < n - 1 && !Protected(p, list, i) && list[i] == before[j];
        DescendingDiffer(list, i, n - 1);
      }
    }
  }

  predicate BadCounts(p: Policy) {
    p.keepLast < 0 || p.keepDaily < 0 || p.keepWeekly < 0
  }

  /** The prune command. list is what it saw and gone what it deleted: all candidates
      on success, unless they are only shown. However it ends, running it again goes
      on where it stopped, and after a success selects nothing. */
  method PruneSnapshots(r: Repository, p: Policy, yes: bool, info: LockInfo, now: int)
    returns (ok: bool, ghost list: seq<Manifest>, ghost gone: set<string>)
    requires r.store.Valid()
    modifies r.store
    ensures r.store.Valid()
    ensures gone == {} ==> Unlocked(r.store.objects) == old(Unlocked(r.store.objects))
    ensures ok || gone != {} ==>
              && IsSnapshotList(r.handle, old(r.store.objects), list)
              && PrunedStore(r.handle, p, old(r.store.objects), r.store.objects, list, gone)
    ensures ok ==> !BadCounts(p) && Dated(list) && gone == if yes then CandidateIds(p, NewestFirst(list)) else {}
    ensures r.store.reliable && old(LockKey !in r.store.objects) ==>
              (ok <==> && !BadCounts(p) && AllReadable(r.handle, old(r.store.objects))
                       && forall id :: id in PublishedIds(r.handle, old(r.store.objects)) ==>
                            ReadManifest(r.handle, old(r.store.objects), id).Ok?
                            && ReadManifest(r.handle, old(r.store.objects), id).value.created.Some?)
  {
    hide Lost, Less, IsSnapshotList, CandidateIds, Unprotected, Selected, AllReadable, ReadManifest, PublishedIds,
      PrunedStore, FirstIds, Unlocked, Recurses, ManifestKeyOf;
    ok, list, gone := false, [], {};
    ghost var start := r.store.objects;
    LostNothing(r.handle, start);
    var snapshots := r.Snapshots();
    if snapshots.Err? {
      return;
    }
    list := snapshots.value;
    DatedIs(r.handle, start, list);
    ListIsAscending(r.handle, start, list);
    NewestFirstSorts(list, NewestFirst(list));
    PrunedSoFar(r.handle, p, start, start, list, {});
    var outcome := RetentionCandidates(p, snapshots.value);
    if !outcome.Candidates? {
      return;
    }
    var remove := outcome.remove;
    if remove == [] || !yes {
      AllIds(p, NewestFirst(list));
      NoFirstIds(remove);
      return true, list, {};
    }
    NoFirstIds(remove);
    for i := 0 to |remove|
      invariant r.store.Valid()
      invariant gone == FirstIds(remove, i) && gone <= CandidateIds(p, NewestFirst(list))
      invariant Lost(r.handle, start, r.store.objects, gone)
      invariant r.store.reliable && LockKey !in start ==> LockKey !in r.store.objects
    {
      ghost var before := r.store.objects;
      NextCandidate(r.handle, p, start, before, list, i);
      FirstIdsNext(remove, i);
      var deleted, _ := DeleteSnapshot(r, remove[i].id, false, info, now, 0);
      Shrinks(before, ManifestKeyOf(r.handle, remove[i].id));
      if Unlocked(r.store.objects) == Unlocked(before) {
        LostTheSame(r.handle, start, before, r.store.objects, gone);
      } else {
        LostOneMore(r.handle, start, before, r.store.objects, gone, remove[i].id);
        gone := gone + {remove[i].id};
      }
      if !deleted {
        if gone == {} {
          NothingIsLost(r.handle, start, r.store.objects);
        }
        PrunedSoFar(r.handle, p, start, r.store.objects, list, gone);
        return;
      }
    }
    AllIds(p, NewestFirst(list));
    if gone == {} {
      NothingIsLost(r.handle, start, r.store.objects);
    }
    PrunedSoFar(r.handle, p, start, r.store.objects, list, gone);
    ok := true;
  }

  lemma NextCandidate(h: Handle, p: Policy, a: Objects, b: Objects, list: seq<Manifest>, i: nat)
    requires IsSnapshotList(h, a, list) && i < |Unprotected(p, NewestFirst(list), |list|)|
    requires Lost(h, a, b, FirstIds(Unprotected(p, NewestFirst(list), |list|), i))
    ensures var m := Unprotected(p, NewestFirst(list), |list|)[i];
            && Selected(h, b, m.id) == Ok(m) && m.id != LATEST && m.id in CandidateIds(p, NewestFirst(list))
            && ManifestKeyOf(h, m.id) in Unlocked(b)
  {
    hide Lost, Less, IsSnapshotList, CandidateIds, Unprotected, ManifestPlain;
    var remove := Unprotected(p, NewestFirst(list), |list|);
    var m := remove[i];
    assert m in remove;
    ListIsAscending(h, a, list);
    NewestFirstSorts(list, NewestFirst(list));
    CandidatesRead(h, p, a, list, m);
    UnprotectedDiffer(p, NewestFirst(list), |list|, i);
    OthersStay(h, a, b, FirstIds(remove, i));
    SelectedPlain(h, b, m.id);
    ReadHasId(h, b, m.id);
  }

  lemma Shrinks(objects: Objects, k: ObjKey)
    requires k in Unlocked(objects)
    ensures Unlocked(objects) - {k} != Unlocked(objects)
  {
    assert k !in Unlocked(objects) - {k};
  }

  lemma LostTheSame(h: Handle, a: Objects, b: Objects, c: Objects, gone: set<string>)
    requires Lost(h, a, b, gone) && Unlocked(c) == Unlocked(b)
    ensures Lost(h, a, c, gone)
  {}

  lemma DatedIs(h: Handle, a: Objects, list: seq<Manifest>)
    requires IsSnapshotList(h, a, list)
    ensures Dated(list) <==> forall id :: id in PublishedIds(h, a) ==>
              ReadManifest(h, a, id).Ok? && ReadManifest(h, a, id).value.created.Some?
  {
    hide Less, PublishedIds, ReadManifest;
    forall id | id in PublishedIds(h, a)
      ensures ReadManifest(h, a, id).Ok? && ReadManifest(h, a, id).value in list
    {
      var k :| 0 <= k < |list| && list[k].id == id;
      assert list[k] in list;
    }
  }
}
