/** What a store publishes to a handle: the manifests it lists, the chunks they
    refer to, the latest snapshot and what a selector stands for. */
module Published {
  import opened Model
  import opened Store
  import opened Retention

  /* ---- what the store holds for a handle ---- */

  /** Every listed manifest can be read. */
  ghost predicate AllReadable(h: Handle, objects: Objects) {
    forall id :: id in PublishedIds(h, objects) ==> ReadManifest(h, objects, id).Ok?
  }

  ghost function ManifestRefs(h: Handle, objects: Objects, id: string): set<string> {
    match ReadManifest(h, objects, id)
    case Ok(m) => RefIds(m)
    case Err(_) => {}
  }

  /** The chunk IDs that some readable published manifest refers to. */
  ghost function LiveIds(h: Handle, objects: Objects): set<string> {
    set id, ref | id in PublishedIds(h, objects) && ref in ManifestRefs(h, objects, id) :: ref
  }

  /** A manifest reads the same in two stores that agree on it. */
  lemma SameManifests(h: Handle, objects: Objects, objects': Objects)
    requires forall k: ObjKey :: k.ManifestKey? ==>
               (k in objects <==> k in objects') && (k in objects ==> objects[k] == objects'[k])
    ensures PublishedIds(h, objects) == PublishedIds(h, objects')
    ensures forall id :: ReadManifest(h, objects, id) == ReadManifest(h, objects', id)
    ensures LiveIds(h, objects) == LiveIds(h, objects') && AllReadable(h, objects) == AllReadable(h, objects')
    ensures Recurses(h, objects) == Recurses(h, objects')
  {
    hide ManifestPlain, RefIds;
    assert forall id :: ReadManifest(h, objects, id) == ReadManifest(h, objects', id);
    assert forall id :: ManifestRefs(h, objects, id) == ManifestRefs(h, objects', id);
  }

  /** The result of `Snapshots`: every published manifest once, by ascending ID. */
  ghost predicate IsSnapshotList(h: Handle, objects: Objects, list: seq<Manifest>) {
    && Ascending(list)
    && (forall m :: m in list ==> m.id in PublishedIds(h, objects) && ReadManifest(h, objects, m.id) == Ok(m))
    && (forall id :: id in PublishedIds(h, objects) ==> exists k :: 0 <= k < |list| && list[k].id == id)
  }

  /** `sort.Slice` by snapshot ID, one element at a time. */
  function Insert(list: seq<Manifest>, m: Manifest): seq<Manifest> {
    if list == [] || Less(m.id, list[0].id) then [m] + list else [list[0]] + Insert(list[1..], m)
  }

  lemma {:induction false} LessTotal(a: string, b: string)
    ensures a == b || Less(a, b) || Less(b, a)
  {
    if a != "" && b != "" && a[0] == b[0] {
      LessTotal(a[1..], b[1..]);
    }
  }

  lemma {:induction false} InsertSorts(list: seq<Manifest>, m: Manifest)
    requires Ascending(list) && forall x :: x in list ==> x.id != m.id
    ensures Ascending(Insert(list, m))
    ensures forall x :: x in Insert(list, m) <==> x == m || x in list
    ensures |Insert(list, m)| == |list| + 1
  {
    hide Less;
    if list != [] {
      if Less(m.id, list[0].id) {
        forall k | 0 <= k < |list|
          ensures Less(m.id, list[k].id)
        {
          if k > 0 {
            LessTransitive(m.id, list[0].id, list[k].id);
          }
        }
      } else {
        LessTotal(m.id, list[0].id);
        assert list[0] in list;
        var rest := list[1..];
        InsertSorts(rest, m);
        forall x | x in Insert(rest, m)
          ensures Less(list[0].id, x.id)
        {
          if x != m {
            var k :| 0 <= k < |rest| && rest[k] == x;
            assert list[k + 1] == x;
          }
        }
        assert list == [list[0]] + rest;
      }
    }
  }

  lemma ReadHasId(h: Handle, objects: Objects, id: string)
    requires ReadManifest(h, objects, id).Ok?
    ensures ReadManifest(h, objects, id).value.id == id && ManifestKeyOf(h, id) in objects
    ensures ValidManifest(ReadManifest(h, objects, id).value) && PlainId(id) && id in PublishedIds(h, objects)
  {
    hide ValidManifest;
    assert NamesSnapshot(h, ManifestKeyOf(h, id));
  }

  function IdsOf(list: seq<Manifest>): set<string> {
    if list == [] then {} else IdsOf(list[..|list| - 1]) + {list[|list| - 1].id}
  }

  lemma {:induction false} IdsOfAre(list: seq<Manifest>)
    ensures forall id :: id in IdsOf(list) <==> exists k :: 0 <= k < |list| && list[k].id == id
  {
    if list != [] {
      var front, last := list[..|list| - 1], list[|list| - 1];
      IdsOfAre(front);
      assert forall k :: 0 <= k < |front| ==> list[k] == front[k];
      forall id
        ensures id in IdsOf(list) <==> exists k :: 0 <= k < |list| && list[k].id == id
      {
        if id == last.id {
          assert list[|front|].id == id;
        } else if k :| 0 <= k < |front| && front[k].id == id {
          assert list[k].id == id;
        }
      }
    }
  }

  lemma {:induction false} IdsOfCount(list: seq<Manifest>)
    requires Ascending(list)
    ensures |IdsOf(list)| == |list|
  {
    hide Less;
    if list != [] {
      var front, last := list[..|list| - 1], list[|list| - 1];
      IdsOfCount(front);
      LastIsNew(list);
    }
  }

  lemma LastIsNew(list: seq<Manifest>)
    requires Ascending(list) && list != []
    ensures list[|list| - 1].id !in IdsOf(list[..|list| - 1])
  {
    hide Less, IdsOf;
    IdsOfAre(list[..|list| - 1]);
    LessIrreflexive(list[|list| - 1].id);
  }

  /** A snapshot list is as long as there are published snapshots. */
  lemma SnapshotCount(h: Handle, objects: Objects, list: seq<Manifest>)
    requires IsSnapshotList(h, objects, list)
    ensures IdsOf(list) == PublishedIds(h, objects) && |list| == |PublishedIds(h, objects)|
  {
    hide Less, ReadManifest, PublishedIds, IdsOf;
    IdsOfAre(list);
    IdsOfCount(list);
    forall id
      ensures id in IdsOf(list) <==> id in PublishedIds(h, objects)
    {
      if k :| 0 <= k < |list| && list[k].id == id {
        assert list[k] in list;
      }
    }
    assert IdsOf(list) == PublishedIds(h, objects);
  }

  /** No published snapshot has a greater ID. */
  ghost predicate IsLatest(h: Handle, objects: Objects, m: Manifest) {
    && m.id in PublishedIds(h, objects) && ReadManifest(h, objects, m.id) == Ok(m)
    && forall id :: id in PublishedIds(h, objects) ==> id == m.id || Less(id, m.id)
  }

  lemma LatestIsUnique(h: Handle, objects: Objects, a: Manifest, b: Manifest)
    requires IsLatest(h, objects, a) && IsLatest(h, objects, b)
    ensures a == b
  {
    hide Less, ReadManifest, PublishedIds;
    if a.id != b.id {
      LessTransitive(a.id, b.id, a.id);
      LessIrreflexive(a.id);
    }
  }

  /** The manifest a selector stands for: that of the snapshot with this ID, or of
      the latest one. */
  ghost function Selected(h: Handle, objects: Objects, selector: string): Result<Manifest> {
    if selector != LATEST then ReadManifest(h, objects, selector)
    else if AllReadable(h, objects) && exists m :: IsLatest(h, objects, m) then
      var m :| IsLatest(h, objects, m);
      Ok(m)
    else Err(Invalid)
  }

  lemma NoLatest(h: Handle, objects: Objects)
    ensures PublishedIds(h, objects) == {} ==> !exists m :: IsLatest(h, objects, m)
  {}

  lemma SelectedLatest(h: Handle, objects: Objects, m: Manifest)
    requires AllReadable(h, objects) && IsLatest(h, objects, m)
    ensures Selected(h, objects, LATEST) == Ok(m)
  {
    hide IsLatest, AllReadable;
    var n := Selected(h, objects, LATEST).value;
    LatestIsUnique(h, objects, m, n);
  }

  lemma SelectedIsThere(h: Handle, objects: Objects, selector: string)
    requires Selected(h, objects, selector).Ok?
    ensures var m := Selected(h, objects, selector).value;
            && ValidManifest(m) && ReadManifest(h, objects, m.id) == Ok(m) && ManifestKeyOf(h, m.id) in objects
    ensures selector != LATEST ==> Selected(h, objects, selector).value.id == selector
  {
    hide ReadManifest, ValidManifest;
    if selector != LATEST {
      ReadHasId(h, objects, selector);
    } else {
      ReadHasId(h, objects, Selected(h, objects, selector).value.id);
    }
  }

  /** A selector stands for the same manifest in stores that agree on manifests. */
  lemma SameSelected(h: Handle, objects: Objects, objects': Objects, selector: string)
    requires forall k: ObjKey :: k.ManifestKey? ==>
               (k in objects <==> k in objects') && (k in objects ==> objects[k] == objects'[k])
    ensures Selected(h, objects, selector) == Selected(h, objects', selector)
  {
    hide ReadManifest, PublishedIds, AllReadable;
    SameManifests(h, objects, objects');
    assert forall m :: IsLatest(h, objects, m) == IsLatest(h, objects', m);
    if m :| IsLatest(h, objects, m) && AllReadable(h, objects) {
      SelectedLatest(h, objects, m);
      SelectedLatest(h, objects', m);
    }
  }

  lemma LastIsLatest(h: Handle, objects: Objects, list: seq<Manifest>)
    requires IsSnapshotList(h, objects, list) && list != []
    ensures IsLatest(h, objects, list[|list| - 1])
  {
    hide Less, ReadManifest, PublishedIds;
    var last := list[|list| - 1];
    assert last in list;
    forall id | id in PublishedIds(h, objects)
      ensures id == last.id || Less(id, last.id)
    {
      var k :| 0 <= k < |list| && list[k].id == id;
    }
  }

  /* ---- the order of a listing ---- */

  /** The IDs of the first n listed objects that name a snapshot, as listed. */
  function ListedIds(h: Handle, entries: seq<Listed>, n: nat): seq<string>
    requires n <= |entries|
  {
    if n == 0 then [] else
      ListedIds(h, entries, n - 1) + if NamesSnapshot(h, entries[n - 1].key) then [entries[n - 1].key.id] else []
  }

  /** Every published ID once, in some order. */
  ghost predicate IsOrder(h: Handle, objects: Objects, order: seq<string>) {
    && (forall id :: id in order <==> id in PublishedIds(h, objects))
    && (forall i, j :: 0 <= i < j < |order| ==> order[i] != order[j])
  }

  lemma {:induction false} ListedIdsAre(h: Handle, entries: seq<Listed>, n: nat)
    requires n <= |entries|
    ensures forall id :: id in ListedIds(h, entries, n) <==>
              '/' !in id && exists i :: 0 <= i < n && entries[i].key == ManifestKeyOf(h, id)
  {
    if n > 0 {
      ListedIdsAre(h, entries, n - 1);
    }
  }

  lemma {:induction false} ListedIdsDistinct(h: Handle, objects: Objects, entries: seq<Listed>, n: nat)
    requires IsListing(objects, Prefix.Snapshots, entries) && n <= |entries|
    ensures forall i, j :: 0 <= i < j < |ListedIds(h, entries, n)| ==>
              ListedIds(h, entries, n)[i] != ListedIds(h, entries, n)[j]
  {
    hide IsListing;
    if n > 0 {
      ListedIdsDistinct(h, objects, entries, n - 1);
      NextListedId(h, objects, entries, n - 1);
    }
  }

  lemma NextListedId(h: Handle, objects: Objects, entries: seq<Listed>, n: nat)
    requires IsListing(objects, Prefix.Snapshots, entries) && n < |entries|
    ensures NamesSnapshot(h, entries[n].key) ==>
              entries[n].key.id !in ListedIds(h, entries, n) && entries[n].key.id in PublishedIds(h, objects)
  {
    hide ListedIds;
    ListedIdsAre(h, entries, n);
    assert entries[n] in entries;
  }

  lemma ListedIdsAreAll(h: Handle, objects: Objects, entries: seq<Listed>)
    requires IsListing(objects, Prefix.Snapshots, entries)
    ensures IsOrder(h, objects, ListedIds(h, entries, |entries|))
  {
    hide ListedIds;
    ListedIdsAre(h, entries, |entries|);
    ListedIdsDistinct(h, objects, entries, |entries|);
    forall id
      ensures id in ListedIds(h, entries, |entries|) <==> id in PublishedIds(h, objects)
    {
      assert id in PublishedIds(h, objects) <==> '/' !in id && ManifestKeyOf(h, id) in objects;
      assert Under(Prefix.Snapshots, ManifestKeyOf(h, id));
      if i :| 0 <= i < |entries| && entries[i].key == ManifestKeyOf(h, id) {
        assert entries[i] in entries;
      }
    }
  }

  lemma ReadableIsListable(h: Handle, objects: Objects)
    requires AllReadable(h, objects)
    ensures LATEST !in PublishedIds(h, objects)
  {}

  /** The selector's name is listed, and nothing unreadable is listed with it. */
  ghost predicate Recurses(h: Handle, objects: Objects) {
    && LATEST in PublishedIds(h, objects)
    && forall id :: id in PublishedIds(h, objects) && id != LATEST ==> ReadManifest(h, objects, id).Ok?
  }
}
