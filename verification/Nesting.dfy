/** How `ReadManifest`, `LatestSnapshot` and `Snapshots` call each other, and for
    which stores they return. */
module Nesting {
  import opened Model
  import opened Store
  import opened Retention
  import opened Published

  /* ---- the recursion, as deep as the stack allows ---- */

  /** `ReadManifest` of an ID or of the selector, the nested calls of `Snapshots`
      getting these listings in turn. As many of them fit on the stack. */
  ghost function ReadNested(h: Handle, objects: Objects, id: string, listings: seq<seq<string>>): Result<Manifest>
    decreases |listings|, 3, 0
  {
    if id == LATEST then LatestNested(h, objects, listings) else ReadManifest(h, objects, id)
  }

  /** `LatestSnapshot`. */
  ghost function LatestNested(h: Handle, objects: Objects, listings: seq<seq<string>>): Result<Manifest>
    decreases |listings|, 2, 0
  {
    match SnapshotsNested(h, objects, listings)
    case Err(e) => Err(e)
    case Ok(list) => if list == [] then Err(Invalid) else Ok(list[|list| - 1])
  }

  /** `Snapshots`. */
  ghost function SnapshotsNested(h: Handle, objects: Objects, listings: seq<seq<string>>): Result<seq<Manifest>>
    decreases |listings|, 0, 0
  {
    if listings == [] then Err(Overflow) else Collected(h, objects, listings[0], listings[1..])
  }

  /** Its loop over one listing, the calls below getting the others. */
  ghost function Collected(h: Handle, objects: Objects, order: seq<string>,
      deeper: seq<seq<string>>): Result<seq<Manifest>>
    decreases |deeper|, 4, |order|
  {
    if order == [] then Ok([]) else
      match Collected(h, objects, order[..|order| - 1], deeper)
      case Err(e) => Err(e)
      case Ok(list) =>
        match ReadNested(h, objects, order[|order| - 1], deeper)
        case Err(e) => Err(e)
        case Ok(m) => Ok(Insert(list, m))
  }

  /* ---- one listing ---- */

  lemma {:induction false} ErrorsStay(h: Handle, objects: Objects, front: seq<string>, order: seq<string>,
      deeper: seq<seq<string>>)
    requires front <= order && Collected(h, objects, front, deeper).Err?
    ensures Collected(h, objects, order, deeper) == Collected(h, objects, front, deeper)
    decreases |order|
  {
    if front != order {
      ErrorsStay(h, objects, front, order[..|order| - 1], deeper);
    }
  }

  /** A listing without the selector's name needs no deeper call. */
  lemma {:induction false} NoNesting(h: Handle, objects: Objects, order: seq<string>, deeper: seq<seq<string>>,
      other: seq<seq<string>>)
    requires LATEST !in order
    ensures Collected(h, objects, order, deeper) == Collected(h, objects, order, other)
    ensures Collected(h, objects, order, deeper) != Err(Overflow)
    ensures Collected(h, objects, order, deeper).Ok? <==> forall id :: id in order ==> ReadManifest(h, objects, id).Ok?
    decreases |order|
  {
    hide ReadManifest;
    PlainErrors(h, objects);
    if order != [] {
      var front, last := order[..|order| - 1], order[|order| - 1];
      assert order == front + [last];
      NoNesting(h, objects, front, deeper, other);
    }
  }

  lemma PlainErrors(h: Handle, objects: Objects)
    ensures forall id :: ReadManifest(h, objects, id) != Err(Overflow)
  {
    hide ManifestPlain;
  }

  /** What the loop has collected: the manifest of every ID so far, in order. */
  lemma {:induction false} CollectedIs(h: Handle, objects: Objects, order: seq<string>, deeper: seq<seq<string>>)
    requires LATEST !in order && (forall i, j :: 0 <= i < j < |order| ==> order[i] != order[j])
    requires Collected(h, objects, order, deeper).Ok?
    ensures var list := Collected(h, objects, order, deeper).value;
            && Ascending(list)
            && (forall m :: m in list <==> m.id in order && ReadManifest(h, objects, m.id) == Ok(m))
            && (forall id :: id in order ==>
                ReadManifest(h, objects, id).Ok? && ReadManifest(h, objects, id).value in list)
    decreases |order|
  {
    hide ReadManifest, Less, Insert;
    if order != [] {
      var front, last := order[..|order| - 1], order[|order| - 1];
      assert order == front + [last];
      CollectedIs(h, objects, front, deeper);
      var list, m := Collected(h, objects, front, deeper).value, ReadManifest(h, objects, last).value;
      ReadHasId(h, objects, last);
      forall id | id in front
        ensures id != last && ReadManifest(h, objects, id).value.id == id
      {
        var k :| 0 <= k < |front| && order[k] == id;
        ReadHasId(h, objects, id);
      }
      InsertSorts(list, m);
    }
  }

  lemma CollectedAll(h: Handle, objects: Objects, order: seq<string>, deeper: seq<seq<string>>)
    requires LATEST !in order && IsOrder(h, objects, order) && Collected(h, objects, order, deeper).Ok?
    ensures IsSnapshotList(h, objects, Collected(h, objects, order, deeper).value) && AllReadable(h, objects)
  {
    hide ReadManifest, PublishedIds, Less;
    CollectedIs(h, objects, order, deeper);
    var list := Collected(h, objects, order, deeper).value;
    forall id | id in PublishedIds(h, objects)
      ensures ReadManifest(h, objects, id).Ok? && exists k :: 0 <= k < |list| && list[k].id == id
    {
      ReadHasId(h, objects, id);
      var m := ReadManifest(h, objects, id).value;
      var k :| 0 <= k < |list| && list[k] == m;
    }
  }

  /* ---- when the calls return ---- */

  ghost predicate AreOrders(h: Handle, objects: Objects, listings: seq<seq<string>>) {
    forall i :: 0 <= i < |listings| ==> IsOrder(h, objects, listings[i])
  }

  /** The listing comes to the selector's name before any manifest that cannot be
      read. */
  ghost predicate Descends(h: Handle, objects: Objects, order: seq<string>) {
    exists k :: 0 <= k < |order| && order[k] == LATEST && forall j :: 0 <= j < k ==>
      ReadManifest(h, objects, order[j]).Ok?
  }

  lemma DescendsIs(h: Handle, objects: Objects, order: seq<string>, k: nat)
    requires k < |order| && order[k] == LATEST && (forall i, j :: 0 <= i < j < |order| ==> order[i] != order[j])
    ensures Descends(h, objects, order) <==> forall id :: id in order[..k] ==> ReadManifest(h, objects, id).Ok?
    ensures LATEST !in order[..k]
  {
    hide ReadManifest;
    if Descends(h, objects, order) {
      var l :| 0 <= l < |order| && order[l] == LATEST
               && forall j :: 0 <= j < l ==> ReadManifest(h, objects, order[j]).Ok?;
      assert l == k;
    }
    assert forall j :: 0 <= j < k ==> order[j] in order[..k];
  }

  lemma OneMoreRead(h: Handle, objects: Objects, order: seq<string>, k: nat, deeper: seq<seq<string>>)
    requires k < |order| && Collected(h, objects, order[..k], deeper).Ok?
    requires ReadNested(h, objects, order[k], deeper).Err?
    ensures Collected(h, objects, order[..k + 1], deeper) == Err(ReadNested(h, objects, order[k], deeper).error)
  {
    hide ReadNested;
    assert order[..k + 1][..k] == order[..k];
  }

  /** The loop over a listing that holds the selector's name ends as the nested call
      does if it gets there, and with an error of its own if not. */
  lemma CollectedNested(h: Handle, objects: Objects, order: seq<string>, deeper: seq<seq<string>>)
    requires LATEST in order && (forall i, j :: 0 <= i < j < |order| ==> order[i] != order[j])
    requires LatestNested(h, objects, deeper).Err?
    ensures Collected(h, objects, order, deeper).Err?
    ensures Descends(h, objects, order) ==>
              Collected(h, objects, order, deeper).error == LatestNested(h, objects, deeper).error
    ensures !Descends(h, objects, order) ==> Collected(h, objects, order, deeper).error != Overflow
  {
    hide ReadManifest, LatestNested, Collected, Descends;
    var k :| 0 <= k < |order| && order[k] == LATEST;
    DescendsIs(h, objects, order, k);
    NoNesting(h, objects, order[..k], deeper, deeper);
    if Collected(h, objects, order[..k], deeper).Err? {
      ErrorsStay(h, objects, order[..k], order, deeper);
    } else {
      OneMoreRead(h, objects, order, k, deeper);
      ErrorsStay(h, objects, order[..k + 1], order, deeper);
    }
  }

  /** A listed selector's name is never answered, however deep the calls may go. */
  lemma {:induction false} ListedLatestNeverReads(h: Handle, objects: Objects, listings: seq<seq<string>>)
    requires AreOrders(h, objects, listings) && LATEST in PublishedIds(h, objects)
    ensures SnapshotsNested(h, objects, listings).Err? && LatestNested(h, objects, listings).Err?
    ensures SnapshotsNested(h, objects, listings) == Err(Overflow) <==>
              forall i :: 0 <= i < |listings| ==> Descends(h, objects, listings[i])
    decreases |listings|
  {
    hide ReadManifest, PublishedIds, Collected, Descends;
    if listings != [] {
      var order, deeper := listings[0], listings[1..];
      assert IsOrder(h, objects, order);
      ListedLatestNeverReads(h, objects, deeper);
      CollectedNested(h, objects, order, deeper);
      assert forall i :: 0 < i < |listings| ==> listings[i] == deeper[i - 1];
    }
  }

  /** The recursion never returns exactly when the selector's name is listed, and
      every listing comes to it before any manifest that cannot be read. */
  lemma OverflowExactly(h: Handle, objects: Objects, listings: seq<seq<string>>)
    requires AreOrders(h, objects, listings) && listings != []
    ensures SnapshotsNested(h, objects, listings) == Err(Overflow) <==>
              && LATEST in PublishedIds(h, objects)
              && forall i :: 0 <= i < |listings| ==> Descends(h, objects, listings[i])
  {
    hide ReadManifest, PublishedIds, Descends;
    if LATEST in PublishedIds(h, objects) {
      ListedLatestNeverReads(h, objects, listings);
    } else {
      assert IsOrder(h, objects, listings[0]);
      NoNesting(h, objects, listings[0], listings[1..], []);
    }
  }

  /** `Snapshots` answers with a list exactly when every listed ID can be read, and
      then with the published manifests; one call is deep enough. */
  lemma AnswersExactly(h: Handle, objects: Objects, listings: seq<seq<string>>)
    requires AreOrders(h, objects, listings) && listings != []
    ensures SnapshotsNested(h, objects, listings).Ok? <==> AllReadable(h, objects)
    ensures SnapshotsNested(h, objects, listings).Ok? ==>
              IsSnapshotList(h, objects, SnapshotsNested(h, objects, listings).value)
  {
    hide PublishedIds, Less, ManifestPlain;
    if LATEST in PublishedIds(h, objects) {
      ListedLatestNeverReads(h, objects, listings);
    } else {
      var order := listings[0];
      assert IsOrder(h, objects, order);
      NoNesting(h, objects, order, listings[1..], []);
      if SnapshotsNested(h, objects, listings).Ok? {
        CollectedAll(h, objects, order, listings[1..]);
      }
    }
  }

  /** The same listing at every depth, as the stores deliver it. */
  function Repeat(order: seq<string>, depth: nat): (listings: seq<seq<string>>)
    ensures |listings| == depth && forall i :: 0 <= i < depth ==> listings[i] == order
  {
    seq(depth, i => order)
  }

  lemma {:induction false} OrderFrom(ids: set<string>, first: string) returns (order: seq<string>)
    requires first in ids
    ensures (forall id :: id in order <==> id in ids) && (forall i, j :: 0 <= i < j < |order| ==> order[i] != order[j])
    ensures order != [] && order[0] == first
    decreases ids
  {
    if id :| id in ids && id != first {
      var front := OrderFrom(ids - {id}, first);
      order := front + [id];
    } else {
      order := [first];
    }
  }

  lemma SomeOrder(h: Handle, objects: Objects) returns (order: seq<string>)
    ensures IsOrder(h, objects, order)
  {
    hide PublishedIds;
    order := [];
    if first :| first in PublishedIds(h, objects) {
      order := OrderFrom(PublishedIds(h, objects), first);
    }
  }

  ghost predicate ReturnsAtSomeDepth(h: Handle, objects: Objects, order: seq<string>) {
    exists depth: nat :: SnapshotsNested(h, objects, Repeat(order, depth)) != Err(Overflow)
  }

  /** `Snapshots` returns, whatever the order of the listing, if and only if nothing
      is stored under the selector's name: a condition that can be read off the
      listing. */
  lemma ReturnsExactlyWithoutLatest(h: Handle, objects: Objects)
    ensures (forall order :: IsOrder(h, objects, order) ==> ReturnsAtSomeDepth(h, objects, order)) <==>
              LATEST !in PublishedIds(h, objects)
  {
    hide PublishedIds, SnapshotsNested, ReadManifest;
    if LATEST in PublishedIds(h, objects) {
      var order := OrderFrom(PublishedIds(h, objects), LATEST);
      assert Descends(h, objects, order);
      forall depth: nat
        ensures SnapshotsNested(h, objects, Repeat(order, depth)) == Err(Overflow)
      {
        ListedLatestNeverReads(h, objects, Repeat(order, depth));
      }
      assert IsOrder(h, objects, order) && !ReturnsAtSomeDepth(h, objects, order);
    } else {
      forall order | IsOrder(h, objects, order)
        ensures ReturnsAtSomeDepth(h, objects, order)
      {
        OverflowExactly(h, objects, Repeat(order, 1));
        assert SnapshotsNested(h, objects, Repeat(order, 1)) != Err(Overflow);
      }
    }
  }

  /** When everything else can be read, the order does not matter: no depth is
      enough. In particular for a store whose one manifest has that name. */
  lemma RecursesForEver(h: Handle, objects: Objects, listings: seq<seq<string>>)
    requires AreOrders(h, objects, listings) && Recurses(h, objects)
    ensures SnapshotsNested(h, objects, listings) == Err(Overflow)
    ensures LatestNested(h, objects, listings) == Err(Overflow)
  {
    hide PublishedIds, ReadManifest;
    ListedLatestNeverReads(h, objects, listings);
    forall i | 0 <= i < |listings|
      ensures Descends(h, objects, listings[i])
    {
      assert IsOrder(h, objects, listings[i]);
      var k :| 0 <= k < |listings[i]| && listings[i][k] == LATEST;
    }
  }

  lemma OnlyLatestRecurses(h: Handle, o: Object, depth: nat)
    ensures var objects := map[ManifestKeyOf(h, LATEST) := o];
            && IsOrder(h, objects, [LATEST])
            && SnapshotsNested(h, objects, Repeat([LATEST], depth)) == Err(Overflow)
  {
    hide ReadManifest, SnapshotsNested;
    var objects := map[ManifestKeyOf(h, LATEST) := o];
    assert ManifestKeyOf(h, LATEST) in objects;
    assert PublishedIds(h, objects) == {LATEST};
    RecursesForEver(h, objects, Repeat([LATEST], depth));
  }

  /* ---- for the loop over a listing ---- */

  lemma LatestNotListed(h: Handle, objects: Objects)
    ensures Selected(h, objects, LATEST).Ok? ==> LATEST !in PublishedIds(h, objects)
  {}

  lemma {:induction false} ListedIdsGrow(h: Handle, entries: seq<Listed>, m: nat, n: nat)
    requires m <= n <= |entries|
    ensures ListedIds(h, entries, m) <= ListedIds(h, entries, n)
    decreases n
  {
    if m < n {
      ListedIdsGrow(h, entries, m, n - 1);
    }
  }

  /** An error in the loop is the error of the call, whatever the calls below got. */
  lemma LoopStops(h: Handle, objects: Objects, entries: seq<Listed>, i: nat, deeper: seq<seq<string>>,
      inner: seq<seq<string>>)
    requires i < |entries| && NamesSnapshot(h, entries[i].key) && LATEST !in ListedIds(h, entries, i)
    requires Collected(h, objects, ListedIds(h, entries, i), deeper).Ok?
    requires ReadNested(h, objects, entries[i].key.id, inner).Err?
    ensures SnapshotsNested(h, objects, [ListedIds(h, entries, |entries|)] + inner)
         == Err(ReadNested(h, objects, entries[i].key.id, inner).error)
  {
    hide ReadNested;
    var before, upTo := ListedIds(h, entries, i), ListedIds(h, entries, i + 1);
    NoNesting(h, objects, before, deeper, inner);
    ListedIdsGrow(h, entries, i + 1, |entries|);
    assert upTo == before + [entries[i].key.id] && upTo[..|before|] == before;
    ErrorsStay(h, objects, upTo, ListedIds(h, entries, |entries|), inner);
    assert ([ListedIds(h, entries, |entries|)] + inner)[1..] == inner;
  }

  lemma LoopGoesOn(h: Handle, objects: Objects, entries: seq<Listed>, i: nat, deeper: seq<seq<string>>)
    requires i < |entries| && Collected(h, objects, ListedIds(h, entries, i), deeper).Ok?
    requires NamesSnapshot(h, entries[i].key) ==>
               entries[i].key.id != LATEST && ReadManifest(h, objects, entries[i].key.id).Ok?
    ensures var list := Collected(h, objects, ListedIds(h, entries, i), deeper).value;
            Collected(h, objects, ListedIds(h, entries, i + 1), deeper) ==
              Ok(if NamesSnapshot(h, entries[i].key)
                 then Insert(list, ReadManifest(h, objects, entries[i].key.id).value) else list)
  {
    hide ReadManifest, Insert;
    var before, upTo := ListedIds(h, entries, i), ListedIds(h, entries, i + 1);
    if NamesSnapshot(h, entries[i].key) {
      assert upTo == before + [entries[i].key.id] && upTo[..|before|] == before;
    } else {
      assert upTo == before;
    }
  }

  lemma NothingCollected(h: Handle, objects: Objects, entries: seq<Listed>, deeper: seq<seq<string>>)
    ensures ListedIds(h, entries, 0) == [] && Collected(h, objects, [], deeper) == Ok([])
  {}

  lemma ListedNext(h: Handle, entries: seq<Listed>, i: nat)
    requires i < |entries|
    ensures ListedIds(h, entries, i + 1) ==
              ListedIds(h, entries, i) + if NamesSnapshot(h, entries[i].key) then [entries[i].key.id] else []
  {}

  lemma AllCollected(h: Handle, objects: Objects, order: seq<string>, deeper: seq<seq<string>>)
    ensures SnapshotsNested(h, objects, [order] + deeper) == Collected(h, objects, order, deeper)
  {
    hide Collected;
    assert ([order] + deeper)[1..] == deeper;
  }

  lemma SelectedPlain(h: Handle, objects: Objects, selector: string)
    ensures selector != LATEST ==> Selected(h, objects, selector) == ReadManifest(h, objects, selector)
  {}

  lemma ListedReads(h: Handle, objects: Objects, id: string)
    requires id in PublishedIds(h, objects)
    ensures ReadManifest(h, objects, id) != Err(NotFound)
  {
    hide ManifestPlain;
    assert ManifestKeyOf(h, id) in objects;
  }

  /** `LatestSnapshot` answers exactly where the selector stands for a snapshot. */
  lemma LatestExactly(h: Handle, objects: Objects, listings: seq<seq<string>>)
    requires AreOrders(h, objects, listings) && listings != []
    ensures LatestNested(h, objects, listings).Ok? <==> Selected(h, objects, LATEST).Ok?
    ensures LatestNested(h, objects, listings).Ok? <==> AllReadable(h, objects) && PublishedIds(h, objects) != {}
    ensures Recurses(h, objects) ==> LatestNested(h, objects, listings) == Err(Overflow)
  {
    hide PublishedIds, ReadManifest, Less, SnapshotsNested, Recurses, AllReadable, IsLatest;
    AnswersExactly(h, objects, listings);
    if Recurses(h, objects) {
      RecursesForEver(h, objects, listings);
    }
    NoLatest(h, objects);
    if AllReadable(h, objects) {
      var list := SnapshotsNested(h, objects, listings).value;
      SnapshotCount(h, objects, list);
      if list != [] {
        LastIsLatest(h, objects, list);
        SelectedLatest(h, objects, list[|list| - 1]);
      }
    }
  }
}
