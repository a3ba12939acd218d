/** Restoring a whole snapshot: when it succeeds, and what is left when it does not. */
module RestoreSnapshot {
  import opened Chunker
  import opened Model
  import opened Store
  import opened Published
  import opened Retention
  import opened Repository
  import opened Tree
  import opened Restore

  /** What a restore starts from. */
  datatype Start = Start(
    h: Handle, objects: Objects, m: Manifest, sel: Selection, overwrite: bool, answers: string -> Answers,
    files: Files, dirs: set<string>)

  ghost predicate Fits(x: Start) {
    ValidManifest(x.m) && Sound(x.files, x.dirs)
  }

  ghost predicate Picked(x: Start, j: nat) {
    j < |x.m.files| && x.sel.Picks(x.m.files[j])
  }

  /** The entry is a file or a link. */
  ghost predicate IsLeaf(x: Start, j: nat) {
    Picked(x, j) && !x.m.files[j].kind.Directory?
  }

  /** One of the first n entries puts a file or a link at this path. */
  ghost predicate LeafAt(x: Start, n: nat, p: string) {
    exists k :: 0 <= k < n && IsLeaf(x, k) && x.m.files[k].path == p
  }

  /** One of the first n entries needs this directory. */
  ghost predicate DirAt(x: Start, n: nat, d: string) {
    exists k :: 0 <= k < n && Picked(x, k) && d in Needed(x.m.files[k])
  }

  function StandsAt(x: Start, p: string): Standing {
    At(x.files, x.dirs, p)
  }

  /* ---- what has been restored ---- */

  /** The node belongs to entry j. A hard link has what its target has, if an earlier
      entry restored that, and else what its target had before. */
  ghost predicate IsNode(x: Start, j: nat, b: Files, node: Node)
    requires j < |x.m.files|
  {
    var e := x.m.files[j];
    match e.kind
    case File => node.Data? && IsWhole(x.h, x.objects, e, node.bytes)
    case Symlink => node == SymbolicLink(e.linkTarget)
    case Hardlink =>
      var from := if LeafAt(x, j, e.linkTarget) then b else x.files;
      Path(e.linkTarget) in from && node == from[Path(e.linkTarget)]
    case _ => false
  }

  /** The first n entries have been restored, and nothing else has changed. */
  ghost predicate RestoredUpTo(x: Start, n: nat, b: Files, db: set<string>) {
    && (forall j :: 0 <= j < n && IsLeaf(x, j) ==>
          Path(x.m.files[j].path) in b && IsNode(x, j, b, b[Path(x.m.files[j].path)]))
    && (forall p :: SameAt(x.files, b, p) || LeafAt(x, n, p))
    && (forall dir, k :: Temp(dir, k) in b <==> Temp(dir, k) in x.files)
    && (forall d :: d in db <==> DirAt(x, n, d) || (d in x.dirs && !LeafAt(x, n, d)))
  }

  /* ---- when it succeeds ---- */

  /** The target of a hard link was there before, or comes earlier in the manifest. */
  ghost predicate HasTarget(x: Start, j: nat)
    requires j < |x.m.files|
  {
    var e := x.m.files[j];
    e.kind.Hardlink? ==> e.linkTarget != e.path && (Path(e.linkTarget) in x.files || LeafAt(x, j, e.linkTarget))
  }

  /** Entry j can be restored along with the first n: no file stands or is restored
      where it needs a directory, its chunks can be read, and its path can be taken
      as it stands at the start. */
  ghost predicate Passes(x: Start, n: nat, j: nat)
    requires j < |x.m.files|
  {
    var e := x.m.files[j];
    var at, answers := StandsAt(x, e.path), x.answers(e.path);
    && Free(x.files, Needed(e)) && (forall d :: d in Needed(e) ==> !LeafAt(x, n, d))
    && match e.kind
       case File =>
         ReadAll(x.h, x.objects, e.chunks).Ok? && if x.overwrite then answers.Replaces(at) else at.Nothing?
       case Directory => true
       case _ => answers.Links(at, x.overwrite, HasTarget(x, j))
  }

  ghost predicate AllPass(x: Start, n: nat) {
    forall j :: 0 <= j < n && Picked(x, j) ==> Passes(x, n, j)
  }

  /* ---- one entry more ---- */

  lemma OtherPaths(x: Start, j: nat, k: nat)
    requires Fits(x) && j < |x.m.files| && k < |x.m.files| && j != k
    ensures x.m.files[j].path != x.m.files[k].path
  {}

  lemma LeafNext(x: Start, n: nat, p: string)
    ensures LeafAt(x, n + 1, p) <==> LeafAt(x, n, p) || (IsLeaf(x, n) && x.m.files[n].path == p)
  {}

  lemma DirNext(x: Start, n: nat, d: string)
    ensures DirAt(x, n + 1, d) <==> DirAt(x, n, d) || (Picked(x, n) && d in Needed(x.m.files[n]))
  {}

  lemma NotYet(x: Start, n: nat)
    requires Fits(x) && n < |x.m.files|
    ensures !LeafAt(x, n, x.m.files[n].path)
  {}

  /** What is needed above a needed directory is needed too. */
  lemma DirsNest(x: Start, n: nat, d: string, a: string)
    requires DirAt(x, n, d) && a in Ancestors(d)
    ensures DirAt(x, n, a)
  {
    hide Ancestors;
    var k :| 0 <= k < n && Picked(x, k) && d in Needed(x.m.files[k]);
    NeededNests(x.m.files[k], d, a);
  }

  lemma NeededNests(e: FileEntry, d: string, a: string)
    requires d in Needed(e) && a in Ancestors(d)
    ensures a in Needed(e)
  {
    hide Ancestors;
    if d != e.path {
      AncestorsNest(e.path, d);
    }
  }

  lemma NeededIs(e: FileEntry)
    ensures Ancestors(e.path) <= Needed(e) <= Ancestors(e.path) + {e.path}
    ensures e.path in Needed(e) ==> e.kind.Directory?
  {
    NotAboveItself(e.path);
  }

  /** Something lies in a directory now exactly if something lay in it at the start,
      unless an entry needed it. */
  lemma SameOccupied(x: Start, n: nat, b: Files, db: set<string>, p: string)
    requires Fits(x) && RestoredUpTo(x, n, b, db) && Sound(b, db) && !DirAt(x, n, p)
    ensures Occupied(b, db, p) <==> Occupied(x.files, x.dirs, p)
  {
    hide Ancestors, IsNode, Sound, ValidManifest, Needed, DirAt;
    forall name | name in b && p in DirsOf(name)
      ensures name in x.files
    {
      if name.Path? && LeafAt(x, n, name.path) {
        LeafNeeds(x, n, name.path, p);
      }
    }
    forall d | d in db && p in Ancestors(d)
      ensures d in x.dirs
    {
      if DirAt(x, n, d) {
        DirsNest(x, n, d, p);
      }
    }
    forall name | name in x.files && p in DirsOf(name)
      ensures name in b
    {
      if name.Path? && LeafAt(x, n, name.path) {
        LeafNeeds(x, n, name.path, p);
      }
    }
    forall d | d in x.dirs && p in Ancestors(d)
      ensures d in db
    {
      if LeafAt(x, n, d) {
        LeafNeeds(x, n, d, p);
      }
    }
  }

  lemma LeafNeeds(x: Start, n: nat, p: string, a: string)
    requires LeafAt(x, n, p) && a in Ancestors(p)
    ensures DirAt(x, n, a)
  {
    hide Ancestors;
    var k :| 0 <= k < n && IsLeaf(x, k) && x.m.files[k].path == p;
    NeededIs(x.m.files[k]);
  }

  /** A path that an entry before needs as a directory is a full one by now. */
  lemma NeededIsFull(x: Start, n: nat, b: Files, db: set<string>)
    requires Fits(x) && RestoredUpTo(x, n, b, db) && Sound(b, db) && n < |x.m.files| && DirAt(x, n, x.m.files[n].path)
    ensures At(b, db, x.m.files[n].path).FullDirectory?
  {
    hide Ancestors, IsNode, ValidManifest, Needed, DirAt;
    var p := x.m.files[n].path;
    assert p in db;
    var k := WhoNeeds(x, n, p);
    OtherPaths(x, k, n) by {
      assert Fits(x);
    }
    NeededIs(x.m.files[k]);
    assert p in Ancestors(x.m.files[k].path);
    if IsLeaf(x, k) {
      assert Path(x.m.files[k].path) in b && p in DirsOf(Path(x.m.files[k].path));
    } else {
      SelfNeeded(x, n, k, p);
      assert x.m.files[k].path in db;
    }
  }

  lemma WhoNeeds(x: Start, n: nat, d: string) returns (k: nat)
    requires DirAt(x, n, d)
    ensures k < n && Picked(x, k) && d in Needed(x.m.files[k])
  {
    hide Ancestors;
    k :| 0 <= k < n && Picked(x, k) && d in Needed(x.m.files[k]);
  }

  lemma SelfNeeded(x: Start, n: nat, k: nat, d: string)
    requires k < n && Picked(x, k) && x.m.files[k].kind.Directory? && d in Needed(x.m.files[k])
    ensures DirAt(x, n, x.m.files[k].path)
  {
    hide Ancestors;
    assert x.m.files[k].path in Needed(x.m.files[k]);
  }

  /** What stands at the path of the next entry is what stood there at the start,
      unless an entry needed it as a directory. */
  lemma SameStanding(x: Start, n: nat, b: Files, db: set<string>)
    requires Fits(x) && RestoredUpTo(x, n, b, db) && Sound(b, db) && n < |x.m.files| && !DirAt(x, n, x.m.files[n].path)
    ensures At(b, db, x.m.files[n].path) == StandsAt(x, x.m.files[n].path)
  {
    hide Occupied, IsNode, Sound, ValidManifest, DirAt, LeafAt, Fits;
    SameOccupied(x, n, b, db, x.m.files[n].path);
    NotYet(x, n);
  }

  /** A file stands in the way now exactly if one did at the start or an entry
      before put it there. */
  lemma SameFree(x: Start, n: nat, b: Files, db: set<string>, needed: set<string>)
    requires RestoredUpTo(x, n, b, db)
    ensures Free(b, needed) <==> Free(x.files, needed) && forall d :: d in needed ==> !LeafAt(x, n, d)
  {
    hide IsNode, DirAt;
    forall d | d in needed
      ensures Path(d) in b <==> Path(d) in x.files || LeafAt(x, n, d)
    {
      LeafIsThere(x, n, b, db, d);
    }
  }

  lemma LeafIsThere(x: Start, n: nat, b: Files, db: set<string>, p: string)
    requires RestoredUpTo(x, n, b, db)
    ensures Path(p) in b <==> Path(p) in x.files || LeafAt(x, n, p)
  {
    hide IsNode, DirAt;
    assert SameAt(x.files, b, p) || LeafAt(x, n, p);
    if LeafAt(x, n, p) {
      var k :| 0 <= k < n && IsLeaf(x, k) && x.m.files[k].path == p;
      assert Path(x.m.files[k].path) in b;
    }
  }

  /** The conditions for the entries before, once entry n is there as well. */
  lemma EarlierPass(x: Start, n: nat)
    requires Fits(x) && n < |x.m.files| && AllPass(x, n)
    ensures (forall j :: 0 <= j < n && Picked(x, j) ==> Passes(x, n + 1, j)) <==>
              !(IsLeaf(x, n) && DirAt(x, n, x.m.files[n].path))
  {
    hide Needed, StandsAt, ReadAll, HasTarget, LeafAt, ValidManifest, Free, IsLeaf;
    forall j | 0 <= j < n && Picked(x, j)
      ensures Passes(x, n + 1, j) <==> !(IsLeaf(x, n) && x.m.files[n].path in Needed(x.m.files[j]))
    {
      assert Passes(x, n, j);
      forall d
        ensures LeafAt(x, n + 1, d) <==> LeafAt(x, n, d) || (IsLeaf(x, n) && x.m.files[n].path == d)
      {
        LeafNext(x, n, d);
      }
    }
  }

  /** Entry n can be restored in this state. */
  ghost predicate NextWorks(x: Start, n: nat, b: Files, db: set<string>)
    requires n < |x.m.files|
  {
    var e := x.m.files[n];
    Works(x.h, x.objects, e, x.overwrite, x.answers(e.path), b, At(b, db, e.path))
  }

  /** The condition of entry n itself. */
  lemma OwnPass(x: Start, n: nat, b: Files, db: set<string>)
    requires Fits(x) && RestoredUpTo(x, n, b, db) && Sound(b, db) && Picked(x, n)
    requires At(b, db, x.m.files[n].path) == StandsAt(x, x.m.files[n].path) || x.m.files[n].kind.Directory?
    ensures NextWorks(x, n, b, db) <==> Passes(x, n + 1, n)
  {
    hide Needed, StandsAt, ReadAll, LeafAt, ValidManifest, Free, IsNode, DirAt, RestoredUpTo, Sound, At;
    var e := x.m.files[n];
    SameFree(x, n, b, db, Needed(e));
    NeededIs(e);
    forall d | d in Needed(e)
      ensures LeafAt(x, n + 1, d) <==> LeafAt(x, n, d)
    {
      LeafNext(x, n, d);
    }
    LeafIsThere(x, n, b, db, e.linkTarget);
  }

  /** The next entry can be restored in the state so far exactly if all conditions up
      to it hold. */
  lemma WorksExactly(x: Start, n: nat, b: Files, db: set<string>)
    requires Fits(x) && RestoredUpTo(x, n, b, db) && Sound(b, db) && Picked(x, n) && AllPass(x, n)
    ensures NextWorks(x, n, b, db) <==> AllPass(x, n + 1)
  {
    hide Needed, StandsAt, ReadAll, LeafAt, Fits, Free, DirAt, RestoredUpTo, Sound, At, Passes;
    EarlierPass(x, n);
    if DirAt(x, n, x.m.files[n].path) {
      NeededIsFull(x, n, b, db);
    } else {
      SameStanding(x, n, b, db);
    }
    if IsLeaf(x, n) && DirAt(x, n, x.m.files[n].path) {
      FullIsTaken(x, n, b, db);
    } else {
      OwnPass(x, n, b, db);
    }
  }

  lemma FullIsTaken(x: Start, n: nat, b: Files, db: set<string>)
    requires IsLeaf(x, n) && At(b, db, x.m.files[n].path).FullDirectory?
    ensures !NextWorks(x, n, b, db)
  {
    hide At, ReadAll, Free, Needed;
  }

  lemma PassesShrink(x: Start, n: nat, k: nat)
    requires n <= k && AllPass(x, k)
    ensures AllPass(x, n)
  {
    hide Needed, StandsAt, ReadAll, HasTarget, Free, IsLeaf;
    forall j | 0 <= j < n && Picked(x, j)
      ensures Passes(x, n, j)
    {
      assert Passes(x, k, j);
    }
  }

  lemma SkippedPasses(x: Start, n: nat)
    requires !Picked(x, n)
    ensures AllPass(x, n + 1) <==> AllPass(x, n)
  {
    hide Needed, StandsAt, ReadAll, HasTarget, Free, LeafAt;
    forall d
      ensures LeafAt(x, n + 1, d) <==> LeafAt(x, n, d)
    {
      LeafNext(x, n, d);
    }
    forall j | 0 <= j < n && Picked(x, j)
      ensures Passes(x, n + 1, j) <==> Passes(x, n, j)
    {}
  }

  /* ---- the state after one entry more ---- */

  lemma NothingRestored(x: Start)
    ensures RestoredUpTo(x, 0, x.files, x.dirs) && AllPass(x, 0)
  {}

  lemma SkippedRestored(x: Start, n: nat, b: Files, db: set<string>)
    requires RestoredUpTo(x, n, b, db) && !Picked(x, n)
    ensures RestoredUpTo(x, n + 1, b, db)
  {
    hide IsNode, LeafAt, DirAt, Needed;
    forall p
      ensures (LeafAt(x, n + 1, p) <==> LeafAt(x, n, p)) && (DirAt(x, n + 1, p) <==> DirAt(x, n, p))
    {
      LeafNext(x, n, p);
      DirNext(x, n, p);
    }
  }

  /** Restored entries stay as they are while another path changes. */
  lemma NodesStay(x: Start, n: nat, j: nat, b: Files, c: Files, node: Node)
    requires Fits(x) && j < n < |x.m.files| && IsNode(x, j, b, node) && SameElsewhere(b, c, x.m.files[n].path)
    ensures IsNode(x, j, c, node)
  {
    hide IsWhole, ValidManifest;
    if x.m.files[j].kind.Hardlink? && LeafAt(x, j, x.m.files[j].linkTarget) {
      var k :| 0 <= k < j && IsLeaf(x, k) && x.m.files[k].path == x.m.files[j].linkTarget;
      OtherPaths(x, k, n);
      assert SameAt(b, c, x.m.files[j].linkTarget);
    }
  }

  /** What an entry leaves is its node. */
  lemma HeldIsNode(x: Start, n: nat, b: Files, db: set<string>, c: Files, node: Node)
    requires RestoredUpTo(x, n, b, db) && n < |x.m.files| && SameElsewhere(b, c, x.m.files[n].path)
    requires IsContent(x.h, x.objects, x.m.files[n], b, node)
    ensures IsNode(x, n, c, node)
  {
    hide IsWhole, DirAt, LeafAt, IsLeaf;
    var e := x.m.files[n];
    if e.kind.Hardlink? {
      assert SameAt(b, c, e.linkTarget);
      assert SameAt(x.files, b, e.linkTarget) || LeafAt(x, n, e.linkTarget);
    }
  }

  /** A directory that an entry before needs is still there. */
  lemma NeededIsThere(x: Start, n: nat, b: Files, db: set<string>, c: Files, dc: set<string>)
    requires Fits(x) && RestoredUpTo(x, n, b, db) && n < |x.m.files| && Sound(c, dc) && DirAt(x, n, x.m.files[n].path)
    requires SameElsewhere(b, c, x.m.files[n].path) && db - {x.m.files[n].path} <= dc
    ensures x.m.files[n].path in dc
  {
    hide IsNode, ValidManifest, Needed, LeafAt, Ancestors;
    var p := x.m.files[n].path;
    var k := WhoNeeds(x, n, p);
    OtherPaths(x, k, n);
    NeededIs(x.m.files[k]);
    var q := x.m.files[k].path;
    assert SameAt(b, c, q);
    if IsLeaf(x, k) {
      assert Path(q) in c && p in DirsOf(Path(q));
    } else {
      SelfNeeded(x, n, k, p);
      assert q in db;
      assert q in dc;
    }
  }

  /** An entry that has just been put at its path is needed by none before. */
  lemma TakenIsNotNeeded(x: Start, n: nat, b: Files, db: set<string>, c: Files, dc: set<string>)
    requires Fits(x) && RestoredUpTo(x, n, b, db) && IsLeaf(x, n) && Sound(c, dc)
    requires SameElsewhere(b, c, x.m.files[n].path) && Path(x.m.files[n].path) in c
    requires db - {x.m.files[n].path} <= dc
    ensures !DirAt(x, n, x.m.files[n].path)
  {
    hide IsNode, ValidManifest, Needed, LeafAt, Ancestors, DirAt;
    if DirAt(x, n, x.m.files[n].path) {
      NeededIsThere(x, n, b, db, c, dc);
    }
  }

  /** After a success. */
  lemma EntryRestored(x: Start, n: nat, b: Files, db: set<string>, c: Files, dc: set<string>)
    requires Fits(x) && RestoredUpTo(x, n, b, db) && Picked(x, n) && Sound(c, dc)
    requires Leaves(x.h, x.objects, x.m.files[n], b, db, c, dc, true)
    ensures RestoredUpTo(x, n + 1, c, dc)
  {
    hide IsNode, Fits, LeafAt, DirAt, Ancestors, Sound, IsContent, Chain;
    var e := x.m.files[n];
    if IsLeaf(x, n) {
      HeldIsNode(x, n, b, db, c, c[Path(e.path)]);
      TakenIsNotNeeded(x, n, b, db, c, dc);
    }
    forall j | 0 <= j < n + 1 && IsLeaf(x, j)
      ensures Path(x.m.files[j].path) in c && IsNode(x, j, c, c[Path(x.m.files[j].path)])
    {
      if j < n {
        OtherPaths(x, j, n);
        assert SameAt(b, c, x.m.files[j].path);
        NodesStay(x, n, j, b, c, c[Path(x.m.files[j].path)]);
      }
    }
    forall p
      ensures SameAt(x.files, c, p) || LeafAt(x, n + 1, p)
    {
      LeafNext(x, n, p);
      assert SameAt(x.files, b, p) || LeafAt(x, n, p);
      if p != e.path {
        assert SameAt(b, c, p);
      }
    }
    forall d
      ensures d in dc <==> DirAt(x, n + 1, d) || (d in x.dirs && !LeafAt(x, n + 1, d))
    {
      LeafNext(x, n, d);
      DirNext(x, n, d);
      NeededIs(e);
    }
  }

  /* ---- after a failure ---- */

  /** What one path may hold after a restore that failed: what it held before, or the
      complete content of its entry; without overwriting a beginning of a file where
      nothing was; or nothing, if the answers for its entry lose what stood there. */
  ghost predicate Survives(x: Start, b: Files, p: string) {
    || SameAt(x.files, b, p)
    || exists j :: 0 <= j < |x.m.files| && IsLeaf(x, j) && x.m.files[j].path == p && FallsTo(x, j, b, p)
  }

  ghost predicate FallsTo(x: Start, j: nat, b: Files, p: string)
    requires j < |x.m.files|
  {
    if Path(p) !in b then LosesBy(x.m.files[j], x.overwrite, x.answers(p))
    else
      || IsNode(x, j, b, b[Path(p)])
      || (&& x.m.files[j].kind.File? && !x.overwrite && Path(p) !in x.files && b[Path(p)].Data?
          && IsBeginning(x.h, x.objects, x.m.files[j], b[Path(p)].bytes))
  }

  /** The directories that were there still are, unless an entry takes their path,
      and new ones are needed by entries. */
  ghost predicate DirsSurvive(x: Start, db: set<string>) {
    && (forall d :: d in x.dirs ==> d in db || LeafAt(x, |x.m.files|, d))
    && (forall d :: d in db ==> d in x.dirs || DirAt(x, |x.m.files|, d))
  }

  lemma LeafLater(x: Start, n: nat, p: string)
    requires n <= |x.m.files|
    ensures LeafAt(x, n, p) ==> LeafAt(x, |x.m.files|, p)
    ensures DirAt(x, n, p) ==> DirAt(x, |x.m.files|, p)
  {
    hide Needed;
  }

  lemma RestoredSurvives(x: Start, n: nat, b: Files, db: set<string>)
    requires n <= |x.m.files| && RestoredUpTo(x, n, b, db)
    ensures forall p :: Survives(x, b, p)
    ensures DirsSurvive(x, db)
  {
    hide IsNode, DirAt;
    forall p
      ensures Survives(x, b, p)
    {
      assert SameAt(x.files, b, p) || LeafAt(x, n, p);
      if LeafAt(x, n, p) {
        var j :| 0 <= j < n && IsLeaf(x, j) && x.m.files[j].path == p;
        assert FallsTo(x, j, b, p);
      }
    }
    forall d
      ensures LeafAt(x, n, d) ==> LeafAt(x, |x.m.files|, d)
      ensures DirAt(x, n, d) ==> DirAt(x, |x.m.files|, d)
    {
      LeafLater(x, n, d);
    }
  }

  lemma PathFell(x: Start, n: nat, b: Files, db: set<string>, c: Files, dc: set<string>, p: string)
    requires Fits(x) && RestoredUpTo(x, n, b, db) && Picked(x, n)
    requires Leaves(x.h, x.objects, x.m.files[n], b, db, c, dc, false)
    requires Fallen(x.h, x.objects, x.m.files[n], x.overwrite, x.answers(x.m.files[n].path), b, c)
    ensures Survives(x, c, p)
  {
    hide IsNode, DirAt, Fits, IsBeginning, Needed;
    assert SameAt(x.files, b, p) || LeafAt(x, n, p);
    if p == x.m.files[n].path {
      NotYet(x, n);
      if IsLeaf(x, n) && !SameAt(b, c, p) {
        assert FallsTo(x, n, c, p);
      }
    } else {
      assert SameAt(b, c, p);
      if LeafAt(x, n, p) {
        var j :| 0 <= j < n && IsLeaf(x, j) && x.m.files[j].path == p;
        NodesStay(x, n, j, b, c, b[Path(p)]);
        assert FallsTo(x, j, c, p);
      }
    }
  }

  lemma DirFell(x: Start, n: nat, b: Files, db: set<string>, c: Files, dc: set<string>, d: string)
    requires RestoredUpTo(x, n, b, db) && Picked(x, n)
    requires Leaves(x.h, x.objects, x.m.files[n], b, db, c, dc, false)
    ensures d in x.dirs ==> d in dc || LeafAt(x, n, d) || (IsLeaf(x, n) && d == x.m.files[n].path)
    ensures d in dc ==> d in x.dirs || DirAt(x, n, d) || d in Needed(x.m.files[n])
  {
    hide IsNode, DirAt, LeafAt, Needed;
  }

  lemma EntryFell(x: Start, n: nat, b: Files, db: set<string>, c: Files, dc: set<string>)
    requires Fits(x) && RestoredUpTo(x, n, b, db) && Picked(x, n) && Sound(c, dc)
    requires Leaves(x.h, x.objects, x.m.files[n], b, db, c, dc, false)
    requires Fallen(x.h, x.objects, x.m.files[n], x.overwrite, x.answers(x.m.files[n].path), b, c)
    ensures forall p :: Survives(x, c, p)
    ensures DirsSurvive(x, dc)
  {
    hide IsNode, DirAt, Fits, Sound, IsBeginning, Needed;
    forall p
      ensures Survives(x, c, p)
    {
      PathFell(x, n, b, db, c, dc, p);
    }
    forall d
      ensures d in x.dirs ==> d in dc || LeafAt(x, |x.m.files|, d)
      ensures d in dc ==> d in x.dirs || DirAt(x, |x.m.files|, d)
    {
      LeafLater(x, n, d);
      LeafNext(x, n, d);
      DirNext(x, n, d);
      LeafLater(x, n + 1, d);
      DirFell(x, n, b, db, c, dc, d);
    }
  }

  /* ---- what is lost ---- */

  /** The answers for entry j lose the file that stands at its path. */
  ghost predicate Dropped(x: Start, j: nat)
    requires j < |x.m.files|
  {
    var e := x.m.files[j];
    match e.kind
    case File => x.overwrite && ReadAll(x.h, x.objects, e.chunks).Ok? && x.answers(e.path).Loses(Leaf)
    case Directory => false
    case _ => x.answers(e.path).Unlinks(Leaf, x.overwrite, HasTarget(x, j))
  }

  /** The restore gets to the entry of this path and loses what stands there. */
  ghost predicate LostAt(x: Start, j: nat, p: string) {
    IsLeaf(x, j) && x.m.files[j].path == p && AllPass(x, j) && Dropped(x, j)
  }

  lemma DropsIs(x: Start, n: nat, b: Files, db: set<string>)
    requires RestoredUpTo(x, n, b, db) && n < |x.m.files|
    ensures Drops(x.h, x.objects, x.m.files[n], x.overwrite, x.answers(x.m.files[n].path), b) <==> Dropped(x, n)
  {
    hide RestoredUpTo, LeafAt, ReadAll;
    LeafIsThere(x, n, b, db, x.m.files[n].linkTarget);
  }

  /** What passes is not lost. */
  lemma PassedIsKept(x: Start, n: nat, j: nat, p: string)
    requires j < n && AllPass(x, n) && Path(p) in x.files
    ensures !LostAt(x, j, p)
  {
    hide ReadAll, LeafAt, Needed, AllPass, Occupied;
    if LostAt(x, j, p) {
      OnePasses(x, n, j);
    }
  }

  lemma OnePasses(x: Start, n: nat, j: nat)
    requires AllPass(x, n) && j < n && Picked(x, j)
    ensures Passes(x, n, j)
  {
    hide Passes;
  }

  /** Where nothing else fails, the one path that can be lost is that of the entry at
      which the restore stops. */
  lemma LostExactly(x: Start, n: nat, b: Files, db: set<string>, c: Files)
    requires Fits(x) && RestoredUpTo(x, n, b, db) && Sound(b, db) && Picked(x, n) && AllPass(x, n)
    requires SameElsewhere(b, c, x.m.files[n].path) && !AllPass(x, n + 1)
    requires Path(x.m.files[n].path) in b ==>
               (Path(x.m.files[n].path) !in c <==>
                Drops(x.h, x.objects, x.m.files[n], x.overwrite, x.answers(x.m.files[n].path), b))
    ensures forall p :: Path(p) in x.files ==> (Path(p) !in c <==> exists j :: LostAt(x, j, p))
  {
    hide RestoredUpTo, AllPass, Dropped, Drops, Sound, Fits, LeafAt;
    DropsIs(x, n, b, db);
    forall p | Path(p) in x.files
      ensures Path(p) !in c <==> exists j :: LostAt(x, j, p)
    {
      LeafIsThere(x, n, b, db, p);
      if p == x.m.files[n].path {
        if Path(p) !in c {
          DroppedIsLeaf(x, n);
          assert LostAt(x, n, p);
        } else {
          forall j: nat
            ensures !LostAt(x, j, p)
          {
            if j < |x.m.files| && j != n {
              OtherPaths(x, j, n);
            }
          }
        }
      } else {
        assert SameAt(b, c, p);
        forall j: nat
          ensures !LostAt(x, j, p)
        {
          if j < n {
            PassedIsKept(x, n, j, p);
          } else if j > n && AllPass(x, j) {
            PassesShrink(x, n + 1, j);
          }
        }
      }
    }
  }

  lemma DroppedIsLeaf(x: Start, n: nat)
    requires Picked(x, n) && Dropped(x, n)
    ensures IsLeaf(x, n)
  {
    hide ReadAll;
  }

  lemma NothingLost(x: Start, b: Files, db: set<string>)
    requires RestoredUpTo(x, |x.m.files|, b, db) && AllPass(x, |x.m.files|)
    ensures forall p :: Path(p) in x.files ==> (Path(p) !in b <==> exists j :: LostAt(x, j, p))
  {
    hide RestoredUpTo, AllPass, Dropped, LeafAt;
    forall p | Path(p) in x.files
      ensures Path(p) in b && forall j :: !LostAt(x, j, p)
    {
      LeafIsThere(x, |x.m.files|, b, db, p);
      forall j: nat
        ensures !LostAt(x, j, p)
      {
        if j < |x.m.files| {
          PassedIsKept(x, |x.m.files|, j, p);
        }
      }
    }
  }

  /* ---- the restore ---- */

  /** The directories that are looked up for an entry. */
  function Walked(e: FileEntry): set<string> {
    Needed(e) + if e.kind.Hardlink? then Ancestors(e.linkTarget) else {}
  }

  /** No path leads through a symbolic link, one that stands there or one that is
      restored. */
  ghost predicate Straight(x: Start) {
    forall j: nat, d :: Picked(x, j) && d in Walked(x.m.files[j]) ==>
      && !(Path(d) in x.files && x.files[Path(d)].SymbolicLink?)
      && forall k: nat :: IsLeaf(x, k) && x.m.files[k].path == d ==> !x.m.files[k].kind.Symlink?
  }

  ghost function StartOf(r: Repository, id: string, sel: Selection, overwrite: bool, answers: string -> Answers,
      files: Files, dirs: set<string>): Start
    reads r, r.store
    requires Selected(r.handle, r.store.objects, id).Ok?
  {
    var m := Selected(r.handle, r.store.objects, id).value;
    Start(r.handle, r.store.objects, m, sel, overwrite, answers, files, dirs)
  }

  lemma StartFits(r: Repository, id: string, sel: Selection, overwrite: bool, answers: string -> Answers,
      files: Files, dirs: set<string>)
    requires Selected(r.handle, r.store.objects, id).Ok? && Sound(files, dirs)
    ensures Fits(StartOf(r, id, sel, overwrite, answers, files, dirs))
  {
    hide Selected, ReadManifest, ValidManifest, Sound;
    SelectedIsThere(r.handle, r.store.objects, id);
  }

  lemma EntriesAreValid(x: Start, n: nat)
    requires Fits(x) && n < |x.m.files|
    ensures ValidEntry(x.m.files[n])
  {
    hide ValidEntry;
  }

  /** `RestoreWithOptions`. present says whether the destination existed, answers what
      the file system says when a path is taken. On success every selected entry is
      in place and nothing else has changed. On failure each path has its old or its
      complete new content; only the path at which the restore stopped may be lost,
      and only by the answers for it. Where no path leads through a symbolic link and
      nothing else fails, it succeeds exactly if all entries pass. */
  method RestoreWithOptions(r: Repository, id: string, sel: Selection, tree: Tree, present: bool, overwrite: bool,
      answers: string -> Answers)
    returns (ok: bool)
    requires tree.Valid() && (!present ==> tree.files == map[] && tree.dirs == {})
    modifies tree
    ensures tree.Valid()
    ensures Selected(r.handle, r.store.objects, id).Err? || (present && !overwrite) ==>
              !ok && tree.files == old(tree.files) && tree.dirs == old(tree.dirs)
    ensures Selected(r.handle, r.store.objects, id).Ok? ==>
              var x := StartOf(r, id, sel, overwrite, answers, old(tree.files), old(tree.dirs));
              && (ok ==> RestoredUpTo(x, |x.m.files|, tree.files, tree.dirs))
              && (!ok ==> (forall p :: Survives(x, tree.files, p)) && DirsSurvive(x, tree.dirs))
              && (r.store.reliable && tree.reliable && Straight(x) ==>
                    && (ok <==> (overwrite || !present) && AllPass(x, |x.m.files|))
                    && (overwrite ==> forall p :: Path(p) in x.files ==>
                          (Path(p) !in tree.files <==> exists j :: LostAt(x, j, p))))
  {
    hide Selected, ReadManifest, RestoredUpTo, AllPass, Survives, DirsSurvive, LostAt, Fits, Leaves, Fallen, Works,
      Drops, Straight, At, Sound, ValidEntry;
    ok := false;
    var m := r.FetchManifest(id);
    ghost var files, dirs := tree.files, tree.dirs;
    if m.Err? || (present && !overwrite) {
      if Selected(r.handle, r.store.objects, id).Ok? {
        ghost var x := StartOf(r, id, sel, overwrite, answers, files, dirs);
        NothingRestored(x);
        RestoredSurvives(x, 0, files, dirs);
      }
      return;
    }
    ghost var x := StartOf(r, id, sel, overwrite, answers, files, dirs);
    StartFits(r, id, sel, overwrite, answers, files, dirs);
    NothingRestored(x);
    RestoredSurvives(x, 0, files, dirs);
    var refused := tree.Fails();
    if refused {
      return;
    }
    var directories := 0;
    for n := 0 to |m.value.files|
      invariant tree.Valid() && RestoredUpTo(x, n, tree.files, tree.dirs)
      invariant r.store.reliable && tree.reliable ==> AllPass(x, n)
    {
      var e := m.value.files[n];
      if !sel.Picks(e) {
        SkippedRestored(x, n, tree.files, tree.dirs);
        SkippedPasses(x, n);
        continue;
      }
      files, dirs := tree.files, tree.dirs;
      EntriesAreValid(x, n);
      ok := RestoreEntry(r, e, tree, overwrite, answers(e.path));
      if r.store.reliable && tree.reliable {
        WorksExactly(x, n, files, dirs);
      }
      if !ok {
        EntryFell(x, n, files, dirs, tree.files, tree.dirs);
        if r.store.reliable && tree.reliable {
          LeavesElsewhere(x, n, files, dirs, tree.files, tree.dirs);
          LostExactly(x, n, files, dirs, tree.files);
          NeverPass(x, n);
        }
        return;
      }
      EntryRestored(x, n, files, dirs, tree.files, tree.dirs);
      if e.kind.Directory? {
        directories := directories + 1;
      }
    }
    files, dirs := tree.files, tree.dirs;
    RestoredSurvives(x, |x.m.files|, files, dirs);
    for i := 0 to directories
      invariant tree.Valid() && tree.files == files && tree.dirs == dirs
    {
      var bare := tree.Fails();
      if bare {
        return false;
      }
    }
    if r.store.reliable && tree.reliable {
      NothingLost(x, tree.files, tree.dirs);
    }
    ok := true;
  }

  lemma LeavesElsewhere(x: Start, n: nat, b: Files, db: set<string>, c: Files, dc: set<string>)
    requires n < |x.m.files| && Leaves(x.h, x.objects, x.m.files[n], b, db, c, dc, false)
    ensures SameElsewhere(b, c, x.m.files[n].path)
  {
    hide SameElsewhere;
  }

  lemma NeverPass(x: Start, n: nat)
    requires n < |x.m.files| && !AllPass(x, n + 1)
    ensures !AllPass(x, |x.m.files|)
  {
    hide AllPass;
    if AllPass(x, |x.m.files|) {
      PassesShrink(x, n + 1, |x.m.files|);
    }
  }

  /* ---- hard links ---- */

  /** A destination with nothing in it, on a file system that grants everything. */
  ghost predicate Fresh(x: Start) {
    x.files == map[] && x.dirs == {} && forall p :: x.answers(p).first && x.answers(p).second
  }

  /** Into such a destination a snapshot can be restored exactly if its chunks can be
      read, no file lies where another entry needs a directory, and every hard link
      comes after its target. */
  lemma FreshExactly(x: Start)
    requires Fits(x) && Fresh(x)
    ensures AllPass(x, |x.m.files|) <==>
              && (forall j: nat :: IsLeaf(x, j) && x.m.files[j].kind.File? ==>
                    ReadAll(x.h, x.objects, x.m.files[j].chunks).Ok?)
              && (forall j: nat, d :: Picked(x, j) && d in Needed(x.m.files[j]) ==> !LeafAt(x, |x.m.files|, d))
              && (forall j: nat :: IsLeaf(x, j) && x.m.files[j].kind.Hardlink? ==>
                    LeafAt(x, j, x.m.files[j].linkTarget))
  {
    hide ReadAll, Needed, LeafAt, Fits, Occupied;
    var n := |x.m.files|;
    forall j: nat | Picked(x, j)
      ensures Passes(x, n, j) <==> FreshPasses(x, j)
    {
      FreshPassesExactly(x, j);
    }
  }

  ghost predicate FreshPasses(x: Start, j: nat)
    requires j < |x.m.files|
  {
    && (x.m.files[j].kind.File? ==> ReadAll(x.h, x.objects, x.m.files[j].chunks).Ok?)
    && (forall d :: d in Needed(x.m.files[j]) ==> !LeafAt(x, |x.m.files|, d))
    && (x.m.files[j].kind.Hardlink? ==> LeafAt(x, j, x.m.files[j].linkTarget))
  }

  lemma FreshPassesExactly(x: Start, j: nat)
    requires Fits(x) && Fresh(x) && Picked(x, j)
    ensures Passes(x, |x.m.files|, j) <==> FreshPasses(x, j)
  {
    hide ReadAll, Needed, LeafAt, Fits, Occupied;
    NotYet(x, j);
  }

  /** In a manifest sorted by path the entries before a hard link are those with
      smaller paths. */
  lemma SortedTargets(x: Start, j: nat)
    requires j < |x.m.files|
    requires forall i, k :: 0 <= i < k < |x.m.files| ==> Less(x.m.files[i].path, x.m.files[k].path)
    ensures LeafAt(x, j, x.m.files[j].linkTarget) <==>
              LeafAt(x, |x.m.files|, x.m.files[j].linkTarget) && Less(x.m.files[j].linkTarget, x.m.files[j].path)
  {
    hide Less, IsLeaf;
    var target, p := x.m.files[j].linkTarget, x.m.files[j].path;
    if LeafAt(x, |x.m.files|, target) && Less(target, p) {
      var k :| 0 <= k < |x.m.files| && IsLeaf(x, k) && x.m.files[k].path == target;
      if k >= j {
        LessIrreflexive(p);
        if k > j {
          LessTransitive(p, target, p);
        }
      }
    }
  }

  /** The walk visits what is in a directory before the directory's next sibling:
      paths are compared component by component. */
  predicate VisitedBefore(p: seq<string>, q: seq<string>) {
    q != [] && (p == [] || Less(p[0], q[0]) || (p[0] == q[0] && VisitedBefore(p[1..], q[1..])))
  }

  /** The walk visits `a/x` before `a-b`, so that a backup records the latter as an
      alias of the former; but it sorts first, and then the snapshot cannot be
      restored into an empty destination. */
  lemma AliasSortsFirst(h: Handle, objects: Objects, overwrite: bool, answers: string -> Answers, id: string)
    requires id != ""
    ensures var m := Aliased(id);
            var x := Start(h, objects, m, Everything, overwrite, answers, map[], {});
            && ValidManifest(m) && VisitedBefore(Components("a/x"), Components("a-b"))
            && (forall i, k :: 0 <= i < k < |m.files| ==> Less(m.files[i].path, m.files[k].path))
            && !AllPass(x, |m.files|)
  {
    hide Less, Components, ValidManifest, AllPass, VisitedBefore;
    AliasedPaths();
    AliasedIsValid(id);
    AliasedCannotPass(h, objects, overwrite, answers, id);
  }

  lemma AliasedPaths()
    ensures Components("a/x") == ["a", "x"] && Components("a-b") == ["a-b"] && Components("a") == ["a"]
    ensures VisitedBefore(["a", "x"], ["a-b"])
    ensures Less("a", "a-b") && Less("a-b", "a/x") && Less("a", "a/x")
  {
    assert FirstSlash("a/x") == 1 && FirstSlash("a-b") == 3 && FirstSlash("a") == 1 && FirstSlash("x") == 1;
    assert "a/x"[..1] == "a" && "a/x"[2..] == "x";
  }

  lemma AliasedIsValid(id: string)
    requires id != ""
    ensures ValidManifest(Aliased(id))
  {
    hide Less, Components, VisitedBefore;
    AliasedPaths();
    assert ValidPath("a/x") && ValidPath("a-b") && ValidPath("a");
  }

  lemma AliasedCannotPass(h: Handle, objects: Objects, overwrite: bool, answers: string -> Answers, id: string)
    ensures !AllPass(Start(h, objects, Aliased(id), Everything, overwrite, answers, map[], {}), 3)
  {
    hide Needed, ReadAll, At, Free;
    var x := Start(h, objects, Aliased(id), Everything, overwrite, answers, map[], {});
    assert IsLeaf(x, 1) && !LeafAt(x, 1, "a/x");
    assert !Passes(x, 3, 1);
  }

  /** A directory, an alias of the file in it, and that file. */
  function Aliased(id: string): Manifest {
    Manifest(FORMAT_VERSION, id, None, [
      FileEntry("a", Directory, 0, [], ""),
      FileEntry("a-b", Hardlink, 0, [], "a/x"),
      FileEntry("a/x", File, 0, [], "")], "")
  }

  /** Over an old copy such a restore succeeds, and the alias keeps what its target
      held before, whatever its target holds now. */
  lemma AliasIsStale(x: Start, b: Files, db: set<string>, j: nat)
    requires Fits(x) && RestoredUpTo(x, |x.m.files|, b, db) && IsLeaf(x, j) && x.m.files[j].kind.Hardlink?
    ensures Path(x.m.files[j].path) in b
    ensures LeafAt(x, j, x.m.files[j].linkTarget) ==>
              && Path(x.m.files[j].linkTarget) in b
              && b[Path(x.m.files[j].path)] == b[Path(x.m.files[j].linkTarget)]
    ensures !LeafAt(x, j, x.m.files[j].linkTarget) ==>
              && Path(x.m.files[j].linkTarget) in x.files
              && b[Path(x.m.files[j].path)] == x.files[Path(x.m.files[j].linkTarget)]
  {
    hide LeafAt, DirAt, ValidManifest;
  }
}
