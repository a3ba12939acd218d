/** Restoring a snapshot into a directory. */
module Restore {
  import opened Chunker
  import opened Model
  import opened Store
  import opened Published
  import opened Repository
  import opened Tree

  /* ---- what decides a restore ---- */

  /** What the file system answers when a path is taken: to the rename that replaces
      it, to the removal of what stands there, and to the second rename or to the
      link. */
  datatype Answers = Answers(first: bool, removal: bool, second: bool) {
    predicate Replaces(at: Standing) {
      match at
      case Nothing => first
      case Leaf => first || (removal && second)
      case EmptyDirectory => removal && second
      case FullDirectory => false
    }

    predicate Loses(at: Standing) {
      match at
      case Leaf => !first && removal && !second
      case EmptyDirectory => removal && !second
      case _ => false
    }

    predicate Clears(at: Standing, overwrite: bool) {
      at.Nothing? || (overwrite && removal && !at.FullDirectory?)
    }

    predicate Links(at: Standing, overwrite: bool, possible: bool) {
      Clears(at, overwrite) && second && possible
    }

    predicate Unlinks(at: Standing, overwrite: bool, possible: bool) {
      !at.Nothing? && Clears(at, overwrite) && !(second && possible)
    }
  }

  /** The include patterns; directories are restored only without any. */
  datatype Selection = Everything | Matching(includes: string -> bool) {
    predicate Picks(e: FileEntry) {
      if e.kind.Directory? then Everything? else !e.kind.Unknown? && (Everything? || includes(e.path))
    }
  }

  /* ---- one entry ---- */

  /** The two states agree on this path. */
  ghost predicate SameAt(a: Files, b: Files, p: string) {
    (Path(p) in a <==> Path(p) in b) && (Path(p) in a ==> a[Path(p)] == b[Path(p)])
  }

  ghost predicate SameElsewhere(a: Files, b: Files, p: string) {
    forall q :: q != p ==> SameAt(a, b, q)
  }

  /** data is all of the file, each chunk verified and of its recorded size. */
  ghost predicate IsWhole(h: Handle, objects: Objects, e: FileEntry, data: Bytes) {
    ReadAll(h, objects, e.chunks) == Ok(data) && |data| == e.size
  }

  /** data is a beginning of the verified chunks. */
  ghost predicate IsBeginning(h: Handle, objects: Objects, e: FileEntry, data: Bytes) {
    exists n, part :: WrittenPart(h, objects, e.chunks, n, part, data)
  }

  /** The directories an entry asks for. */
  function Needed(e: FileEntry): set<string> {
    if e.kind.Directory? then Chain(e.path) else Ancestors(e.path)
  }

  /** What stands at the path of a restored file or link: its whole content, the
      target of a symbolic link, or for a hard link what its target was. */
  ghost predicate IsContent(h: Handle, objects: Objects, e: FileEntry, before: Files, node: Node) {
    match e.kind
    case File => node.Data? && IsWhole(h, objects, e, node.bytes)
    case Symlink => node == SymbolicLink(e.linkTarget)
    case Hardlink => e.linkTarget != e.path && Path(e.linkTarget) in before && node == before[Path(e.linkTarget)]
    case _ => false
  }

  /** The link of a hard link can be made: its target is another file. */
  predicate Possible(e: FileEntry, files: Files) {
    e.kind.Hardlink? ==> e.linkTarget != e.path && Path(e.linkTarget) in files
  }

  /** What restoring one entry may do to the tree, and what it does on success. */
  ghost predicate Leaves(h: Handle, objects: Objects, e: FileEntry, a: Files, da: set<string>, b: Files,
      db: set<string>, ok: bool) {
    && SameElsewhere(a, b, e.path) && (if e.kind.Directory? then da else da - {e.path}) <= db <= da + Needed(e)
    && (ok && !e.kind.Directory? ==>
          && Path(e.path) in b && b == a[Path(e.path) := b[Path(e.path)]]
          && IsContent(h, objects, e, a, b[Path(e.path)])
          && db == da + Ancestors(e.path) - {e.path})
    && (ok && e.kind.Directory? ==> b == a && db == da + Chain(e.path))
  }

  /** These answers lose a file that stands at the path of the entry. */
  predicate LosesBy(e: FileEntry, overwrite: bool, answers: Answers) {
    overwrite && if e.kind.File? then answers.Loses(Leaf) else answers.removal && !e.kind.Directory?
  }

  /** What a failure may leave at the path of an entry: what was there, nothing, or
      without overwriting a beginning of the file. */
  ghost predicate Fallen(h: Handle, objects: Objects, e: FileEntry, overwrite: bool, answers: Answers, a: Files,
      b: Files) {
    || SameAt(a, b, e.path)
    || (Path(e.path) !in b && LosesBy(e, overwrite, answers))
    || (&& e.kind.File? && !overwrite && Path(e.path) !in a && Path(e.path) in b && b[Path(e.path)].Data?
        && IsBeginning(h, objects, e, b[Path(e.path)].bytes))
  }

  /** Where nothing fails but what is answered, an entry is restored exactly if its
      directories can be made, its chunks can be read, and its path can be taken. */
  ghost predicate Works(h: Handle, objects: Objects, e: FileEntry, overwrite: bool, answers: Answers, files: Files,
      at: Standing) {
    && Free(files, Needed(e))
    && match e.kind
       case File =>
         ReadAll(h, objects, e.chunks).Ok? && if overwrite then answers.Replaces(at) else at.Nothing?
       case Directory => true
       case _ => answers.Links(at, overwrite, Possible(e, files))
  }

  /** And the file that stands at its path is lost exactly if this holds. */
  ghost predicate Drops(h: Handle, objects: Objects, e: FileEntry, overwrite: bool, answers: Answers, files: Files) {
    match e.kind
    case File => overwrite && ReadAll(h, objects, e.chunks).Ok? && answers.Loses(Leaf)
    case Directory => false
    case _ => answers.Unlinks(Leaf, overwrite, Possible(e, files))
  }

  /** Both together, for a restore of the entry from a to b. */
  ghost predicate Exactly(h: Handle, objects: Objects, e: FileEntry, overwrite: bool, answers: Answers, a: Files,
      da: set<string>, b: Files, ok: bool) {
    && (ok <==> Works(h, objects, e, overwrite, answers, a, At(a, da, e.path)))
    && (Path(e.path) in a ==> (Path(e.path) !in b <==> Drops(h, objects, e, overwrite, answers, a)))
  }

  /** Writes the chunks of an entry to a new, empty file. */
  method WriteChunks(r: Repository, e: FileEntry, tree: Tree, name: Name) returns (ok: bool)
    requires tree.Valid() && name in tree.files && tree.files[name] == Data([])
    modifies tree`files
    ensures tree.Valid()
    ensures name in tree.files && tree.files == old(tree.files)[name := tree.files[name]] && tree.files[name].Data?
    ensures ok ==> IsWhole(r.handle, r.store.objects, e, tree.files[name].bytes)
    ensures IsBeginning(r.handle, r.store.objects, e, tree.files[name].bytes)
    ensures r.store.reliable && tree.reliable && e.size == TotalSize(e.chunks) ==>
              (ok <==> ReadAll(r.handle, r.store.objects, e.chunks).Ok?)
  {
    hide ReadChunk, ReadAll, WrittenPart, IsBeginning, Sound;
    ok := false;
    var written := 0;
    NothingWritten(r.handle, r.store.objects, e.chunks);
    BeginningIs(r.handle, r.store.objects, e, 0, [], []);
    for n := 0 to |e.chunks|
      invariant tree.Valid()
      invariant name in tree.files && tree.files == old(tree.files)[name := tree.files[name]] && tree.files[name].Data?
      invariant ReadAll(r.handle, r.store.objects, e.chunks[..n]) == Ok(tree.files[name].bytes)
      invariant written == |tree.files[name].bytes|
      invariant IsBeginning(r.handle, r.store.objects, e, tree.files[name].bytes)
    {
      var ref := e.chunks[n];
      var data := r.FetchChunk(ref.id);
      if data.Err? || |data.value| != ref.size {
        if r.store.reliable {
          NextChunkFails(r.handle, r.store.objects, e.chunks, n);
        }
        return;
      }
      ghost var before := tree.files[name].bytes;
      var k, failed := tree.Append(name, data.value);
      written := written + k;
      NextChunkReads(r.handle, r.store.objects, e.chunks, n, before, data.value, k);
      BeginningIs(r.handle, r.store.objects, e, n, data.value[..k], tree.files[name].bytes);
      if failed {
        return;
      }
    }
    assert e.chunks[..|e.chunks|] == e.chunks;
    ReadAllSize(r.handle, r.store.objects, e.chunks);
    var unclosed := tree.Fails();
    if unclosed {
      return;
    }
    return written == e.size;
  }

  lemma BeginningIs(h: Handle, objects: Objects, e: FileEntry, n: nat, part: Bytes, data: Bytes)
    requires WrittenPart(h, objects, e.chunks, n, part, data)
    ensures IsBeginning(h, objects, e, data)
  {}

  /** `replaceFile`. It succeeds exactly when the first rename does, or the removal
      and then the second; what stood there is lost exactly when the removal succeeds
      and no rename does. A directory gives way if it is empty. */
  method ReplaceFile(tree: Tree, source: Name, path: string, answers: Answers) returns (ok: bool)
    requires tree.Valid() && source in tree.files && source.Temp? && Ancestors(path) <= tree.dirs
    modifies tree
    ensures tree.Valid()
    ensures ok <==> answers.Replaces(At(old(tree.files), old(tree.dirs), path))
    ensures ok ==>
              && tree.files == (old(tree.files) - {source})[Path(path) := old(tree.files)[source]]
              && tree.dirs == old(tree.dirs) - {path}
    ensures !ok ==>
              var lost := answers.Loses(At(old(tree.files), old(tree.dirs), path));
              && tree.files == (if lost then old(tree.files) - {Path(path)} else old(tree.files))
              && tree.dirs == (if lost then old(tree.dirs) - {path} else old(tree.dirs))
  {
    hide Ancestors, Occupied;
    NotAboveItself(path);
    ok := tree.Rename(source, path, answers.first);
    if ok {
      return;
    }
    var removed := tree.Remove(path, answers.removal);
    if !removed {
      return;
    }
    ok := tree.Rename(source, path, answers.second);
  }

  /** Making the directories above a path changes nothing at the path. */
  lemma AtWithParents(files: Files, dirs: set<string>, p: string)
    ensures At(files, dirs + Ancestors(p), p) == At(files, dirs, p)
  {
    hide Ancestors, DirsOf;
    NotAboveItself(p);
    forall a | a in Ancestors(p)
      ensures p !in Ancestors(a)
    {
      AncestorsNest(p, a);
    }
  }

  /** Nor does a temporary file beside it. */
  lemma AtWithTemp(files: Files, dirs: set<string>, p: string, dir: string, n: nat, node: Node)
    requires Chain(dir) == Ancestors(p) && Temp(dir, n) !in files
    ensures At(files[Temp(dir, n) := node], dirs, p) == At(files, dirs, p)
  {
    hide Ancestors, Chain;
    NotAboveItself(p);
    var more := files[Temp(dir, n) := node];
    forall name | name in files
      ensures name in more
    {}
  }

  lemma NothingThere(files: Files, dirs: set<string>, p: string)
    requires At(files, dirs, p).Nothing?
    ensures Path(p) !in files && p !in dirs
  {}

  /** Above a file there are only directories. */
  lemma FilesAreFree(files: Files, dirs: set<string>, p: string)
    requires Sound(files, dirs) && Path(p) in files
    ensures Free(files, Ancestors(p))
  {
    hide Ancestors;
    assert DirsOf(Path(p)) <= dirs;
  }

  lemma EntryIsRelative(e: FileEntry)
    requires ValidEntry(e)
    ensures Relative(e.path) && e.path != "" && (e.kind.File? ==> e.size == TotalSize(e.chunks))
  {}

  /** A new file, where nothing may stand. */
  method WriteNew(r: Repository, e: FileEntry, tree: Tree) returns (ok: bool)
    requires tree.Valid() && Ancestors(e.path) <= tree.dirs && e.size == TotalSize(e.chunks)
    modifies tree`files
    ensures tree.Valid()
    ensures tree.files == old(tree.files)
            || (&& At(old(tree.files), tree.dirs, e.path).Nothing?
                && Path(e.path) in tree.files && tree.files == old(tree.files)[Path(e.path) := tree.files[Path(e.path)]]
                && tree.files[Path(e.path)].Data?
                && IsBeginning(r.handle, r.store.objects, e, tree.files[Path(e.path)].bytes))
    ensures ok ==>
              && Path(e.path) in tree.files && tree.files[Path(e.path)].Data? && tree.files != old(tree.files)
              && IsWhole(r.handle, r.store.objects, e, tree.files[Path(e.path)].bytes)
    ensures r.store.reliable && tree.reliable ==>
              (ok <==> && ReadAll(r.handle, r.store.objects, e.chunks).Ok?
                       && At(old(tree.files), tree.dirs, e.path).Nothing?)
  {
    hide ReadAll, IsWhole, IsBeginning, Ancestors, Sound, At;
    ok := false;
    ghost var files := tree.files;
    var made := tree.CreateExclusive(e.path);
    if !made {
      return;
    }
    NothingThere(files, tree.dirs, e.path);
    ok := WriteChunks(r, e, tree, Path(e.path));
    assert tree.files == files[Path(e.path) := tree.files[Path(e.path)]];
    if ok {
      var bare := tree.Fails();
      ok := !bare;
    }
  }

  /** A temporary file that takes the place of what stands at the path. */
  method WriteOver(r: Repository, e: FileEntry, tree: Tree, dir: string, answers: Answers) returns (ok: bool)
    requires tree.Valid() && Chain(dir) == Ancestors(e.path) <= tree.dirs && e.size == TotalSize(e.chunks)
    modifies tree
    ensures tree.Valid() && SameElsewhere(old(tree.files), tree.files, e.path)
    ensures ok ==>
              && Path(e.path) in tree.files && tree.files == old(tree.files)[Path(e.path) := tree.files[Path(e.path)]]
              && tree.files[Path(e.path)].Data?
              && IsWhole(r.handle, r.store.objects, e, tree.files[Path(e.path)].bytes)
              && tree.dirs == old(tree.dirs) - {e.path}
    ensures !ok ==>
              || (SameAt(old(tree.files), tree.files, e.path) && tree.dirs == old(tree.dirs))
              || (&& answers.Loses(At(old(tree.files), old(tree.dirs), e.path)) && Path(e.path) !in tree.files
                  && tree.dirs == old(tree.dirs) - {e.path})
    ensures r.store.reliable && tree.reliable ==>
              var at := At(old(tree.files), old(tree.dirs), e.path);
              && (ok <==> ReadAll(r.handle, r.store.objects, e.chunks).Ok? && answers.Replaces(at))
              && (Path(e.path) in old(tree.files) ==>
                  (Path(e.path) !in tree.files <==>
                   ReadAll(r.handle, r.store.objects, e.chunks).Ok? && answers.Loses(at)))
  {
    hide ReadAll, IsWhole, IsBeginning, Ancestors, Chain, Sound, At;
    ok := false;
    ghost var files := tree.files;
    var temp := tree.CreateTemp(dir);
    if temp.None? {
      return;
    }
    var name := Temp(dir, temp.value);
    var kept := tree.Fails();
    var locked := tree.Fails();
    if locked {
      tree.Discard(name, !kept);
      return;
    }
    var good := WriteChunks(r, e, tree, name);
    assert tree.files == files[name := tree.files[name]];
    if good {
      var bare := tree.Fails();
      good := !bare;
    }
    if good {
      AtWithTemp(files, tree.dirs, e.path, dir, temp.value, tree.files[name]);
      good := ReplaceFile(tree, name, e.path, answers);
      if good {
        assert tree.files == files[Path(e.path) := tree.files[Path(e.path)]];
        return true;
      }
    }
    tree.Discard(name, !kept);
  }

  /** One regular file. When it overwrites, a path keeps its old content until the
      complete and verified new content takes its place, unless the replacement
      loses it. */
  method RestoreRegular(r: Repository, e: FileEntry, tree: Tree, overwrite: bool, answers: Answers) returns (ok: bool)
    requires tree.Valid() && ValidEntry(e) && e.kind.File?
    modifies tree
    ensures tree.Valid()
    ensures Leaves(r.handle, r.store.objects, e, old(tree.files), old(tree.dirs), tree.files, tree.dirs, ok)
    ensures !ok ==> Fallen(r.handle, r.store.objects, e, overwrite, answers, old(tree.files), tree.files)
    ensures r.store.reliable && tree.reliable ==>
              Exactly(r.handle, r.store.objects, e, overwrite, answers, old(tree.files), old(tree.dirs), tree.files, ok)
  {
    hide ReadAll, IsWhole, IsBeginning, Ancestors, Chain, Sound, Occupied;
    ok := false;
    EntryIsRelative(e);
    ParentIsBelow(e.path);
    NotAboveItself(e.path);
    ghost var files, dirs := tree.files, tree.dirs;
    var made := tree.MkdirAll(Parent(e.path));
    if !made {
      if Path(e.path) in files {
        FilesAreFree(files, dirs, e.path);
      }
      return;
    }
    AtWithParents(files, dirs, e.path);
    if overwrite {
      ok := WriteOver(r, e, tree, Parent(e.path), answers);
    } else {
      ok := WriteNew(r, e, tree);
    }
  }

  /** What stands at the path is removed if need be, and the link is put there. */
  method PlaceLink(e: FileEntry, tree: Tree, overwrite: bool, answers: Answers) returns (ok: bool)
    requires tree.Valid() && (e.kind.Symlink? || e.kind.Hardlink?) && Ancestors(e.path) <= tree.dirs
    modifies tree
    ensures tree.Valid()
    ensures var at := At(old(tree.files), old(tree.dirs), e.path);
            && (ok <==> answers.Links(at, overwrite, Possible(e, old(tree.files))))
            && (ok ==>
                  && Path(e.path) in tree.files
                  && tree.files == old(tree.files)[Path(e.path) := tree.files[Path(e.path)]]
                  && (if e.kind.Symlink? then tree.files[Path(e.path)] == SymbolicLink(e.linkTarget)
                      else tree.files[Path(e.path)] == old(tree.files)[Path(e.linkTarget)])
                  && tree.dirs == old(tree.dirs) - {e.path})
            && (!ok ==>
                  var gone := answers.Unlinks(at, overwrite, Possible(e, old(tree.files)));
                  && tree.files == (if gone then old(tree.files) - {Path(e.path)} else old(tree.files))
                  && tree.dirs == (if gone then old(tree.dirs) - {e.path} else old(tree.dirs)))
  {
    hide Ancestors, Sound, Occupied;
    NotAboveItself(e.path);
    ok := false;
    if overwrite {
      var _ := tree.Remove(e.path, answers.removal);
    }
    if e.kind.Symlink? {
      ok := tree.CreateLink(SymbolicLink(e.linkTarget), e.path, answers.second);
    } else if Path(e.linkTarget) in tree.files {
      ok := tree.CreateLink(tree.files[Path(e.linkTarget)], e.path, answers.second);
    }
  }

  /** One link. When it overwrites, what stands at its path is removed first. */
  method RestoreLink(e: FileEntry, tree: Tree, overwrite: bool, answers: Answers, ghost h: Handle,
      ghost objects: Objects)
    returns (ok: bool)
    requires tree.Valid() && ValidEntry(e) && (e.kind.Symlink? || e.kind.Hardlink?)
    modifies tree
    ensures tree.Valid()
    ensures Leaves(h, objects, e, old(tree.files), old(tree.dirs), tree.files, tree.dirs, ok)
    ensures !ok ==> Fallen(h, objects, e, overwrite, answers, old(tree.files), tree.files)
    ensures tree.reliable ==>
              Exactly(h, objects, e, overwrite, answers, old(tree.files), old(tree.dirs), tree.files, ok)
  {
    hide ReadAll, IsWhole, IsBeginning, Ancestors, Chain, Sound, Occupied;
    ok := false;
    EntryIsRelative(e);
    ParentIsBelow(e.path);
    NotAboveItself(e.path);
    ghost var files, dirs := tree.files, tree.dirs;
    var made := tree.MkdirAll(Parent(e.path));
    if !made {
      if Path(e.path) in files {
        FilesAreFree(files, dirs, e.path);
      }
      return;
    }
    AtWithParents(files, dirs, e.path);
    ok := PlaceLink(e, tree, overwrite, answers);
  }

  /** One entry of a snapshot: a directory, a file or a link. */
  method RestoreEntry(r: Repository, e: FileEntry, tree: Tree, overwrite: bool, answers: Answers) returns (ok: bool)
    requires tree.Valid() && ValidEntry(e)
    modifies tree
    ensures tree.Valid()
    ensures Leaves(r.handle, r.store.objects, e, old(tree.files), old(tree.dirs), tree.files, tree.dirs, ok)
    ensures !ok ==> Fallen(r.handle, r.store.objects, e, overwrite, answers, old(tree.files), tree.files)
    ensures r.store.reliable && tree.reliable ==>
              Exactly(r.handle, r.store.objects, e, overwrite, answers, old(tree.files), old(tree.dirs), tree.files, ok)
  {
    hide ReadAll, IsWhole, IsBeginning, Ancestors, Chain, Sound, At;
    if e.kind.Directory? {
      EntryIsRelative(e);
      ok := tree.MkdirAll(e.path);
    } else if e.kind.File? {
      ok := RestoreRegular(r, e, tree, overwrite, answers);
    } else {
      ok := RestoreLink(e, tree, overwrite, answers, r.handle, r.store.objects);
    }
  }
}
