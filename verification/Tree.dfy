/** The destination of a restore: regular files, symbolic links and directories, and
    the file system operations on them. */
module Tree {
  import opened Chunker
  import opened Model

  /* ---- paths ---- */

  /** The directories above a slash-separated path. */
  function Ancestors(p: string): set<string> {
    set i | 0 < i < |p| && p[i] == '/' :: p[..i]
  }

  /** A directory and all above it; the empty string is the destination itself. */
  function Chain(dir: string): set<string> {
    if dir == "" then {} else Ancestors(dir) + {dir}
  }

  /** `filepath.Dir`. */
  function Parent(p: string): string {
    if p == "" then "" else
      var front := p[..|p| - 1];
      if p[|p| - 1] == '/' then front else Parent(front)
  }

  predicate Relative(p: string) {
    p == "" || p[0] != '/'
  }

  lemma AncestorsSnoc(q: string, c: char)
    ensures Ancestors(q + [c]) == Ancestors(q) + if c == '/' && q != "" then {q} else {}
  {
    var p := q + [c];
    assert p[..|q|] == q;
    forall a | a in Ancestors(p)
      ensures a in Ancestors(q) + if c == '/' && q != "" then {q} else {}
    {
      var i :| 0 < i < |p| && p[i] == '/' && p[..i] == a;
      if i < |q| {
        assert q[..i] == a && q[i] == '/';
      }
    }
    forall a | a in Ancestors(q)
      ensures a in Ancestors(p)
    {
      var i :| 0 < i < |q| && q[i] == '/' && q[..i] == a;
      assert p[..i] == a && p[i] == '/';
    }
    if c == '/' && q != "" {
      assert p[|q|] == '/';
    }
  }

  lemma {:induction false} ParentIsBelow(p: string)
    requires Relative(p)
    ensures Relative(Parent(p)) && Chain(Parent(p)) == Ancestors(p)
  {
    if p != "" {
      var front, last := p[..|p| - 1], p[|p| - 1];
      assert p == front + [last];
      AncestorsSnoc(front, last);
      if last != '/' {
        ParentIsBelow(front);
      }
    }
  }

  /** What is above an ancestor is above the path. */
  lemma AncestorsNest(p: string, a: string)
    requires a in Ancestors(p)
    ensures Ancestors(a) <= Ancestors(p) && a != p && p !in Ancestors(a) && a !in Ancestors(a)
  {
    var i :| 0 < i < |p| && p[i] == '/' && p[..i] == a;
    forall b | b in Ancestors(a)
      ensures b in Ancestors(p) && |b| < |a|
    {
      var k :| 0 < k < |a| && a[k] == '/' && a[..k] == b;
      assert p[..k] == b && p[k] == '/';
    }
  }

  lemma NotAboveItself(p: string)
    ensures p !in Ancestors(p)
  {}

  /* ---- what stands where ---- */

  datatype Name = Path(path: string) | Temp(dir: string, n: nat)

  datatype Node = Data(bytes: Bytes) | SymbolicLink(target: string)

  type Files = map<Name, Node>

  /** The directories a name lies in. */
  function DirsOf(name: Name): set<string> {
    match name
    case Path(p) => Ancestors(p)
    case Temp(dir, _) => Chain(dir)
  }

  /** Nothing is both a file and a directory, and everything lies in directories. */
  ghost predicate Sound(files: Files, dirs: set<string>) {
    && (forall p: string :: Path(p) in files ==> p !in dirs)
    && (forall name :: name in files ==> DirsOf(name) <= dirs)
    && (forall d :: d in dirs ==> Ancestors(d) <= dirs)
  }

  /** Something lies in the directory. */
  predicate Occupied(files: Files, dirs: set<string>, p: string) {
    (exists name :: name in files && p in DirsOf(name)) || (exists d :: d in dirs && p in Ancestors(d))
  }

  datatype Standing = Nothing | Leaf | EmptyDirectory | FullDirectory

  function At(files: Files, dirs: set<string>, p: string): Standing {
    if Path(p) in files then Leaf
    else if p !in dirs then Nothing
    else if Occupied(files, dirs, p) then FullDirectory
    else EmptyDirectory
  }

  /** No file stands where one of these directories is needed. */
  ghost predicate Free(files: Files, needed: set<string>) {
    forall a :: a in needed ==> Path(a) !in files
  }

  lemma PutIsSound(files: Files, dirs: set<string>, name: Name, node: Node)
    requires Sound(files, dirs) && DirsOf(name) <= dirs && (name.Path? ==> name.path !in dirs)
    ensures Sound(files[name := node], dirs)
  {
    hide DirsOf, Ancestors;
  }

  lemma RemoveIsSound(files: Files, dirs: set<string>, p: string)
    requires Sound(files, dirs) && !Occupied(files, dirs, p)
    ensures Sound(files - {Path(p)}, dirs - {p})
  {
    hide DirsOf, Ancestors;
  }

  lemma DropIsSound(files: Files, dirs: set<string>, name: Name)
    requires Sound(files, dirs)
    ensures Sound(files - {name}, dirs)
  {
    hide DirsOf, Ancestors;
  }

  lemma DirIsSound(files: Files, dirs: set<string>, d: string)
    requires Sound(files, dirs) && Ancestors(d) <= dirs && Path(d) !in files
    ensures Sound(files, dirs + {d})
  {
    hide DirsOf, Ancestors;
  }

  /** Nothing lies in a file. */
  lemma LeafIsBare(files: Files, dirs: set<string>, p: string)
    requires Sound(files, dirs) && Path(p) in files
    ensures !Occupied(files, dirs, p)
  {
    hide DirsOf, Ancestors;
  }

  lemma {:induction false} FreshTemp(dir: string, names: set<Name>) returns (n: nat)
    ensures forall k: nat :: Temp(dir, k) in names ==> k < n
    decreases names
  {
    n := 0;
    if names != {} {
      var x :| x in names;
      n := FreshTemp(dir, names - {x});
      assert forall k: nat :: Temp(dir, k) in names ==> Temp(dir, k) == x || Temp(dir, k) in names - {x};
      if x.Temp? && x.n >= n {
        n := x.n + 1;
      }
    }
  }

  /** The directories down to the first i characters of a path. */
  function ChainUpTo(dir: string, i: nat): set<string> {
    set k | 0 < k < i && k <= |dir| && (k == |dir| || dir[k] == '/') :: dir[..k]
  }

  lemma ChainIsUpTo(dir: string)
    ensures Chain(dir) == ChainUpTo(dir, |dir| + 1)
  {
    assert dir[..|dir|] == dir;
  }

  lemma ChainNext(dir: string, i: nat)
    requires 0 < i <= |dir|
    ensures ChainUpTo(dir, i + 1) == ChainUpTo(dir, i) + if i == |dir| || dir[i] == '/' then {dir[..i]} else {}
    ensures Ancestors(dir[..i]) <= ChainUpTo(dir, i) && ChainUpTo(dir, i) <= Chain(dir)
    ensures i == |dir| || dir[i] == '/' ==> dir[..i] in Chain(dir)
  {
    ChainIsUpTo(dir);
    forall a | a in Ancestors(dir[..i])
      ensures a in ChainUpTo(dir, i)
    {
      var k :| 0 < k < i && dir[..i][k] == '/' && dir[..i][..k] == a;
      assert dir[..k] == a && dir[k] == '/';
    }
  }

  /** A directory tree. A file system that is reliable refuses nothing but what the
      operations say; renames, removals of old files and links get their answers
      from outside. */
  class Tree {
    var files: Files
    var dirs: set<string>
    const reliable: bool

    ghost predicate Valid()
      reads this
    {
      Sound(files, dirs)
    }

    constructor (content: Files, directories: set<string>, dependable: bool)
      requires Sound(content, directories)
      ensures Valid() && files == content && dirs == directories && reliable == dependable
    {
      files, dirs, reliable := content, directories, dependable;
    }

    method Fails() returns (f: bool)
      ensures reliable ==> !f
    {
      f := *;
      if reliable {
        f := false;
      }
    }

    /** `os.MkdirAll`. */
    method MkdirAll(dir: string) returns (ok: bool)
      requires Valid() && Relative(dir)
      modifies this`dirs
      ensures Valid()
      ensures ok ==> dirs == old(dirs) + Chain(dir)
      ensures !ok ==> old(dirs) <= dirs <= old(dirs) + Chain(dir)
      ensures ok ==> Free(files, Chain(dir))
      ensures reliable ==> (ok <==> Free(files, Chain(dir)))
    {
      hide Ancestors, Sound, Chain, ChainUpTo;
      ChainIsUpTo(dir);
      var i := 1;
      ChainStarts(dir);
      while i <= |dir|
        invariant 1 <= i <= |dir| + 1
        invariant Valid() && dirs == old(dirs) + ChainUpTo(dir, i) && ChainUpTo(dir, i) <= Chain(dir)
        invariant Free(files, ChainUpTo(dir, i))
      {
        ChainNext(dir, i);
        if i == |dir| || dir[i] == '/' {
          if Path(dir[..i]) in files {
            return false;
          }
          if dir[..i] !in dirs {
            var f := Fails();
            if f {
              return false;
            }
            DirIsSound(files, dirs, dir[..i]);
            dirs := dirs + {dir[..i]};
          }
        }
        i := i + 1;
      }
      ok := true;
    }

    method CreateTemp(dir: string) returns (t: Option<nat>)
      requires Valid() && Chain(dir) <= dirs
      modifies this`files
      ensures Valid()
      ensures t.Some? ==> Temp(dir, t.value) !in old(files) && files == old(files)[Temp(dir, t.value) := Data([])]
      ensures t.None? ==> files == old(files) && !reliable
    {
      var f := Fails();
      if f {
        return None;
      }
      ghost var above := FreshTemp(dir, files.Keys);
      assert Temp(dir, above) !in files;
      var n: nat :| Temp(dir, n) !in files;
      PutIsSound(files, dirs, Temp(dir, n), Data([]));
      files := files[Temp(dir, n) := Data([])];
      return Some(n);
    }

    /** O_CREATE and O_EXCL. */
    method CreateExclusive(path: string) returns (ok: bool)
      requires Valid() && Ancestors(path) <= dirs
      modifies this`files
      ensures Valid()
      ensures ok ==> At(old(files), dirs, path).Nothing? && files == old(files)[Path(path) := Data([])]
      ensures !ok ==> files == old(files) && (reliable ==> !At(files, dirs, path).Nothing?)
    {
      var f := Fails();
      if f || Path(path) in files || path in dirs {
        return false;
      }
      PutIsSound(files, dirs, Path(path), Data([]));
      files := files[Path(path) := Data([])];
      return true;
    }

    /** A write to a file is complete unless it reports an error. */
    method Append(name: Name, data: Bytes) returns (n: nat, failed: bool)
      requires Valid() && name in files && files[name].Data?
      modifies this`files
      ensures Valid()
      ensures n <= |data| && (!failed ==> n == |data|) && (reliable ==> !failed)
      ensures files == old(files)[name := Data(old(files)[name].bytes + data[..n])]
    {
      failed := Fails();
      n := |data|;
      if failed {
        n :| n <= |data|;
      }
      PutIsSound(files, dirs, name, Data(files[name].bytes + data[..n]));
      files := files[name := Data(files[name].bytes + data[..n])];
    }

    /** Removes a temporary file. */
    method Discard(name: Name, permitted: bool)
      requires Valid() && name.Temp?
      modifies this`files
      ensures Valid()
      ensures files == if permitted then old(files) - {name} else old(files)
    {
      if permitted {
        DropIsSound(files, dirs, name);
        files := files - {name};
      }
    }

    /** `os.Remove`: a file, or a directory that is empty. */
    method Remove(path: string, permitted: bool) returns (ok: bool)
      requires Valid()
      modifies this
      ensures Valid()
      ensures var at := At(old(files), old(dirs), path);
              && (ok <==> permitted && (at.Leaf? || at.EmptyDirectory?))
              && files == (if ok then old(files) - {Path(path)} else old(files))
              && dirs == (if ok then old(dirs) - {path} else old(dirs))
    {
      if !permitted || (Path(path) !in files && path !in dirs) || (path in dirs && Occupied(files, dirs, path)) {
        return false;
      }
      if Path(path) in files {
        LeafIsBare(files, dirs, path);
      }
      RemoveIsSound(files, dirs, path);
      files, dirs := files - {Path(path)}, dirs - {path};
      return true;
    }

    /** `os.Rename` of a temporary file, which replaces a file but no directory. */
    method Rename(source: Name, path: string, permitted: bool) returns (ok: bool)
      requires Valid() && source in files && source.Temp? && Ancestors(path) <= dirs
      modifies this`files
      ensures Valid()
      ensures ok <==> permitted && path !in dirs
      ensures files == if ok then (old(files) - {source})[Path(path) := old(files)[source]] else old(files)
    {
      if !permitted || path in dirs {
        return false;
      }
      var node := files[source];
      DropIsSound(files, dirs, source);
      PutIsSound(files - {source}, dirs, Path(path), node);
      files := (files - {source})[Path(path) := node];
      return true;
    }

    /** `os.Symlink`, and `os.Link` with the node of its target. */
    method CreateLink(node: Node, path: string, permitted: bool) returns (ok: bool)
      requires Valid() && Ancestors(path) <= dirs
      modifies this`files
      ensures Valid()
      ensures ok <==> permitted && At(old(files), dirs, path).Nothing?
      ensures files == if ok then old(files)[Path(path) := node] else old(files)
    {
      if !permitted || Path(path) in files || path in dirs {
        return false;
      }
      PutIsSound(files, dirs, Path(path), node);
      files := files[Path(path) := node];
      return true;
    }
  }

  lemma ChainStarts(dir: string)
    ensures ChainUpTo(dir, 1) == {}
  {}
}
