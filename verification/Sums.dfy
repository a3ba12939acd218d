/** Sums over finite sets, and the physical size of a store. */
module Sums {
  import opened Model

  ghost function Sum<T(!new)>(s: set<T>, f: T -> nat): nat {
    if s == {} then 0 else var x :| x in s; f(x) + Sum(s - {x}, f)
  }

  /** Any element may be taken out first. */
  lemma {:induction false} SumTake<T(!new)>(s: set<T>, f: T -> nat, x: T)
    requires x in s
    ensures Sum(s, f) == f(x) + Sum(s - {x}, f)
    decreases s
  {
    var y :| y in s && Sum(s, f) == f(y) + Sum(s - {y}, f);
    if y != x {
      SumTake(s - {y}, f, x);
      SumTake(s - {x}, f, y);
      assert s - {y} - {x} == s - {x} - {y};
    }
  }

  lemma {:induction false} SumSame<T(!new)>(s: set<T>, f: T -> nat, g: T -> nat)
    requires forall x :: x in s ==> f(x) == g(x)
    ensures Sum(s, f) == Sum(s, g)
    decreases s
  {
    if s != {} {
      var x :| x in s;
      SumSame(s - {x}, f, g);
      SumTake(s, f, x);
      SumTake(s, g, x);
    }
  }

  lemma {:induction false} SumSplit<T(!new)>(s: set<T>, t: set<T>, f: T -> nat)
    requires t <= s
    ensures Sum(s, f) == Sum(t, f) + Sum(s - t, f)
    decreases t
  {
    if t == {} {
      assert s - t == s;
    } else {
      var x :| x in t;
      SumSplit(s - {x}, t - {x}, f);
      SumTake(s, f, x);
      SumTake(t, f, x);
      assert s - {x} - (t - {x}) == s - t;
    }
  }

  /* ---- stored bytes ---- */

  function ChunkKeys(objects: Objects): set<ObjKey> {
    set k | k in objects && k.ChunkKey?
  }

  ghost function SizeIn(objects: Objects): ObjKey -> nat {
    k => if k in objects then Size(objects[k].content) else 0
  }

  /** What `Stats` reports: the stored bytes of every object under chunks/. */
  ghost function PhysicalBytes(objects: Objects): nat {
    Sum(ChunkKeys(objects), SizeIn(objects))
  }

  /** A new chunk object adds one key and its own size. */
  lemma NewChunkAdds(objects: Objects, k: ObjKey, o: Object)
    requires k.ChunkKey? && k !in objects
    ensures ChunkKeys(objects[k := o]) == ChunkKeys(objects) + {k}
    ensures |ChunkKeys(objects[k := o])| == |ChunkKeys(objects)| + 1
    ensures PhysicalBytes(objects[k := o]) == PhysicalBytes(objects) + Size(o.content)
  {
    var after := objects[k := o];
    assert ChunkKeys(after) == ChunkKeys(objects) + {k};
    SumTake(ChunkKeys(after), SizeIn(after), k);
    assert ChunkKeys(after) - {k} == ChunkKeys(objects);
    SumSame(ChunkKeys(objects), SizeIn(after), SizeIn(objects));
  }

  /** Removing chunk objects takes away exactly their sizes. */
  lemma RemovedChunksSubtract(objects: Objects, gone: set<ObjKey>)
    requires gone <= ChunkKeys(objects)
    ensures ChunkKeys(objects - gone) == ChunkKeys(objects) - gone
    ensures PhysicalBytes(objects) == PhysicalBytes(objects - gone) + Sum(gone, SizeIn(objects))
  {
    var rest := ChunkKeys(objects) - gone;
    assert ChunkKeys(objects - gone) == rest;
    SumSplit(ChunkKeys(objects), gone, SizeIn(objects));
    SumSame(rest, SizeIn(objects), SizeIn(objects - gone));
  }
}
