/** The object store one command works on, and the writer lock as one command
    sees it when nobody interferes. Any operation may fail; a failing write may
    or may not have taken effect. */
module Store {
  import opened Model

  datatype StoreError = Missing | AlreadyThere | Changed | Unavailable

  datatype Answer<+T> = Done(value: T) | Refused(error: StoreError)

  datatype Prefix = Chunks | Snapshots

  predicate Under(p: Prefix, k: ObjKey) {
    match p
    case Chunks => k.ChunkKey?
    case Snapshots => k.ManifestKey?
  }

  datatype Listed = Listed(key: ObjKey, size: nat)

  /** What `List` returns: every object under the prefix once, in some order. */
  ghost predicate IsListing(objects: Objects, p: Prefix, list: seq<Listed>) {
    && (forall l :: l in list ==> l.key in objects && Under(p, l.key) && l.size == Size(objects[l.key].content))
    && (forall k :: k in objects && Under(p, k) ==> exists i :: 0 <= i < |list| && list[i].key == k)
    && (forall i, j :: 0 <= i < j < |list| ==> list[i].key != list[j].key)
  }

  class ObjectStore {
    var objects: Objects
    var clock: nat
    const reliable: bool

    ghost predicate Valid()
      reads this
    {
      forall k :: k in objects ==> objects[k].version < clock
    }

    constructor (dependable: bool)
      ensures Valid() && objects == map[] && reliable == dependable
    {
      objects, clock, reliable := map[], 0, dependable;
    }

    /** Whether the next operation fails. */
    method Fails() returns (f: bool)
      ensures reliable ==> !f
    {
      f := *;
      if reliable {
        f := false;
      }
    }

    method Get(k: ObjKey) returns (a: Answer<Object>)
      ensures a.Done? ==> k in objects && a.value == objects[k]
      ensures a.Refused? ==> (a.error.Missing? && k !in objects) || (a.error.Unavailable? && !reliable)
    {
      var f := Fails();
      if f {
        return Refused(Unavailable);
      }
      return if k in objects then Done(objects[k]) else Refused(Missing);
    }

    method PutIfAbsent(k: ObjKey, c: Content) returns (a: Answer<nat>)
      requires Valid()
      modifies this
      ensures Valid() && clock >= old(clock)
      ensures a.Done? ==>
                k !in old(objects) && a.value == old(clock) && objects == old(objects)[k := Object(c, a.value)]
      ensures a.Refused? && a.error.AlreadyThere? ==> k in old(objects)
      ensures a.Refused? ==> a.error.AlreadyThere? || (a.error.Unavailable? && !reliable)
      ensures a.Refused? ==>
                || objects == old(objects)
                || (a.error.Unavailable? && k !in old(objects) && objects == old(objects)[k := Object(c, old(clock))])
    {
      if k in objects {
        return Refused(AlreadyThere);
      }
      var f := Fails();
      var late: bool := *;
      if f && !late {
        return Refused(Unavailable);
      }
      objects := objects[k := Object(c, clock)];
      clock := clock + 1;
      return if f then Refused(Unavailable) else Done(clock - 1);
    }

    method ReplaceIfVersion(k: ObjKey, c: Content, version: nat) returns (a: Answer<nat>)
      requires Valid()
      modifies this
      ensures Valid() && clock >= old(clock)
      ensures a.Done? ==>
                && k in old(objects) && old(objects)[k].version == version
                && objects == old(objects)[k := Object(c, a.value)]
      ensures a.Refused? && a.error.Missing? ==> k !in old(objects)
      ensures a.Refused? && a.error.Changed? ==> k in old(objects) && old(objects)[k].version != version
      ensures a.Refused? ==> a.error.Missing? || a.error.Changed? || (a.error.Unavailable? && !reliable)
      ensures a.Refused? ==>
                || objects == old(objects)
                || (a.error.Unavailable? && k in old(objects) && objects == old(objects)[k := Object(c, old(clock))])
    {
      if k !in objects {
        return Refused(Missing);
      }
      if objects[k].version != version {
        return Refused(Changed);
      }
      var f := Fails();
      var late: bool := *;
      if f && !late {
        return Refused(Unavailable);
      }
      objects := objects[k := Object(c, clock)];
      clock := clock + 1;
      return if f then Refused(Unavailable) else Done(clock - 1);
    }

    method DeleteIfVersion(k: ObjKey, version: nat) returns (a: Answer<()>)
      requires Valid()
      modifies this
      ensures Valid() && clock == old(clock)
      ensures a.Done? ==> k in old(objects) && old(objects)[k].version == version && objects == old(objects) - {k}
      ensures a.Refused? && a.error.Missing? ==> k !in old(objects)
      ensures a.Refused? && a.error.Changed? ==> k in old(objects) && old(objects)[k].version != version
      ensures a.Refused? ==> a.error.Missing? || a.error.Changed? || (a.error.Unavailable? && !reliable)
      ensures a.Refused? ==>
                || objects == old(objects)
                || (&& a.error.Unavailable? && k in old(objects) && old(objects)[k].version == version
                    && objects == old(objects) - {k})
    {
      if k !in objects {
        return Refused(Missing);
      }
      if objects[k].version != version {
        return Refused(Changed);
      }
      a := Delete(k);
    }

    method Delete(k: ObjKey) returns (a: Answer<()>)
      requires Valid()
      modifies this
      ensures Valid() && clock == old(clock)
      ensures a.Done? ==> k in old(objects) && objects == old(objects) - {k}
      ensures a.Refused? ==> (a.error.Missing? && k !in old(objects)) || (a.error.Unavailable? && !reliable)
      ensures a.Refused? ==> objects == old(objects) || (a.error.Unavailable? && objects == old(objects) - {k})
    {
      if k !in objects {
        return Refused(Missing);
      }
      var f := Fails();
      var late: bool := *;
      if f && !late {
        return Refused(Unavailable);
      }
      objects := objects - {k};
      return if f then Refused(Unavailable) else Done(());
    }

    method List(p: Prefix) returns (a: Answer<seq<Listed>>)
      ensures a.Done? ==> IsListing(objects, p, a.value)
      ensures a.Refused? ==> a.error.Unavailable? && !reliable
    {
      var f := Fails();
      if f {
        return Refused(Unavailable);
      }
      var rest := set k | k in objects && Under(p, k);
      var list: seq<Listed> := [];
      while rest != {}
        invariant rest <= objects.Keys
        invariant forall k :: k in rest ==> Under(p, k) && forall i :: 0 <= i < |list| ==> list[i].key != k
        invariant forall l :: l in list ==>
                    l.key in objects && Under(p, l.key) && l.size == Size(objects[l.key].content)
        invariant forall k :: k in objects && Under(p, k) ==>
                    k in rest || exists i :: 0 <= i < |list| && list[i].key == k
        invariant forall i, j :: 0 <= i < j < |list| ==> list[i].key != list[j].key
        decreases |rest|
      {
        var k :| k in rest;
        ghost var before := list;
        list := list + [Listed(k, Size(objects[k].content))];
        rest := rest - {k};
        assert forall i :: 0 <= i < |before| ==> list[i] == before[i];
        assert list[|before|].key == k;
      }
      return Done(list);
    }
  }

  /* ---- the lock, one command at a time ---- */

  /** `lockDataIsStale`; None is a lock whose time does not parse. */
  function IsStale(lock: LockInfo, now: int, maxAge: int): Option<bool> {
    match lock.created
    case None => None
    case Some(t) => Some(now - t > maxAge)
  }

  /** The store apart from its lock. */
  function Unlocked(objects: Objects): Objects {
    objects - {LockKey}
  }

  /** `acquireWriteLock` without interference: it succeeds only where there was
      no lock or a stale one it was allowed to recover, and touches nothing else. */
  method AcquireWriteLock(store: ObjectStore, info: LockInfo, now: int, staleAfter: int) returns (version: Option<nat>)
    requires store.Valid()
    modifies store
    ensures store.Valid() && Unlocked(store.objects) == old(Unlocked(store.objects))
    ensures version.Some? ==>
              LockKey in store.objects && store.objects[LockKey] == Object(LockContent(info), version.value)
    ensures version.Some? && LockKey in old(store.objects) ==>
              && staleAfter > 0
              && old(store.objects)[LockKey].content.LockContent?
              && IsStale(old(store.objects)[LockKey].content.lock, now, staleAfter) == Some(true)
    ensures staleAfter <= 0 && LockKey in old(store.objects) ==> store.objects == old(store.objects)
    ensures store.reliable && LockKey !in old(store.objects) ==> version.Some?
    ensures store.reliable && LockKey in old(store.objects) && old(store.objects)[LockKey].content.LockContent? ==>
              (version.Some? <==>
               staleAfter > 0 && IsStale(old(store.objects)[LockKey].content.lock, now, staleAfter) == Some(true))
  {
    version := None;
    for attempt := 0 to 2
      invariant store.Valid() && Unlocked(store.objects) == old(Unlocked(store.objects)) && version == None
      invariant attempt == 0 ==> store.objects == old(store.objects)
      invariant store.reliable ==> attempt < 2 && (attempt == 1 ==> LockKey !in store.objects)
      invariant attempt > 0 ==>
                  && LockKey in old(store.objects) && staleAfter > 0
                  && old(store.objects)[LockKey].content.LockContent?
                  && IsStale(old(store.objects)[LockKey].content.lock, now, staleAfter) == Some(true)
    {
      var put := store.PutIfAbsent(LockKey, LockContent(info));
      if put.Done? {
        return Some(put.value);
      }
      if !put.error.AlreadyThere? || staleAfter <= 0 {
        return None;
      }
      var got := store.Get(LockKey);
      if got.Refused? {
        if got.error.Missing? {
          continue;
        }
        return None;
      }
      if !got.value.content.LockContent? {
        return None;
      }
      var stale := IsStale(got.value.content.lock, now, staleAfter);
      if stale != Some(true) {
        return None;
      }
      var removed := store.DeleteIfVersion(LockKey, got.value.version);
      if removed.Refused? && !removed.error.Changed? && !removed.error.Missing? {
        return None;
      }
    }
  }

  /** `release`: removes the lock if it is still this one. */
  method ReleaseLock(store: ObjectStore, version: nat)
    requires store.Valid()
    modifies store
    ensures store.Valid() && Unlocked(store.objects) == old(Unlocked(store.objects))
    ensures LockKey in old(store.objects) && old(store.objects)[LockKey].version != version ==>
              store.objects == old(store.objects)
    ensures store.reliable && LockKey in old(store.objects) && old(store.objects)[LockKey].version == version ==>
              LockKey !in store.objects
  {
    var _ := store.DeleteIfVersion(LockKey, version);
  }
}
