/** The flat key map of `storage/memory_backend.py`. A write that a remote backend could refuse
    carries a flag saying whether it raises. */
module MemoryBackends {
  import opened Collections
  import opened ObjectTypes
  import opened Sorting
  import opened Text
  import opened Wrappers

  class MemoryBackend {
    var objects: map<string, Blob>

    constructor ()
      ensures objects == map[]
    {
      objects := map[];
    }

    method Put(key: string, data: Blob, fails: bool) returns (written: bool)
      modifies this
      ensures written == !fails
      ensures objects == if fails then old(objects) else old(objects)[key := data]
    {
      if fails {
        return false;
      }
      objects := objects[key := data];
      return true;
    }

    method Get(key: string) returns (data: Option<Blob>)
      ensures data == if key in objects then Some(objects[key]) else None
    {
      data := if key in objects then Some(objects[key]) else None;
    }

    method Delete(key: string) returns (existed: bool)
      modifies this
      ensures objects == old(objects) - {key}
      ensures existed <==> key in old(objects)
    {
      existed := key in objects;
      objects := objects - {key};
    }

    method DeleteMany(keys: seq<string>) returns (count: nat)
      modifies this
      ensures objects == old(objects) - ToSet(keys)
      ensures count == |ToSet(keys) * old(objects).Keys|
    {
      hide Left, Found;
      count := 0;
      ghost var start := objects;
      NoneDeleted(start);
      for i := 0 to |keys|
        invariant objects == Left(start, keys[..i]) && count == Found(start, keys[..i])
      {
        assert keys[..i + 1] == keys[..i] + [keys[i]];
        OneMoreDeleted(start, keys[..i], keys[i]);
        var existed := Delete(keys[i]);
        if existed {
          count := count + 1;
        }
      }
      assert keys[..|keys|] == keys;
      AllDeleted(start, keys);
    }

    static ghost function Left(objects: map<string, Blob>, keys: seq<string>): map<string, Blob> { objects - ToSet(keys) }

    static ghost function Found(objects: map<string, Blob>, keys: seq<string>): nat { |ToSet(keys) * objects.Keys| }

    static lemma NoneDeleted(objects: map<string, Blob>)
      ensures Left(objects, []) == objects && Found(objects, []) == 0
    {
      assert ToSet<string>([]) == {};
    }

    static lemma AllDeleted(objects: map<string, Blob>, keys: seq<string>)
      ensures Left(objects, keys) == objects - ToSet(keys) && Found(objects, keys) == |ToSet(keys) * objects.Keys|
    {
    }

    /** A key counts the first time it is deleted, if it was there. */
    static lemma OneMoreDeleted(objects: map<string, Blob>, keys: seq<string>, key: string)
      ensures Left(objects, keys + [key]) == Left(objects, keys) - {key}
      ensures Found(objects, keys + [key]) == Found(objects, keys) + if key in Left(objects, keys) then 1 else 0
    {
      ToSetSnoc(keys, key);
      hide ToSet;
      OneMoreFound(ToSet(keys), key, objects.Keys);
      OneMoreGone(objects, ToSet(keys), key);
    }

    static lemma OneMoreGone(objects: map<string, Blob>, done: set<string>, key: string)
      ensures objects - (done + {key}) == objects - done - {key}
    {
    }

    static lemma OneMoreFound(done: set<string>, key: string, stored: set<string>)
      ensures |(done + {key}) * stored| == |done * stored| + if key in stored - done then 1 else 0
    {
      if key in stored - done {
        assert (done + {key}) * stored == done * stored + {key};
      } else {
        assert (done + {key}) * stored == done * stored;
      }
    }

    method ListKeys(prefix: string) returns (keys: seq<string>)
      ensures IsListing(keys, (set key | key in objects && prefix <= key), StrLe)
    {
      StrLeIsTotalOrder();
      keys := SortSet((set key | key in objects && prefix <= key), StrLe);
    }
  }
}
