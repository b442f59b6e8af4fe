/**
 Deleting every key with a prefix, in batches. The iterator is a snapshot, renewed whenever a batch is written.
 */
module ClearPrefix {
  import opened Collections

  type Key = seq<int>

  datatype Value = Value(bytes: seq<int>)

  type Data = map<Key, Value>

  /** What is left without the keys that have the prefix. */
  function Cleared(d: Data, prefix: Key): Data {
    map k | k in d && !(prefix <= k) :: d[k]
  }

  function Prefixed(d: Data, prefix: Key): set<Key> {
    set k | k in d && prefix <= k
  }

  lemma ClearedByRemoving(d: Data, prefix: Key, keys: set<Key>)
    requires Prefixed(d, prefix) <= keys && forall k :: k in keys ==> prefix <= k
    ensures d - keys == Cleared(d, prefix)
  {
    assert (d - keys).Keys == Cleared(d, prefix).Keys;
  }

  /** The deletes and writes that fail, by number, and the iterators that stop with an error after so many keys. */
  datatype Faults = Faults(deletes: set<nat>, writes: set<nat>, stops: map<nat, nat>) {
    predicate Stopped(number: nat, yielded: nat) {
      number in stops && stops[number] <= yielded
    }
  }

  class Database {
    var data: Data

    constructor (d: Data)
      ensures data == d
    {
      data := d;
    }

    /** The keys with a prefix, each once. */
    method NewIteratorWithPrefix(prefix: Key) returns (keys: seq<Key>)
      ensures forall k :: k in keys <==> k in Prefixed(data, prefix)
      ensures |keys| == |Prefixed(data, prefix)|
    {
      keys := [];
      var left := Prefixed(data, prefix);
      ghost var all := left;
      while left != {}
        invariant left <= all && |keys| + |left| == |all|
        invariant forall k :: k in keys <==> k in all && k !in left
        decreases |left|
      {
        var k: Key :| k in left;
        left := left - {k};
        keys := keys + [k];
      }
    }

    method Write(batch: set<Key>, fails: bool) returns (ok: bool)
      modifies this
      ensures ok <==> !fails
      ensures data == if ok then old(data) - batch else old(data)
    {
      if fails {
        return false;
      }
      data := data - batch;
      return true;
    }

    /** Clears exactly the prefix, whatever the write size, if nothing fails; otherwise it may stop half way. */
    method ClearPrefix(prefix: Key, writeSize: int, sizeOf: Key -> nat, faults: Faults) returns (ok: bool)
      modifies this
      ensures ok ==> data == Cleared(old(data), prefix)
      ensures ok ==> forall k :: k in data <==> k in old(data) && !(prefix <= k)
      ensures forall k :: k in old(data) && !(prefix <= k) ==> k in data
      ensures faults == Faults({}, {}, map[]) ==> ok
      ensures Cleared(data, prefix) == Cleared(old(data), prefix)
      ensures forall k :: k in data ==> k in old(data) && data[k] == old(data)[k]
    {
      var batch: set<Key>, size, deletes, writes, iterators := {}, 0, 0, 0, 0;
      var it := NewIteratorWithPrefix(prefix);
      var next := 0;
      RemovedNone(data, prefix);
      while next < |it| && !faults.Stopped(iterators, next)
        invariant next <= |it| && forall k :: k in batch ==> prefix <= k
        invariant forall k :: k in Prefixed(data, prefix) ==> k in batch || k in it[next..]
        invariant forall k :: k in it[next..] ==> k in Prefixed(data, prefix)
        invariant Removed(old(data), data, prefix) && Cleared(data, prefix) == Cleared(old(data), prefix)
        decreases |Prefixed(data, prefix)|, |it| - next
      {
        var key := it[next];
        assert key in it[next..];
        if deletes in faults.deletes {
          return false;
        }
        deletes := deletes + 1;
        batch, size, next := batch + {key}, size + sizeOf(key), next + 1;
        if size < writeSize {
          continue;
        }
        RemovedMore(old(data), data, prefix, batch);
        FewerPrefixed(data, prefix, batch, key);
        var written := Write(batch, writes in faults.writes);
        if !written {
          return false;
        }
        writes := writes + 1;
        batch, size := {}, 0;
        if faults.Stopped(iterators, next) {
          return false;
        }
        it := NewIteratorWithPrefix(prefix);
        iterators, next := iterators + 1, 0;
        assert it[0..] == it;
      }
      RemovedMore(old(data), data, prefix, batch);
      if !faults.Stopped(iterators, next) {
        ClearedByRemoving(data, prefix, batch);
      }
      ok := Write(batch, writes in faults.writes);
      return ok && !faults.Stopped(iterators, next);
    }
  }

  /** Only keys with the prefix are gone. */
  ghost predicate Removed(before: Data, after: Data, prefix: Key) {
    && (forall k :: k in after ==> k in before && after[k] == before[k])
    && (forall k :: k in before && !(prefix <= k) ==> k in after)
  }

  lemma RemovedNone(d: Data, prefix: Key)
    ensures Removed(d, d, prefix)
  {
  }

  lemma RemovedIsCleared(before: Data, after: Data, prefix: Key)
    requires Removed(before, after, prefix)
    ensures Cleared(after, prefix) == Cleared(before, prefix)
  {
    assert Cleared(after, prefix).Keys == Cleared(before, prefix).Keys;
  }

  lemma RemovedMore(before: Data, after: Data, prefix: Key, batch: set<Key>)
    requires Removed(before, after, prefix) && forall k :: k in batch ==> prefix <= k
    ensures Removed(before, after - batch, prefix)
    ensures Cleared(after, prefix) == Cleared(before, prefix) == Cleared(after - batch, prefix)
  {
    RemovedIsCleared(before, after, prefix);
    RemovedIsCleared(before, after - batch, prefix);
  }

  lemma FewerPrefixed(d: Data, prefix: Key, batch: set<Key>, key: Key)
    requires key in batch && key in Prefixed(d, prefix)
    ensures |Prefixed(d - batch, prefix)| < |Prefixed(d, prefix)|
  {
    var less := Prefixed(d - batch, prefix);
    assert less <= Prefixed(d, prefix) - {key};
    SubsetCount(less, Prefixed(d, prefix) - {key});
  }
}
