/** A set of peers with at most one per node: a slice, and the index of each node in it. */
module PeerSets {
  import opened Wrappers
  import opened IPTrackerModel
  import opened NetworkModel

  /** The index map and the slice are inverses of each other. */
  ghost predicate Inverse(index: map<NodeID, nat>, slice: seq<Peer>) {
    && (forall n :: n in index ==> index[n] < |slice| && slice[index[n]].node == n)
    && (forall i :: 0 <= i < |slice| ==> slice[i].node in index && index[slice[i].node] == i)
  }

  ghost function Listed(index: map<NodeID, nat>, slice: seq<Peer>): map<NodeID, Peer>
    requires Inverse(index, slice)
  {
    map n | n in index :: slice[index[n]]
  }

  lemma Appends(index: map<NodeID, nat>, slice: seq<Peer>, p: Peer)
    requires Inverse(index, slice) && p.node !in index
    ensures Inverse(index[p.node := |slice|], slice + [p])
    ensures Listed(index[p.node := |slice|], slice + [p]) == Listed(index, slice)[p.node := p]
  {
  }

  lemma Overwrites(index: map<NodeID, nat>, slice: seq<Peer>, p: Peer)
    requires Inverse(index, slice) && p.node in index
    ensures Inverse(index, slice[index[p.node] := p])
    ensures Listed(index, slice[index[p.node] := p]) == Listed(index, slice)[p.node := p]
  {
    assert Listed(index, slice).Keys == index.Keys;
  }

  /** Moving the last peer into the slot of the removed one, and dropping the last slot. */
  lemma Swaps(index: map<NodeID, nat>, slice: seq<Peer>, n: NodeID, last: Peer)
    requires Inverse(index, slice) && n in index && last == slice[|slice| - 1]
    ensures var index1 := index[last.node := index[n]] - {n};
      var slice1 := slice[index[n] := last][..|slice| - 1];
      Inverse(index1, slice1) && Listed(index1, slice1) == Listed(index, slice) - {n}
  {
    var index1 := index[last.node := index[n]] - {n};
    var slice1 := slice[index[n] := last][..|slice| - 1];
    assert last.node in index;
    forall i | 0 <= i < |slice1|
      ensures slice1[i].node in index1 && index1[slice1[i].node] == i
    {
      assert slice1[i] == if i == index[n] then last else slice[i];
      assert slice[i].node in index && index[slice[i].node] == i;
    }
  }

  /** The slice holds exactly the listed peers. */
  lemma SliceHoldsListed(index: map<NodeID, nat>, slice: seq<Peer>)
    requires Inverse(index, slice)
    ensures Listed(index, slice).Values == set p | p in slice
  {
    var listed := Listed(index, slice);
    forall p | p in slice
      ensures p in listed.Values
    {
      var i :| 0 <= i < |slice| && slice[i] == p;
      assert p.node in listed && listed[p.node] == p;
    }
  }

  class PeerSet {
    var peersMap: map<NodeID, nat>
    var peersSlice: seq<Peer>

    ghost predicate Valid()
      reads this
    {
      Inverse(peersMap, peersSlice)
    }

    ghost function Contents(): map<NodeID, Peer>
      requires Valid()
      reads this
    {
      Listed(peersMap, peersSlice)
    }

    constructor ()
      ensures Valid() && Contents() == map[]
    {
      peersMap, peersSlice := map[], [];
    }

    method Add(peer: Peer)
      requires Valid()
      modifies this
      ensures Valid() && Contents() == old(Contents())[peer.node := peer]
    {
      if peer.node !in peersMap {
        Appends(peersMap, peersSlice, peer);
        peersMap := peersMap[peer.node := |peersSlice|];
        peersSlice := peersSlice + [peer];
      } else {
        Overwrites(peersMap, peersSlice, peer);
        peersSlice := peersSlice[peersMap[peer.node] := peer];
      }
    }

    method GetByID(n: NodeID) returns (peer: Option<Peer>)
      requires Valid()
      ensures peer == if n in Contents() then Some(Contents()[n]) else None
      ensures peer.Some? ==> peer.value.node == n
    {
      if n !in peersMap {
        return None;
      }
      return Some(peersSlice[peersMap[n]]);
    }

    /** The peer at a position of the slice. */
    method GetByIndex(i: nat) returns (peer: Option<Peer>)
      requires Valid()
      ensures peer.Some? <==> i < |peersSlice|
      ensures peer.Some? ==> peer.value == peersSlice[i]
    {
      if i >= |peersSlice| {
        return None;
      }
      return Some(peersSlice[i]);
    }

    method Remove(n: NodeID)
      requires Valid()
      modifies this
      ensures Valid() && Contents() == old(Contents()) - {n}
    {
      if n in peersMap {
        var index := peersMap[n];
        var lastIndex := |peersSlice| - 1;
        var lastPeer := peersSlice[lastIndex];
        Swaps(peersMap, peersSlice, n, lastPeer);
        peersMap := peersMap[lastPeer.node := index];
        peersSlice := peersSlice[index := lastPeer];
        peersMap := peersMap - {n};
        peersSlice := peersSlice[..lastIndex];
      }
    }
  }
}
