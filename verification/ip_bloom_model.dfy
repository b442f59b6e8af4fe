/**
 The filter of recently heard IPs. It is its set of occupied positions; `hash` gives the positions of a
 gossip ID under a salt, so that false positives are part of the model. A full filter is replaced under a
 fresh salt; the outcome of that replacement is an input.
 */
module IPBloomModel {
  import opened Wrappers
  import opened IPTrackerModel

  type Salt = int

  const MAX_IP_ENTRIES_PER_NODE := 2

  datatype Bloom = Bloom(
    hash: (GossipID, Salt) -> set<int>,
    salt: Salt,
    positions: set<int>,
    additions: map<NodeID, nat>)

  /** What happened to a filter that was found full. */
  datatype Reset = NotNeeded | Failed | Fresh(salt: Salt)

  function Additions(b: Bloom, n: NodeID): nat {
    if n in b.additions then b.additions[n] else 0
  }

  predicate Contains(b: Bloom, ip: ClaimedIP) {
    b.hash(ip.gossip, b.salt) <= b.positions
  }

  ghost predicate Known(tracked: map<NodeID, TrackedNode>, n: NodeID) {
    n in tracked && tracked[n].ip.Some?
  }

  /** resetBloom: a filter of the IPs of all tracked nodes. */
  ghost function Rebuilt(b: Bloom, tracked: map<NodeID, TrackedNode>, salt: Salt): Bloom {
    Bloom(b.hash, salt,
          set n, p | n in tracked && tracked[n].ip.Some? && p in b.hash(tracked[n].ip.value.gossip, salt) :: p,
          map n | n in tracked && tracked[n].ip.Some? :: 1)
  }

  function Insert(b: Bloom, ip: ClaimedIP): Bloom {
    if Contains(b, ip) then b
    else b.(positions := b.positions + b.hash(ip.gossip, b.salt),
            additions := b.additions[ip.node := Additions(b, ip.node) + 1])
  }

  /** updateMostRecentTrackedIP, after the IP was recorded in `tracked`. */
  ghost function Record(b: Bloom, tracked: map<NodeID, TrackedNode>, ip: ClaimedIP, r: Reset): Bloom {
    if Additions(b, ip.node) >= MAX_IP_ENTRIES_PER_NODE then b
    else match r
      case Failed => b
      case Fresh(salt) => Rebuilt(b, tracked, salt)
      case NotNeeded => Insert(b, ip)
  }

  /** Every tracked node that may still add an IP to the filter has its newest IP in it. */
  ghost predicate Current(b: Bloom, tracked: map<NodeID, TrackedNode>) {
    forall n :: Known(tracked, n) && Additions(b, n) < MAX_IP_ENTRIES_PER_NODE ==> Contains(b, tracked[n].ip.value)
  }

  ghost predicate CurrentExcept(b: Bloom, tracked: map<NodeID, TrackedNode>, n: NodeID) {
    forall m :: m != n && Known(tracked, m) && Additions(b, m) < MAX_IP_ENTRIES_PER_NODE ==>
      Contains(b, tracked[m].ip.value)
  }

  /** No node added more than its quota since the filter was built. */
  ghost predicate WithinQuota(b: Bloom) {
    forall n :: Additions(b, n) <= MAX_IP_ENTRIES_PER_NODE
  }

  lemma RebuiltIsCurrent(b: Bloom, tracked: map<NodeID, TrackedNode>, salt: Salt)
    ensures Current(Rebuilt(b, tracked, salt), tracked)
    ensures WithinQuota(Rebuilt(b, tracked, salt))
  {
    var b1 := Rebuilt(b, tracked, salt);
    forall n | Known(tracked, n)
      ensures Contains(b1, tracked[n].ip.value)
    {
      forall p | p in b.hash(tracked[n].ip.value.gossip, salt)
        ensures p in b1.positions
      {
        assert n in tracked;
      }
    }
  }

  /**
   Recording an IP keeps the filter current, unless the filter was full and could not be replaced.
   Then it does exactly when the filter contains the new IP anyway, or the node has used its quota.
   */
  lemma RecordIsCurrent(b: Bloom, tracked: map<NodeID, TrackedNode>, ip: ClaimedIP, r: Reset)
    requires Known(tracked, ip.node) && tracked[ip.node].ip == Some(ip)
    requires CurrentExcept(b, tracked, ip.node)
    ensures Current(Record(b, tracked, ip, r), tracked) <==>
      !r.Failed? || Contains(b, ip) || Additions(b, ip.node) >= MAX_IP_ENTRIES_PER_NODE
  {
    if Additions(b, ip.node) < MAX_IP_ENTRIES_PER_NODE {
      match r
      case Failed => assert Known(tracked, ip.node);
      case Fresh(salt) => RebuiltIsCurrent(b, tracked, salt);
      case NotNeeded =>
        assert forall n :: n != ip.node ==> Additions(Insert(b, ip), n) == Additions(b, n);
    }
  }

  lemma RecordKeepsQuota(b: Bloom, tracked: map<NodeID, TrackedNode>, ip: ClaimedIP, r: Reset)
    requires WithinQuota(b)
    ensures WithinQuota(Record(b, tracked, ip, r))
  {
    assert forall n :: n != ip.node ==> Additions(Insert(b, ip), n) == Additions(b, n);
  }
}
