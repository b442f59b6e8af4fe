/**
 The IP tracker as the program has it: objects updated in place. Every handler is proved to take the
 tracker's value to the value its transition function gives, and to keep the three gauges exact.
 */
module IPTracker {
  import opened Wrappers
  import opened IPTrackerModel
  import opened IPBloomModel
  import Runs = IPTrackerRuns

  class Gauge {
    var value: int

    constructor ()
      ensures value == 0
    {
      value := 0;
    }

    method Inc()
      modifies this
      ensures value == old(value) + 1
    {
      value := value + 1;
    }

    method Dec()
      modifies this
      ensures value == old(value) - 1
    {
      value := value - 1;
    }
  }

  class GossipableSubnet {
    const numGossipableIPs: Gauge
    var manuallyGossipable: set<NodeID>
    var gossipableIDs: set<NodeID>
    var gossipableIndices: map<NodeID, nat>
    var gossipableIPs: seq<ClaimedIP>

    constructor (gauge: Gauge)
      ensures numGossipableIPs == gauge
      ensures Value() == EMPTY_GOSSIP
    {
      numGossipableIPs := gauge;
      manuallyGossipable, gossipableIDs, gossipableIndices, gossipableIPs := {}, {}, map[], [];
    }

    function Value(): Gossip
      reads this
    {
      Gossip(manuallyGossipable, gossipableIDs, gossipableIndices, gossipableIPs)
    }

    method SetGossipableIP(ip: ClaimedIP)
      requires Value().Indexed()
      modifies this, numGossipableIPs
      ensures Value() == old(Value()).SetIP(ip)
      ensures numGossipableIPs.value - |gossipableIPs| == old(numGossipableIPs.value - |gossipableIPs|)
    {
      if ip.node in gossipableIndices {
        gossipableIPs := gossipableIPs[gossipableIndices[ip.node] := ip];
        return;
      }
      numGossipableIPs.Inc();
      gossipableIndices := gossipableIndices[ip.node := |gossipableIPs|];
      gossipableIPs := gossipableIPs + [ip];
    }

    method RemoveGossipableIP(n: NodeID)
      requires Value().Indexed()
      modifies this, numGossipableIPs
      ensures Value() == old(Value()).RemoveIP(n)
      ensures numGossipableIPs.value - |gossipableIPs| == old(numGossipableIPs.value - |gossipableIPs|)
    {
      if n !in gossipableIndices {
        return;
      }
      var indexToRemove := gossipableIndices[n];
      var newNumGossipable := |gossipableIPs| - 1;
      if newNumGossipable != indexToRemove {
        var replacement := gossipableIPs[newNumGossipable];
        gossipableIndices := gossipableIndices[replacement.node := indexToRemove];
        gossipableIPs := gossipableIPs[indexToRemove := replacement];
      }
      numGossipableIPs.Dec();
      gossipableIndices := gossipableIndices - {n};
      gossipableIPs := gossipableIPs[..newNumGossipable];
    }

    method AddID(n: NodeID, manuallyGossiped: bool, ip: Option<ClaimedIP>)
      requires Value().Indexed()
      modifies this, numGossipableIPs
      ensures Value() == Enroll(old(Value()), n, manuallyGossiped, ip)
      ensures numGossipableIPs.value - |gossipableIPs| == old(numGossipableIPs.value - |gossipableIPs|)
    {
      if manuallyGossiped {
        manuallyGossipable := manuallyGossipable + {n};
      }
      if n in gossipableIDs {
        assert gossipableIDs == gossipableIDs + {n};
        return;
      }
      gossipableIDs := gossipableIDs + {n};
      if ip.Some? {
        SetGossipableIP(ip.value);
      }
    }

    method RemoveID(n: NodeID)
      requires Value().Indexed()
      modifies this, numGossipableIPs
      ensures Value() == Expel(old(Value()), n)
      ensures numGossipableIPs.value - |gossipableIPs| == old(numGossipableIPs.value - |gossipableIPs|)
    {
      gossipableIDs := gossipableIDs - {n};
      RemoveGossipableIP(n);
    }

    /** Extends `ips` with sampled slots, visiting every slot at most once, until there are `maxNumIPs`. */
    method GetGossipableIPs(r: Request, ips: seq<ClaimedIP>, nodeIDs: set<NodeID>)
        returns (ips': seq<ClaimedIP>, nodeIDs': set<NodeID>)
      requires Answers(r, ips, nodeIDs)
      ensures Answers(r, ips', nodeIDs') && ips <= ips' && nodeIDs <= nodeIDs'
      ensures forall ip :: ip in ips' ==> ip in ips || ip in gossipableIPs
      ensures |ips'| < r.maxNumIPs ==> forall ip :: ip in gossipableIPs && r.Wants(ip) ==> ip.node in nodeIDs'
    {
      ips', nodeIDs' := ips, nodeIDs;
      var unsampled := set ip | ip in gossipableIPs;
      while |ips'| < r.maxNumIPs
        invariant Answers(r, ips', nodeIDs') && ips <= ips' && nodeIDs <= nodeIDs'
        invariant forall ip :: ip in ips' ==> ip in ips || ip in gossipableIPs
        invariant unsampled <= set ip | ip in gossipableIPs
        invariant forall ip :: ip in gossipableIPs && ip !in unsampled && r.Wants(ip) ==> ip.node in nodeIDs'
        decreases unsampled
      {
        if unsampled == {} {
          return;
        }
        var ip :| ip in unsampled;
        unsampled := unsampled - {ip};
        if !r.Wants(ip) || ip.node in nodeIDs' {
          continue;
        }
        ips' := ips' + [ip];
        nodeIDs' := nodeIDs' + {ip.node};
      }
    }
  }

  /** A peer's request for IPs: not its own, none its filter already holds, and not too many. */
  datatype Request = Request(exceptNodeID: NodeID, exceptIPs: GossipID -> bool, maxNumIPs: nat) {
    predicate Wants(ip: ClaimedIP) {
      ip.node != exceptNodeID && !exceptIPs(ip.gossip)
    }
  }

  /** Distinct nodes' IPs that the request wants, no more than it allows. */
  ghost predicate Answers(r: Request, ips: seq<ClaimedIP>, nodeIDs: set<NodeID>) {
    && |ips| <= r.maxNumIPs
    && (forall ip :: ip in ips ==> r.Wants(ip) && ip.node in nodeIDs)
    && (forall n :: n in nodeIDs ==> exists ip :: ip in ips && ip.node == n)
    && (forall i, j :: 0 <= i < j < |ips| ==> ips[i].node != ips[j].node)
  }

  /** The number of slots over all subnets. */
  ghost function TotalIPs(m: map<SubnetID, Gossip>): int {
    if m.Keys == {} then 0
    else var s := Element(m.Keys); |m[s].ips| + TotalIPs(m - {s})
  }

  ghost function Element(s: set<SubnetID>): (x: SubnetID)
    requires s != {}
    ensures x in s
  {
    var x :| x in s; x
  }

  lemma {:induction false} TotalIPsSplit(m: map<SubnetID, Gossip>, s: SubnetID)
    requires s in m
    ensures TotalIPs(m) == |m[s].ips| + TotalIPs(m - {s})
    decreases |m.Keys|
  {
    var t := Element(m.Keys);
    if t != s {
      var m1 := m - {t};
      assert m1.Keys == m.Keys - {t};
      TotalIPsSplit(m1, s);
      assert (m - {s}).Keys == m.Keys - {s};
      TotalIPsSplit(m - {s}, t);
      assert m1 - {s} == (m - {s}) - {t};
    }
  }

  lemma UpdateTwice(m: map<SubnetID, Gossip>, s: SubnetID, g: Gossip, h: Gossip)
    ensures m[s := g][s := h] == m[s := h]
  {
  }

  lemma TotalIPsUpdate(m: map<SubnetID, Gossip>, s: SubnetID, g: Gossip)
    ensures TotalIPs(m[s := g]) == TotalIPs(m) + |g.ips| - if s in m then |m[s].ips| else 0
  {
    TotalIPsSplit(m[s := g], s);
    assert m[s := g] - {s} == m - {s};
    if s in m {
      TotalIPsSplit(m, s);
    } else {
      assert m - {s} == m;
    }
  }

  /** The restriction of the tracked nodes to those a loop has visited. */
  ghost function Visited(tracked: map<NodeID, TrackedNode>, done: set<NodeID>): map<NodeID, TrackedNode> {
    map n | n in tracked && n in done :: tracked[n]
  }

  lemma VisitedNone(b: Bloom, tracked: map<NodeID, TrackedNode>, done: set<NodeID>, salt: Salt)
    requires done == {}
    ensures Rebuilt(b, Visited(tracked, done), salt) == Bloom(b.hash, salt, {}, map[])
  {
  }

  lemma VisitedOne(b: Bloom, tracked: map<NodeID, TrackedNode>, done: set<NodeID>, n: NodeID, salt: Salt)
    requires n in tracked && n !in done
    ensures var b1 := Rebuilt(b, Visited(tracked, done), salt);
      Rebuilt(b, Visited(tracked, done + {n}), salt) ==
        if tracked[n].ip.None? then b1
        else b1.(positions := b1.positions + b.hash(tracked[n].ip.value.gossip, salt),
                 additions := b1.additions[n := 1])
  {
    var t0 := Visited(tracked, done);
    var t1 := Visited(tracked, done + {n});
    var p0 := Rebuilt(b, t0, salt).positions;
    var p1 := Rebuilt(b, t1, salt).positions;
    var extra := if tracked[n].ip.None? then {} else b.hash(tracked[n].ip.value.gossip, salt);
    forall p | p in p1
      ensures p in p0 + extra
    {
      var m :| m in t1 && t1[m].ip.Some? && p in b.hash(t1[m].ip.value.gossip, salt);
      assert m == n || m in t0;
    }
    forall p | p in p0 + extra
      ensures p in p1
    {
      if p in p0 {
        var m :| m in t0 && t0[m].ip.Some? && p in b.hash(t0[m].ip.value.gossip, salt);
        assert m in t1;
      } else {
        assert n in t1;
      }
    }
    assert p1 == p0 + extra;
  }

  /** Fresh randomness for a replacement of the filter, and the count at which it will be full. */
  datatype Entropy = Entropy(salt: Salt, maxCount: nat)

  class Tracker {
    const cfg: Config
    const hash: (GossipID, Salt) -> set<int>
    const numTrackedPeers: Gauge
    const numGossipableIPs: Gauge
    const numTrackedSubnets: Gauge
    var tracked: map<NodeID, TrackedNode>
    var connected: map<NodeID, ConnectedNode>
    var subnet: map<SubnetID, GossipableSubnet>
    var bloomSalt: Salt
    var bloomPositions: set<int>
    var bloomCount: nat
    var bloomAdditions: map<NodeID, nat>
    var maxBloomCount: nat

    ghost function Subnets(): map<SubnetID, Gossip>
      reads this`subnet, subnet.Values
    {
      map s | s in subnet :: subnet[s].Value()
    }

    ghost function Peers(): State
      reads this`tracked, this`connected, this`subnet, subnet.Values
    {
      State(cfg, tracked, connected, Subnets())
    }

    ghost function BloomValue(): Bloom
      reads this`bloomSalt, this`bloomPositions, this`bloomAdditions
    {
      Bloom(hash, bloomSalt, bloomPositions, bloomAdditions)
    }

    ghost function Value(): Runs.Tracker
      reads this, subnet.Values
    {
      Runs.Tracker(Peers(), BloomValue())
    }

    /** What happens to the filter if an IP is to be added to it now. */
    function Outcome(e: Option<Entropy>): Reset
      reads this`bloomCount, this`maxBloomCount
    {
      if bloomCount < maxBloomCount then NotNeeded
      else if e.None? then Failed
      else Fresh(e.value.salt)
    }

    /** No object is reachable in two ways. */
    ghost predicate Separate()
      reads this`subnet
    {
      && numTrackedPeers != numGossipableIPs && numTrackedPeers != numTrackedSubnets
      && numGossipableIPs != numTrackedSubnets
      && (forall s, t :: s in subnet && t in subnet && s != t ==> subnet[s] != subnet[t])
      && (forall s :: s in subnet ==> subnet[s].numGossipableIPs == numGossipableIPs)
    }

    /** The gauges are exact. */
    ghost predicate Counted()
      reads this`tracked, this`subnet, subnet.Values, numTrackedPeers, numGossipableIPs, numTrackedSubnets
    {
      && numTrackedPeers.value == |tracked|
      && numTrackedSubnets.value == |subnet|
      && numGossipableIPs.value == TotalIPs(Subnets())
    }

    ghost predicate Valid()
      reads this, subnet.Values, numTrackedPeers, numGossipableIPs, numTrackedSubnets
    {
      Separate() && Counted() && Inv(Peers())
    }

    /** A tracker without a filter. */
    constructor (cfg: Config, hash: (GossipID, Salt) -> set<int>)
      ensures Valid() && subnet == map[] && Peers() == State(cfg, map[], map[], map[]) && this.hash == hash
      ensures fresh(numTrackedPeers) && fresh(numGossipableIPs) && fresh(numTrackedSubnets)
    {
      this.cfg, this.hash := cfg, hash;
      numTrackedPeers := new Gauge();
      numGossipableIPs := new Gauge();
      numTrackedSubnets := new Gauge();
      tracked, connected, subnet := map[], map[], map[];
      bloomSalt, bloomPositions, bloomCount, bloomAdditions, maxBloomCount := 0, {}, 0, map[], 0;
    }

    /** There is a tracker if its gauges could be registered and its first filter built; nothing is known to it. */
    static method New(cfg: Config, hash: (GossipID, Salt) -> set<int>, registered: bool, entropy: Option<Entropy>)
        returns (r: Option<Tracker>)
      ensures r.Some? <==> registered && entropy.Some?
      ensures r.Some? ==> r.value.Valid() && r.value.Value() == Runs.Initial(cfg, hash, entropy.value.salt)
      ensures r.Some? ==> fresh(r.value) && fresh(r.value.numTrackedPeers) && fresh(r.value.numGossipableIPs)
      ensures r.Some? ==> fresh(r.value.numTrackedSubnets) && r.value.subnet == map[]
    {
      var tracker := new Tracker(cfg, hash);
      if !registered {
        return None;
      }
      var ok := tracker.ResetFilter(entropy);
      assert tracker.Peers() == State(cfg, map[], map[], map[]);
      return if ok then Some(tracker) else None;
    }

    // -------------------------------------------------------------------------------------
    // The filter.
    // -------------------------------------------------------------------------------------

    method AddToBloom(ip: ClaimedIP) returns (added: bool)
      modifies this`bloomPositions, this`bloomCount
      ensures added <==> !Contains(old(BloomValue()), ip)
      ensures bloomPositions == old(bloomPositions) + hash(ip.gossip, bloomSalt)
    {
      var positions := hash(ip.gossip, bloomSalt);
      added := !(positions <= bloomPositions);
      bloomPositions := bloomPositions + positions;
      if added {
        bloomCount := bloomCount + 1;
      }
    }

    method AddKnownToBloom(n: NodeID, ip: Option<ClaimedIP>)
      modifies this`bloomPositions, this`bloomCount, this`bloomAdditions
      ensures var b := old(BloomValue());
        BloomValue() == if ip.None? then b
                        else b.(positions := b.positions + hash(ip.value.gossip, bloomSalt),
                                additions := b.additions[n := 1])
    {
      if ip.Some? {
        var _ := AddToBloom(ip.value);
        bloomAdditions := bloomAdditions[n := 1];
      }
    }

    method ResetFilter(entropy: Option<Entropy>) returns (ok: bool)
      modifies this`bloomSalt, this`bloomPositions, this`bloomCount, this`bloomAdditions, this`maxBloomCount
      ensures ok <==> entropy.Some?
      ensures BloomValue() == if ok then Rebuilt(old(BloomValue()), tracked, entropy.value.salt) else old(BloomValue())
    {
      if entropy.None? {
        return false;
      }
      ghost var before, nodes := BloomValue(), tracked;
      bloomSalt, bloomPositions, bloomCount := entropy.value.salt, {}, 0;
      bloomAdditions, maxBloomCount := map[], entropy.value.maxCount;
      var rest := tracked.Keys;
      VisitedNone(before, nodes, tracked.Keys - rest, bloomSalt);
      while rest != {}
        invariant rest <= tracked.Keys && tracked == nodes && bloomSalt == entropy.value.salt
        invariant BloomValue() == Rebuilt(before, Visited(nodes, tracked.Keys - rest), bloomSalt)
      {
        var n :| n in rest;
        VisitedOne(before, nodes, tracked.Keys - rest, n, bloomSalt);
        assert tracked.Keys - (rest - {n}) == tracked.Keys - rest + {n};
        rest := rest - {n};
        AddKnownToBloom(n, tracked[n].ip);
      }
      assert Visited(nodes, tracked.Keys - rest) == nodes;
      return true;
    }

    method AddOrReset(ip: ClaimedIP, entropy: Option<Entropy>)
      modifies this`bloomSalt, this`bloomPositions, this`bloomCount, this`bloomAdditions, this`maxBloomCount
      ensures BloomValue() == Record(old(BloomValue()), tracked, ip, old(Outcome(entropy)))
    {
      var oldCount := if ip.node in bloomAdditions then bloomAdditions[ip.node] else 0;
      if oldCount >= MAX_IP_ENTRIES_PER_NODE {
        return;
      }
      if bloomCount >= maxBloomCount {
        var _ := ResetFilter(entropy);
        return;
      }
      var added := AddToBloom(ip);
      if added {
        bloomAdditions := bloomAdditions[ip.node := oldCount + 1];
      } else {
        assert old(bloomPositions) + hash(ip.gossip, bloomSalt) == old(bloomPositions);
      }
    }

    method UpdateMostRecentTrackedIP(ip: ClaimedIP, entropy: Option<Entropy>)
      requires Separate() && ip.node in tracked
      modifies this`tracked, this`bloomSalt, this`bloomPositions, this`bloomCount
      modifies this`bloomAdditions, this`maxBloomCount
      ensures Peers() == UpdateIP(old(Peers()), ip)
      ensures BloomValue() == Record(old(BloomValue()), tracked, ip, old(Outcome(entropy)))
    {
      tracked := tracked[ip.node := tracked[ip.node].(ip := Some(ip))];
      AddOrReset(ip, entropy);
    }

    method RecordTracked(ip: ClaimedIP, entropy: Option<Entropy>)
      requires Separate() && Counted() && ip.node in tracked
      modifies this`tracked, this`bloomSalt, this`bloomPositions, this`bloomCount
      modifies this`bloomAdditions, this`maxBloomCount
      ensures Separate() && Counted() && Peers() == UpdateIP(old(Peers()), ip)
      ensures BloomValue() == Record(old(BloomValue()), tracked, ip, old(Outcome(entropy)))
    {
      hide TotalIPs, Record, Tracker.Subnets;
      UpdateMostRecentTrackedIP(ip, entropy);
    }

    // -------------------------------------------------------------------------------------
    // Slots.
    // -------------------------------------------------------------------------------------

    /** At most the value of one subnet changed, or that subnet is new. */
    twostate lemma SubnetChanged(s: SubnetID)
      requires s in subnet && subnet.Keys == old(subnet).Keys + {s}
      requires forall t :: t in old(subnet) && t != s ==> subnet[t].Value() == old(subnet[t].Value())
      ensures Subnets() == old(Subnets())[s := subnet[s].Value()]
    {
    }

    twostate lemma TotalChanged(s: SubnetID)
      requires s in subnet && Subnets() == old(Subnets())[s := subnet[s].Value()]
      ensures TotalIPs(Subnets()) ==
        old(TotalIPs(Subnets())) + |subnet[s].gossipableIPs| -
        if s in old(subnet) then |old(subnet[s].gossipableIPs)| else 0
    {
      TotalIPsUpdate(old(Subnets()), s, subnet[s].Value());
    }

    method SetInSubnet(s: SubnetID, ip: ClaimedIP)
      requires Separate() && Counted() && s in subnet && subnet[s].Value().Indexed()
      modifies subnet[s], numGossipableIPs
      ensures Separate() && Counted()
      ensures Peers() == old(Peers()).(subnets := old(Subnets())[s := old(subnet[s].Value()).SetIP(ip)])
    {
      subnet[s].SetGossipableIP(ip);
      SubnetChanged(s);
      TotalChanged(s);
    }

    method RemoveInSubnet(s: SubnetID, n: NodeID)
      requires Separate() && Counted() && s in subnet && subnet[s].Value().Indexed()
      modifies subnet[s], numGossipableIPs
      ensures Separate() && Counted()
      ensures Peers() == old(Peers()).(subnets := old(Subnets())[s := old(subnet[s].Value()).RemoveIP(n)])
    {
      subnet[s].RemoveGossipableIP(n);
      SubnetChanged(s);
      TotalChanged(s);
    }

    method SetGossipableIP(ip: ClaimedIP, trackedSubnets: set<SubnetID>)
      requires Separate() && Counted() && AllIndexed(Peers())
      modifies subnet.Values, numGossipableIPs
      ensures Separate() && Counted()
      ensures Peers() == SetGossipable(old(Peers()), ip, trackedSubnets)
    {
      hide SetGossipable, Tracker.Separate, Tracker.Counted;
      var rest := trackedSubnets;
      SetGossipableNone(Peers(), ip);
      assert trackedSubnets - rest == {};
      while rest != {}
        invariant rest <= trackedSubnets
        invariant Separate() && Counted()
        invariant Peers() == SetGossipable(old(Peers()), ip, trackedSubnets - rest)
      {
        var s :| s in rest;
        SetGossipableOne(old(Peers()), ip, trackedSubnets - rest, s);
        if s in subnet && ip.node in subnet[s].gossipableIDs {
          SetInSubnet(s, ip);
        }
        assert trackedSubnets - (rest - {s}) == trackedSubnets - rest + {s};
        rest := rest - {s};
      }
      assert trackedSubnets - rest == trackedSubnets;
    }

    // -------------------------------------------------------------------------------------
    // The event handlers.
    // -------------------------------------------------------------------------------------

    method AddNewestIP(ip: ClaimedIP, entropy: Option<Entropy>)
      requires Separate() && Counted() && AllIndexed(Peers()) && IsNewest(Peers(), ip)
      modifies this`bloomSalt, this`bloomPositions, this`bloomCount, this`bloomAdditions, this`maxBloomCount
      modifies this`tracked, subnet.Values, numGossipableIPs
      ensures Separate() && Counted() && Peers() == IPTrackerModel.AddIP(old(Peers()), ip)
      ensures BloomValue() == Record(old(BloomValue()), tracked, ip, old(Outcome(entropy)))
    {
      UpdateMostRecentTrackedIP(ip, entropy);
      if ip.node in connected {
        SetGossipableIP(ip, connected[ip.node].subnets);
      }
    }

    method AddIP(ip: ClaimedIP, entropy: Option<Entropy>) returns (dial: bool)
      requires Valid()
      modifies this`bloomSalt, this`bloomPositions, this`bloomCount, this`bloomAdditions, this`maxBloomCount
      modifies this`tracked, subnet.Values, numGossipableIPs
      ensures Valid()
      ensures Value() == Runs.Step(old(Value()), Runs.Claim(ip, old(Outcome(entropy))))
      ensures ip.node in tracked ==> Known(tracked, ip.node) && ip.timestamp <= tracked[ip.node].ip.value.timestamp
      ensures var before := old(tracked);
        dial <==> ip.node in before && IPTrackerModel.WantsConnection(Peers(), ip.node) &&
                  (before[ip.node].ip.None? || before[ip.node].ip.value.timestamp < ip.timestamp)
    {
      AddIPPreservesInv(Peers(), ip);
      if ip.node !in tracked || (tracked[ip.node].ip.Some? && tracked[ip.node].ip.value.timestamp >= ip.timestamp) {
        return false;
      }
      AddNewestIP(ip, entropy);
      return tracked[ip.node].WantsConnection();
    }

    method WantsConnection(n: NodeID) returns (wanted: bool)
      ensures wanted <==> IPTrackerModel.WantsConnection(Peers(), n)
    {
      return n in tracked && tracked[n].WantsConnection();
    }

    /** The newest known IP of a node, if a connection to it is wanted. */
    method GetIP(n: NodeID) returns (ip: Option<ClaimedIP>, wanted: bool)
      ensures wanted <==> IPTrackerModel.WantsConnection(Peers(), n) && Known(tracked, n)
      ensures ip == if n in tracked then tracked[n].ip else None
    {
      if n !in tracked || tracked[n].ip.None? {
        return None, false;
      }
      return tracked[n].ip, tracked[n].WantsConnection();
    }

    /** Filters out only IPs that are not new, or that would not be dialed and are not to be gossiped. */
    method ShouldVerifyIP(ip: ClaimedIP, trackAllSubnets: bool) returns (verify: bool)
      ensures verify <==>
        && ip.node in tracked
        && (tracked[ip.node].ip.None? || tracked[ip.node].ip.value.timestamp < ip.timestamp)
        && (trackAllSubnets || IPTrackerModel.WantsConnection(Peers(), ip.node))
    {
      if ip.node !in tracked {
        return false;
      }
      var node := tracked[ip.node];
      if !trackAllSubnets && !node.WantsConnection() {
        return false;
      }
      return node.ip.None? || node.ip.value.timestamp < ip.timestamp;
    }

    method RecordIP(ip: ClaimedIP, entropy: Option<Entropy>) returns (known: ClaimedIP)
      requires Separate() && Counted() && ip.node in tracked
      modifies this`bloomSalt, this`bloomPositions, this`bloomCount, this`bloomAdditions
      modifies this`maxBloomCount, this`tracked
      ensures Separate() && Counted()
      ensures Peers() == IPTrackerModel.RecordIP(old(Peers()), ip) && Peers().tracked[ip.node].ip == Some(known)
      ensures BloomValue() == if IsNewest(old(Peers()), ip)
                              then Record(old(BloomValue()), tracked, ip, old(Outcome(entropy))) else old(BloomValue())
    {
      hide Record, Tracker.Subnets, Tracker.Separate, Tracker.Counted;
      var node := tracked[ip.node];
      if node.ip.None? || node.ip.value.timestamp < ip.timestamp {
        RecordTracked(ip, entropy);
        return ip;
      }
      return node.ip.value;
    }

    method MarkConnected(ip: ClaimedIP, trackedSubnets: set<SubnetID>, entropy: Option<Entropy>)
      requires Separate() && Counted() && AllIndexed(Peers())
      modifies this`connected, this`bloomSalt, this`bloomPositions, this`bloomCount
      modifies this`bloomAdditions, this`maxBloomCount
      modifies this`tracked, subnet.Values, numGossipableIPs
      ensures Separate() && Counted() && Peers() == IPTrackerModel.Connected(old(Peers()), ip, trackedSubnets)
      ensures BloomValue() == if IsNewest(old(Peers()), ip)
                              then Record(old(BloomValue()), tracked, ip, old(Outcome(entropy))) else old(BloomValue())
    {
      hide SetGossipable, Record, Tracker.Subnets, Tracker.Separate, Tracker.Counted;
      connected := connected[ip.node := ConnectedNode(trackedSubnets, ip)];
      assert Subnets() == old(Subnets());
      if ip.node in tracked {
        var known := RecordIP(ip, entropy);
        SetGossipableIP(known, trackedSubnets);
      }
    }

    method Connected(ip: ClaimedIP, trackedSubnets: set<SubnetID>, entropy: Option<Entropy>)
      requires Valid() && ip.node !in connected
      modifies this`connected, this`bloomSalt, this`bloomPositions, this`bloomCount
      modifies this`bloomAdditions, this`maxBloomCount
      modifies this`tracked, subnet.Values, numGossipableIPs
      ensures Valid()
      ensures Value() == Runs.Step(old(Value()), Runs.Connect(ip, trackedSubnets, old(Outcome(entropy))))
      ensures connected == old(connected)[ip.node := ConnectedNode(trackedSubnets, ip)]
      ensures ip.node in tracked ==> Known(tracked, ip.node) && ip.timestamp <= tracked[ip.node].ip.value.timestamp
    {
      ConnectedPreservesInv(Peers(), ip, trackedSubnets);
      MarkConnected(ip, trackedSubnets, entropy);
    }

    method RemoveFromSubnets(n: NodeID, trackedSubnets: set<SubnetID>)
      requires Separate() && Counted() && AllIndexed(Peers())
      modifies subnet.Values, numGossipableIPs
      ensures Separate() && Counted() && Peers() == ClearSlots(old(Peers()), n, trackedSubnets)
    {
      hide ClearSlots, Tracker.Separate, Tracker.Counted;
      var rest := trackedSubnets;
      ClearSlotsNone(Peers(), n, trackedSubnets - rest);
      while rest != {}
        invariant rest <= trackedSubnets
        invariant Separate() && Counted()
        invariant Peers() == ClearSlots(old(Peers()), n, trackedSubnets - rest)
      {
        var s :| s in rest;
        ClearSlotsOne(old(Peers()), n, trackedSubnets - rest, s);
        if s in subnet {
          RemoveInSubnet(s, n);
        }
        assert trackedSubnets - (rest - {s}) == trackedSubnets - rest + {s};
        rest := rest - {s};
      }
      assert trackedSubnets - rest == trackedSubnets;
    }

    method MarkDisconnected(n: NodeID)
      requires Separate() && Counted() && AllIndexed(Peers()) && n in connected
      modifies this`connected, subnet.Values, numGossipableIPs
      ensures Separate() && Counted() && Peers() == IPTrackerModel.Disconnected(old(Peers()), n)
    {
      hide ClearSlots, Tracker.Subnets, Tracker.Separate, Tracker.Counted;
      var trackedSubnets := connected[n].subnets;
      connected := connected - {n};
      assert Subnets() == old(Subnets());
      RemoveFromSubnets(n, trackedSubnets);
    }

    method Disconnected(n: NodeID)
      requires Valid()
      modifies this`connected, subnet.Values, numGossipableIPs
      ensures Valid()
      ensures Value() == Runs.Step(old(Value()), Runs.Disconnect(n))
    {
      DisconnectedPreservesInv(Peers(), n);
      if n in connected {
        MarkDisconnected(n);
      }
    }

    method JoinedNode(before: TrackedNode, s: Option<SubnetID>) returns (node: TrackedNode)
      ensures node == Join(cfg, before, s)
    {
      node := before;
      if s.None? {
        node := node.(manual := true);
      } else {
        node := node.(validated := node.validated + {s.value});
        if s.value == PRIMARY_NETWORK || s.value in cfg.trackedSubnets || cfg.connectToAll {
          node := node.(followed := node.followed + {s.value});
        }
      }
    }

    method JoinTracked(n: NodeID, s: Option<SubnetID>)
      modifies this`tracked, numTrackedPeers
      ensures tracked == old(tracked)[n := Join(cfg, if n in old(tracked) then old(tracked)[n] else UNTRACKED, s)]
      ensures numTrackedPeers.value - |tracked| == old(numTrackedPeers.value - |tracked|)
    {
      if n !in tracked {
        numTrackedPeers.Inc();
        tracked := tracked[n := UNTRACKED];
      }
      var node := JoinedNode(tracked[n], s);
      tracked := tracked[n := node];
    }

    method JoinPeer(n: NodeID, s: Option<SubnetID>)
      requires Separate() && Counted()
      modifies this`tracked, numTrackedPeers
      ensures Separate() && Counted() && Peers() == Joined(old(Peers()), n, s)
    {
      hide TotalIPs, Join, Tracker.Subnets;
      JoinTracked(n, s);
    }

    method AddTrackableID(n: NodeID, s: Option<SubnetID>, entropy: Option<Entropy>)
      requires Separate() && Counted()
      requires n in connected ==> connected[n].ip.node == n
      modifies this`tracked, this`bloomSalt, this`bloomPositions, this`bloomCount
      modifies this`bloomAdditions, this`maxBloomCount
      modifies numTrackedPeers
      ensures Separate() && Counted() && Peers() == AddTrackable(old(Peers()), n, s)
      ensures BloomValue() == if n !in old(tracked) && n in connected
                              then Record(old(BloomValue()), tracked, connected[n].ip, old(Outcome(entropy)))
                              else old(BloomValue())
    {
      hide Record, AddTrackable, Joined, UpdateIP, Tracker.Subnets, Tracker.Separate, Tracker.Counted;
      AddTrackableJoins(Peers(), n, s);
      var previouslyTracked := n in tracked;
      JoinPeer(n, s);
      JoinedTracks(old(Peers()), n, s);
      if !previouslyTracked && n in connected {
        RecordTracked(connected[n].ip, entropy);
      }
    }

    method ManuallyTrack(n: NodeID, entropy: Option<Entropy>)
      requires Valid()
      modifies this`tracked, this`bloomSalt, this`bloomPositions, this`bloomCount
      modifies this`bloomAdditions, this`maxBloomCount
      modifies numTrackedPeers
      ensures Valid()
      ensures Value() == Runs.Step(old(Value()), Runs.Track(n, old(Outcome(entropy))))
    {
      ManuallyTrackPreservesInv(Peers(), n);
      AddTrackableID(n, None, entropy);
    }

    method InsertSubnet(s: SubnetID)
      requires Separate() && s !in subnet
      modifies this`subnet
      ensures Separate() && s in subnet && fresh(subnet[s]) && subnet == old(subnet)[s := subnet[s]]
      ensures subnet[s].Value() == EMPTY_GOSSIP
    {
      var g := new GossipableSubnet(numGossipableIPs);
      subnet := subnet[s := g];
    }

    /** A new subnet has no slots yet. */
    twostate lemma NewSlots(s: SubnetID)
      requires s !in old(subnet) && s in subnet && subnet == old(subnet)[s := subnet[s]]
      requires subnet[s].Value() == EMPTY_GOSSIP
      requires forall t :: t in old(subnet) ==> subnet[t].Value() == old(subnet[t].Value())
      ensures Subnets() == old(Subnets())[s := EMPTY_GOSSIP]
      ensures TotalIPs(Subnets()) == old(TotalIPs(Subnets())) && |subnet| == |old(subnet)| + 1
    {
      SubnetChanged(s);
      TotalChanged(s);
    }

    method NewSubnet(s: SubnetID)
      requires Separate() && Counted() && s !in subnet
      modifies this`subnet, numTrackedSubnets
      ensures Separate() && Counted() && s in subnet && fresh(subnet[s]) && subnet == old(subnet)[s := subnet[s]]
      ensures Subnets() == old(Subnets())[s := EMPTY_GOSSIP]
    {
      hide TotalIPs;
      numTrackedSubnets.Inc();
      InsertSubnet(s);
      NewSlots(s);
    }

    method EnsureSubnet(s: SubnetID)
      requires Separate() && Counted()
      modifies this`subnet, numTrackedSubnets
      ensures Separate() && Counted() && s in subnet
      ensures s in old(subnet) ==> subnet == old(subnet)
      ensures s !in old(subnet) ==> fresh(subnet[s]) && subnet == old(subnet)[s := subnet[s]]
      ensures Subnets() == old(Subnets())[s := subnet[s].Value()]
      ensures subnet[s].Value() == if s in old(subnet) then old(subnet[s].Value()) else EMPTY_GOSSIP
    {
      if s !in subnet {
        NewSubnet(s);
        assert Subnets()[s] == EMPTY_GOSSIP;
      } else {
        assert Subnets()[s := subnet[s].Value()] == Subnets();
      }
    }

    method EnrollInSubnet(s: SubnetID, n: NodeID, manuallyGossiped: bool, ip: Option<ClaimedIP>)
      requires Separate() && Counted() && s in subnet && subnet[s].Value().Indexed()
      modifies subnet[s], numGossipableIPs
      ensures Separate() && Counted()
      ensures Subnets() == old(Subnets())[s := Enroll(old(subnet[s].Value()), n, manuallyGossiped, ip)]
    {
      subnet[s].AddID(n, manuallyGossiped, ip);
      SubnetChanged(s);
      TotalChanged(s);
    }

    method AddGossipableID(n: NodeID, s: SubnetID, manuallyGossiped: bool)
      requires Separate() && Counted() && AllIndexed(Peers())
      modifies this`subnet, subnet.Values, numGossipableIPs, numTrackedSubnets
      ensures Separate() && Counted() && Peers() == AddGossipable(old(Peers()), n, s, manuallyGossiped)
    {
      hide Enroll, Tracker.Separate, Tracker.Counted;
      EnsureSubnet(s);
      ghost var before, g := old(Subnets()), subnet[s].Value();
      assert g == if s in before then before[s] else EMPTY_GOSSIP;
      assert g.Indexed();
      var ip := if n in tracked && n in connected && s in connected[n].subnets then tracked[n].ip else None;
      EnrollInSubnet(s, n, manuallyGossiped, ip);
      UpdateTwice(before, s, g, Enroll(g, n, manuallyGossiped, ip));
    }

    method AddValidator(s: SubnetID, n: NodeID, entropy: Option<Entropy>)
      requires Separate() && Counted() && AllIndexed(Peers())
      requires n in connected ==> connected[n].ip.node == n
      modifies this`tracked, this`subnet, this`bloomSalt, this`bloomPositions
      modifies this`bloomCount, this`bloomAdditions, this`maxBloomCount
      modifies subnet.Values, numTrackedPeers, numGossipableIPs, numTrackedSubnets
      ensures Separate() && Counted() && Peers() == ValidatorAdded(old(Peers()), s, n)
      ensures BloomValue() == if n !in old(tracked) && n in connected
                              then Record(old(BloomValue()), tracked, connected[n].ip, old(Outcome(entropy)))
                              else old(BloomValue())
    {
      hide Record, AddTrackable, AddGossipable, AllIndexed, Tracker.Subnets, Tracker.Separate, Tracker.Counted;
      EnlistedIsIndexed(Peers(), s, n);
      AddTrackableID(n, Some(s), entropy);
      AddGossipableID(n, s, false);
    }

    method OnValidatorAdded(s: SubnetID, n: NodeID, entropy: Option<Entropy>)
      requires Valid()
      modifies this`tracked, this`subnet, this`bloomSalt, this`bloomPositions
      modifies this`bloomCount, this`bloomAdditions, this`maxBloomCount
      modifies subnet.Values, numTrackedPeers, numGossipableIPs, numTrackedSubnets
      ensures Valid()
      ensures Value() == Runs.Step(old(Value()), Runs.Added(s, n, old(Outcome(entropy))))
    {
      ValidatorAddedPreservesInv(Peers(), s, n);
      AddedStep(Value(), s, n, Outcome(entropy));
      AddValidator(s, n, entropy);
    }

    method EnlistNode(s: SubnetID, n: NodeID, entropy: Option<Entropy>)
      requires Separate() && Counted()
      requires n in connected ==> connected[n].ip.node == n
      modifies this`tracked, this`bloomSalt, this`bloomPositions, this`bloomCount
      modifies this`bloomAdditions, this`maxBloomCount
      modifies numTrackedPeers
      ensures Separate() && Counted() && Peers() == Enlist(old(Peers()), s, n)
      ensures BloomValue() == if n !in old(tracked) && n in connected
                              then Record(old(BloomValue()), tracked, connected[n].ip, old(Outcome(entropy)))
                              else old(BloomValue())
    {
      hide Record, Tracker.Subnets, Tracker.Separate, Tracker.Counted;
      ghost var between := tracked;
      if s == PRIMARY_NETWORK || s in cfg.trackedSubnets {
        AddTrackableID(n, None, entropy);
        between := tracked;
      }
      AddTrackableID(n, Some(s), entropy);
      if n in between && n in connected {
        RecordSameIPs(old(BloomValue()), between, tracked, connected[n].ip, old(Outcome(entropy)));
      }
    }

    method GossipNode(s: SubnetID, n: NodeID, entropy: Option<Entropy>)
      requires Separate() && Counted() && AllIndexed(Peers())
      requires n in connected ==> connected[n].ip.node == n
      modifies this`tracked, this`subnet, this`bloomSalt, this`bloomPositions
      modifies this`bloomCount, this`bloomAdditions, this`maxBloomCount
      modifies subnet.Values, numTrackedPeers, numGossipableIPs, numTrackedSubnets
      ensures Separate() && Counted() && Peers() == IPTrackerModel.ManuallyGossip(old(Peers()), s, n)
      ensures BloomValue() == if n !in old(tracked) && n in connected
                              then Record(old(BloomValue()), tracked, connected[n].ip, old(Outcome(entropy)))
                              else old(BloomValue())
    {
      hide Record, Enlist, AddGossipable, AllIndexed, Tracker.Subnets, Tracker.Separate, Tracker.Counted;
      EnlistedIsIndexed(Peers(), s, n);
      EnlistNode(s, n, entropy);
      AddGossipableID(n, s, true);
    }

    method ManuallyGossip(s: SubnetID, n: NodeID, entropy: Option<Entropy>)
      requires Valid()
      modifies this`tracked, this`subnet, this`bloomSalt, this`bloomPositions
      modifies this`bloomCount, this`bloomAdditions, this`maxBloomCount
      modifies subnet.Values, numTrackedPeers, numGossipableIPs, numTrackedSubnets
      ensures Valid()
      ensures Value() == Runs.Step(old(Value()), Runs.Announce(s, n, old(Outcome(entropy))))
    {
      ManuallyGossipPreservesInv(Peers(), s, n);
      GossipNode(s, n, entropy);
    }

    method ExpelFromSubnet(s: SubnetID, n: NodeID)
      requires Separate() && Counted() && s in subnet && subnet[s].Value().Indexed()
      modifies subnet[s], numGossipableIPs
      ensures Separate() && Counted()
      ensures Subnets() == old(Subnets())[s := subnet[s].Value()]
      ensures subnet[s].Value() == Expel(old(subnet[s].Value()), n)
    {
      subnet[s].RemoveID(n);
      SubnetChanged(s);
      TotalChanged(s);
    }

    twostate lemma SubnetDropped(s: SubnetID)
      requires s in old(subnet) && subnet == old(subnet) - {s}
      requires forall t :: t in subnet ==> subnet[t].Value() == old(subnet[t].Value())
      ensures Subnets() == old(Subnets()) - {s}
      ensures |subnet| == |old(subnet)| - 1
    {
      assert subnet.Keys == old(subnet).Keys - {s};
    }

    method DeleteSubnet(s: SubnetID)
      requires Separate() && Counted() && s in subnet && subnet[s].gossipableIPs == []
      modifies this`subnet, numTrackedSubnets
      ensures Separate() && Counted() && Subnets() == old(Subnets()) - {s}
    {
      hide TotalIPs;
      TotalIPsSplit(Subnets(), s);
      assert TotalIPs(Subnets()) == TotalIPs(Subnets() - {s});
      hide Tracker.Subnets;
      numTrackedSubnets.Dec();
      subnet := subnet - {s};
      SubnetDropped(s);
    }

    method ShrinkSubnet(s: SubnetID, n: NodeID)
      requires Valid() && s in subnet && n !in subnet[s].manuallyGossipable && subnet[s].Value().Indexed()
      modifies this`subnet, subnet.Values, numGossipableIPs, numTrackedSubnets
      ensures Separate() && Counted()
      ensures var g := Expel(old(subnet[s].Value()), n);
        Subnets() == if g.ids == {} then old(Subnets()) - {s} else old(Subnets())[s := g]
    {
      ghost var before, g := Subnets(), Expel(subnet[s].Value(), n);
      assert subnet[s].Value() == before[s];
      LastValidatorLeavesNoSlots(Peers(), s, n);
      ExpelFromSubnet(s, n);
      if subnet[s].gossipableIDs == {} {
        DeleteSubnet(s);
        UpdateThenRemove(before, s, g);
      }
    }

    method ShrinkNode(s: SubnetID, n: NodeID)
      requires n in tracked
      modifies this`tracked, numTrackedPeers
      ensures var node := Leave(old(tracked)[n], s);
        tracked == if node.CanDelete() then old(tracked) - {n} else old(tracked)[n := node]
      ensures numTrackedPeers.value - |tracked| == old(numTrackedPeers.value - |tracked|)
    {
      var node := tracked[n];
      node := node.(validated := node.validated - {s}, followed := node.followed - {s});
      if node.CanDelete() {
        numTrackedPeers.Dec();
        tracked := tracked - {n};
        assert |tracked| == |old(tracked)| - 1 by { assert tracked.Keys == old(tracked).Keys - {n}; }
      } else {
        tracked := tracked[n := node];
      }
    }

    method ShrinkTracked(s: SubnetID, n: NodeID)
      requires Separate() && Counted()
      modifies this`tracked, numTrackedPeers
      ensures Separate() && Counted() && Subnets() == old(Subnets())
      ensures n !in old(tracked) ==> tracked == old(tracked)
      ensures n in old(tracked) ==> var node := Leave(old(tracked)[n], s);
        tracked == if node.CanDelete() then old(tracked) - {n} else old(tracked)[n := node]
    {
      hide Leave, TotalIPs, Tracker.Subnets;
      if n in tracked {
        ShrinkNode(s, n);
      }
    }

    method RemoveValidator(s: SubnetID, n: NodeID)
      requires Valid() && s in subnet && n !in subnet[s].manuallyGossipable
      modifies this`tracked, this`subnet, subnet.Values, numTrackedPeers, numGossipableIPs, numTrackedSubnets
      ensures Separate() && Counted() && Peers() == ValidatorRemoved(old(Peers()), s, n)
    {
      hide Inv, AllIndexed, Expel, Leave, Tracker.Subnets, Tracker.Separate, Tracker.Counted;
      IsIndexed(Peers());
      SubnetValue(s);
      ShrinkSubnet(s, n);
      ShrinkTracked(s, n);
    }

    method OnValidatorRemoved(s: SubnetID, n: NodeID)
      requires Valid()
      modifies this`tracked, this`subnet, subnet.Values, numTrackedPeers, numGossipableIPs, numTrackedSubnets
      ensures Valid()
      ensures Value() == Runs.Step(old(Value()), Runs.Removed(s, n))
    {
      hide EntryOf, Expected, IsGossipable, Validates, TrackedInv, ConnectedInv, SubnetsInv, Expel, Leave, TotalIPs;
      ValidatorRemovedPreservesInv(Peers(), s, n);
      if s !in subnet {
        return;
      }
      assert subnet[s].Value() == Subnets()[s];
      if n in subnet[s].manuallyGossipable {
        return;
      }
      RemoveValidator(s, n);
    }

    method ResetBloom(entropy: Option<Entropy>) returns (ok: bool)
      requires Valid()
      modifies this`bloomSalt, this`bloomPositions, this`bloomCount, this`bloomAdditions, this`maxBloomCount
      ensures Valid() && (ok <==> entropy.Some?)
      ensures Value() == Runs.Step(old(Value()), Runs.Rebuild(if ok then Some(entropy.value.salt) else None))
    {
      hide Inv, AllIndexed, Rebuilt, Tracker.Subnets, Tracker.Separate, Tracker.Counted;
      ok := ResetFilter(entropy);
    }

    /**
     The IPs sent to a peer: newest known IPs of distinct connected nodes that may be gossiped on an allowed
     subnet they sync. If fewer than the maximum are sent, no wanted one was missed.
     */
    method GetGossipableIPs(iter: set<SubnetID>, allowed: set<SubnetID>, r: Request) returns (ips: seq<ClaimedIP>)
      requires Valid()
      ensures |ips| <= r.maxNumIPs && forall ip :: ip in ips ==> r.Wants(ip)
      ensures forall i, j :: 0 <= i < j < |ips| ==> ips[i].node != ips[j].node
      ensures forall ip :: ip in ips ==> Shared(Peers(), iter * allowed, ip)
      ensures |ips| < r.maxNumIPs ==> forall ip :: Shared(Peers(), iter * allowed, ip) && r.Wants(ip) ==> ip in ips
    {
      ips := ListSubnets(iter, allowed, r);
      ListedAreShared(Peers(), iter * allowed, r, ips);
    }

    method ListSubnets(iter: set<SubnetID>, allowed: set<SubnetID>, r: Request) returns (ips: seq<ClaimedIP>)
      requires AllIndexed(Peers())
      ensures |ips| <= r.maxNumIPs && forall ip :: ip in ips ==> r.Wants(ip)
      ensures forall i, j :: 0 <= i < j < |ips| ==> ips[i].node != ips[j].node
      ensures Listed(Peers(), iter * allowed, ips)
      ensures |ips| < r.maxNumIPs ==> Covered(Peers(), iter * allowed, r, set ip | ip in ips :: ip.node)
    {
      hide EntryOf, AllIndexed;
      ghost var st := Peers();
      ips := [];
      var nodeIDs: set<NodeID> := {};
      var rest := iter;
      ghost var done: set<SubnetID> := {};
      while rest != {}
        invariant rest <= iter && Answers(r, ips, nodeIDs) && Listed(st, iter * allowed, ips)
        invariant iter * allowed <= rest + done
        invariant |ips| < r.maxNumIPs ==> Covered(st, done, r, nodeIDs)
      {
        var s :| s in rest;
        rest := rest - {s};
        if s in allowed {
          ghost var ips0, nodeIDs0 := ips, nodeIDs;
          ips, nodeIDs := ListSubnet(s, r, ips, nodeIDs);
          ListMore(st, iter * allowed, s, ips0, ips);
          CoverMore(st, done, s, r, nodeIDs0, nodeIDs);
          done := done + {s};
        }
        if |ips| >= r.maxNumIPs {
          break;
        }
      }
      NodesListed(r, ips, nodeIDs);
    }

    method ListSubnet(s: SubnetID, r: Request, ips: seq<ClaimedIP>, nodeIDs: set<NodeID>)
        returns (ips': seq<ClaimedIP>, nodeIDs': set<NodeID>)
      requires AllIndexed(Peers()) && Answers(r, ips, nodeIDs)
      ensures Answers(r, ips', nodeIDs') && ips <= ips' && nodeIDs <= nodeIDs'
      ensures forall ip :: ip in ips' ==> ip in ips || EntryOf(Peers(), s, ip.node) == Some(ip)
      ensures |ips'| < r.maxNumIPs ==> Covered(Peers(), {s}, r, nodeIDs')
    {
      if s !in subnet {
        return ips, nodeIDs;
      }
      SlotsOf(s);
      ips', nodeIDs' := subnet[s].GetGossipableIPs(r, ips, nodeIDs);
    }

    lemma SubnetValue(s: SubnetID)
      requires s in subnet
      ensures s in Subnets() && Subnets()[s] == subnet[s].Value()
    {
    }

    lemma SlotsOf(s: SubnetID)
      requires AllIndexed(Peers()) && s in subnet
      ensures forall ip :: ip in subnet[s].gossipableIPs <==> EntryOf(Peers(), s, ip.node) == Some(ip)
    {
      assert subnet[s].Value() == Subnets()[s] && Subnets()[s].Indexed();
    }
  }

  /** Every IP listed is the slot of its node on one of the subnets. */
  ghost predicate Listed(st: State, subnets: set<SubnetID>, ips: seq<ClaimedIP>)
    requires AllIndexed(st)
  {
    forall ip :: ip in ips ==> exists s :: s in subnets && EntryOf(st, s, ip.node) == Some(ip)
  }

  /** Every wanted slot on one of the subnets belongs to one of the nodes. */
  ghost predicate Covered(st: State, subnets: set<SubnetID>, r: Request, nodeIDs: set<NodeID>)
    requires AllIndexed(st)
  {
    forall s, n :: s in subnets && EntryOf(st, s, n).Some? && r.Wants(EntryOf(st, s, n).value) ==> n in nodeIDs
  }

  /** The newest known IP of a connected node that may be gossiped on one of the subnets and syncs it. */
  ghost predicate Shared(st: State, subnets: set<SubnetID>, ip: ClaimedIP) {
    && ip.node in st.tracked
    && st.tracked[ip.node].ip == Some(ip)
    && exists s :: s in subnets && Validates(st, s, ip.node) && Syncs(st, ip.node, s)
  }

  lemma SlotsAreShared(st: State, s: SubnetID, ip: ClaimedIP)
    requires Inv(st)
    ensures EntryOf(st, s, ip.node) == Some(ip) <==>
      ip.node in st.tracked && st.tracked[ip.node].ip == Some(ip) && Validates(st, s, ip.node) && Syncs(st, ip.node, s)
  {
    assert EntryOf(st, s, ip.node) == Expected(st, s, ip.node);
    assert IsGossipable(st, s, ip.node) <==> Validates(st, s, ip.node);
  }

  lemma ListedAreShared(st: State, subnets: set<SubnetID>, r: Request, ips: seq<ClaimedIP>)
    requires Inv(st) && Listed(st, subnets, ips)
    ensures forall ip :: ip in ips ==> Shared(st, subnets, ip)
    ensures Covered(st, subnets, r, set ip | ip in ips :: ip.node) ==>
      forall ip :: Shared(st, subnets, ip) && r.Wants(ip) ==> ip in ips
  {
    hide Inv, EntryOf, Validates, Syncs;
    forall ip: ClaimedIP, s {
      SlotsAreShared(st, s, ip);
    }
  }

  lemma ListMore(st: State, subnets: set<SubnetID>, s: SubnetID, ips0: seq<ClaimedIP>, ips: seq<ClaimedIP>)
    requires AllIndexed(st) && Listed(st, subnets, ips0)
    requires forall ip :: ip in ips ==> ip in ips0 || (s in subnets && EntryOf(st, s, ip.node) == Some(ip))
    ensures Listed(st, subnets, ips)
  {
  }

  lemma CoverMore(st: State, done: set<SubnetID>, s: SubnetID, r: Request, nodeIDs0: set<NodeID>, nodeIDs: set<NodeID>)
    requires AllIndexed(st) && nodeIDs0 <= nodeIDs
    ensures Covered(st, done, r, nodeIDs0) && Covered(st, {s}, r, nodeIDs) ==> Covered(st, done + {s}, r, nodeIDs)
  {
  }

  lemma NodesListed(r: Request, ips: seq<ClaimedIP>, nodeIDs: set<NodeID>)
    requires Answers(r, ips, nodeIDs)
    ensures nodeIDs == set ip | ip in ips :: ip.node
  {
  }

  /** The node with one more reason to be tracked, before its IP is looked for. */
  function Joined(st: State, n: NodeID, s: Option<SubnetID>): State {
    st.(tracked := st.tracked[n := Join(st.cfg, if n in st.tracked then st.tracked[n] else UNTRACKED, s)])
  }

  lemma JoinedTracks(st: State, n: NodeID, s: Option<SubnetID>)
    ensures n in Joined(st, n, s).tracked
  {
  }

  lemma AddTrackableJoins(st: State, n: NodeID, s: Option<SubnetID>)
    requires n in st.connected ==> st.connected[n].ip.node == n
    ensures AddTrackable(st, n, s) ==
      if n !in st.tracked && n in st.connected then UpdateIP(Joined(st, n, s), st.connected[n].ip) else Joined(st, n, s)
  {
    if n !in st.tracked && n in st.connected {
      assert UpdateIP(Joined(st, n, s), st.connected[n].ip).tracked == AddTrackable(st, n, s).tracked;
    }
  }

  lemma IsIndexed(st: State)
    requires Inv(st)
    ensures AllIndexed(st) && forall s :: s in st.subnets ==> st.subnets[s].Indexed()
  {
  }

  lemma EnlistedIsIndexed(st: State, s: SubnetID, n: NodeID)
    requires AllIndexed(st)
    ensures AllIndexed(AddTrackable(st, n, Some(s))) && AllIndexed(Enlist(st, s, n))
  {
  }

  lemma AddedStep(t: Runs.Tracker, s: SubnetID, n: NodeID, r: Reset)
    requires AllIndexed(t.peers)
    ensures var peers := ValidatorAdded(t.peers, s, n);
      Runs.Step(t, Runs.Added(s, n, r)) ==
        Runs.Tracker(peers, if n !in t.peers.tracked && n in t.peers.connected
                            then Record(t.bloom, peers.tracked, t.peers.connected[n].ip, r) else t.bloom)
  {
  }

  lemma UpdateThenRemove(m: map<SubnetID, Gossip>, s: SubnetID, g: Gossip)
    ensures m[s := g] - {s} == m - {s}
  {
  }

  /** A subnet that loses its last gossipable node has no slot left, so dropping it drops no gauge count. */
  lemma LastValidatorLeavesNoSlots(st: State, s: SubnetID, n: NodeID)
    requires Inv(st) && s in st.subnets && n !in st.subnets[s].manual
    ensures Expel(st.subnets[s], n).ids == {} ==> Expel(st.subnets[s], n).ips == []
  {
    var g := Expel(st.subnets[s], n);
    ExpelEntries(st.subnets[s], n);
    forall i | 0 <= i < |g.ips|
      ensures g.ips[i].node in g.ids
    {
      var m := g.ips[i].node;
      assert g.At(m) == Some(g.ips[i]);
      assert EntryOf(st, s, m) == Expected(st, s, m);
    }
    assert g.ips != [] ==> g.ips[0].node in g.ids;
  }

  /** The filter depends on the tracked nodes through their IPs only. */
  lemma RecordSameIPs(b: Bloom, t0: map<NodeID, TrackedNode>, t1: map<NodeID, TrackedNode>, ip: ClaimedIP, r: Reset)
    requires t0.Keys == t1.Keys && forall n :: n in t0 ==> t0[n].ip == t1[n].ip
    ensures Record(b, t0, ip, r) == Record(b, t1, ip, r)
  {
    if r.Fresh? {
      assert forall p :: p in Rebuilt(b, t0, r.salt).positions <==> p in Rebuilt(b, t1, r.salt).positions;
    }
  }

  lemma ClearSlotsNone(st: State, n: NodeID, done: set<SubnetID>)
    requires AllIndexed(st) && done == {}
    ensures ClearSlots(st, n, done) == st
  {
  }

  lemma ClearSlotsOne(st: State, n: NodeID, done: set<SubnetID>, s: SubnetID)
    requires AllIndexed(st) && s !in done
    ensures var st1 := ClearSlots(st, n, done);
      && (s in st.subnets ==> s in st1.subnets && st1.subnets[s] == st.subnets[s])
      && ClearSlots(st, n, done + {s}) ==
           if s in st.subnets then st1.(subnets := st1.subnets[s := st.subnets[s].RemoveIP(n)]) else st1
  {
  }

  lemma SetGossipableNone(st: State, ip: ClaimedIP)
    requires AllIndexed(st)
    ensures SetGossipable(st, ip, {}) == st
  {
  }

  /** One more subnet changes that subnet only, and only where the node is gossipable. */
  lemma SetGossipableOne(st: State, ip: ClaimedIP, done: set<SubnetID>, s: SubnetID)
    requires AllIndexed(st) && s !in done
    ensures var st1 := SetGossipable(st, ip, done);
      && (s in st.subnets ==> s in st1.subnets && st1.subnets[s] == st.subnets[s])
      && SetGossipable(st, ip, done + {s}) ==
           if s in st.subnets && ip.node in st.subnets[s].ids
           then st1.(subnets := st1.subnets[s := st.subnets[s].SetIP(ip)])
           else st1
  {
  }
}
