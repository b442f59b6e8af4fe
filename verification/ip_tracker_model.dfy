/**
 The peers known to the IP tracker as a value, one transition function per event handler, and the
 invariant all of them keep. The tracker's bloom filter is in IPBloomModel.
 */
module IPTrackerModel {
  import opened Wrappers

  datatype NodeID = NodeID(bytes: int)
  datatype SubnetID = SubnetID(bytes: int)
  type GossipID = int

  const PRIMARY_NETWORK := SubnetID(0)

  datatype ClaimedIP = ClaimedIP(node: NodeID, timestamp: int, gossip: GossipID, addr: int)

  datatype Config = Config(trackedSubnets: set<SubnetID>, connectToAll: bool)

  /** Subnets whose validators this node wants to be connected to. */
  predicate Follows(cfg: Config, s: SubnetID) {
    s == PRIMARY_NETWORK || s in cfg.trackedSubnets || cfg.connectToAll
  }

  datatype TrackedNode = TrackedNode(manual: bool, validated: set<SubnetID>, followed: set<SubnetID>,
      ip: Option<ClaimedIP>) {
    predicate WantsConnection() { manual || followed != {} }
    predicate CanDelete() { !manual && validated == {} }
  }

  datatype ConnectedNode = ConnectedNode(subnets: set<SubnetID>, ip: ClaimedIP)

  // ---------------------------------------------------------------------------------------
  // One subnet: a slice of IPs and the index of each node's IP in it.
  // ---------------------------------------------------------------------------------------

  datatype Gossip = Gossip(manual: set<NodeID>, ids: set<NodeID>, indices: map<NodeID, nat>, ips: seq<ClaimedIP>) {

    /** The index map and the slice are inverses of each other. */
    ghost predicate Indexed() {
      && (forall n :: n in indices ==> indices[n] < |ips| && ips[indices[n]].node == n)
      && (forall i :: 0 <= i < |ips| ==> ips[i].node in indices && indices[ips[i].node] == i)
    }

    /** The gossipable IP of a node, if it has one. */
    function At(n: NodeID): Option<ClaimedIP>
      requires Indexed()
    {
      if n in indices then Some(ips[indices[n]]) else None
    }

    function SetIP(ip: ClaimedIP): Gossip
      requires Indexed()
    {
      if ip.node in indices then
        this.(ips := ips[indices[ip.node] := ip])
      else
        this.(indices := indices[ip.node := |ips|], ips := ips + [ip])
    }

    function RemoveIP(n: NodeID): Gossip
      requires Indexed()
    {
      if n !in indices then this
      else
        var last := |ips| - 1;
        var i := indices[n];
        if i == last then
          this.(indices := indices - {n}, ips := ips[..last])
        else
          this.(indices := indices[ips[last].node := i] - {n}, ips := ips[i := ips[last]][..last])
    }
  }

  const EMPTY_GOSSIP := Gossip({}, {}, map[], [])

  /** A node becomes gossipable; if it was not, and its IP is to be gossiped, the IP gets a slot. */
  function Enroll(g: Gossip, n: NodeID, manual: bool, ip: Option<ClaimedIP>): Gossip
    requires g.Indexed()
  {
    var g1 := g.(manual := g.manual + if manual then {n} else {}, ids := g.ids + {n});
    if n !in g.ids && ip.Some? then g1.SetIP(ip.value) else g1
  }

  /** A node stops being gossipable and loses its slot. */
  function Expel(g: Gossip, n: NodeID): Gossip
    requires g.Indexed()
  {
    g.(ids := g.ids - {n}).RemoveIP(n)
  }

  /** Storing an IP overwrites exactly its own node's entry, and keeps index map and slice inverse. */
  lemma SetIPSetsOneEntry(g: Gossip, ip: ClaimedIP)
    requires g.Indexed()
    ensures g.SetIP(ip).Indexed()
    ensures forall n :: g.SetIP(ip).At(n) == if n == ip.node then Some(ip) else g.At(n)
    ensures g.SetIP(ip).ids == g.ids && g.SetIP(ip).manual == g.manual
    ensures |g.SetIP(ip).ips| == |g.ips| + if ip.node in g.indices then 0 else 1
  {
    assert g.SetIP(ip).Indexed();
  }

  /** The swap with the last slot removes exactly one node's entry, and keeps index map and slice inverse. */
  lemma RemoveIPRemovesOneEntry(g: Gossip, n: NodeID)
    requires g.Indexed()
    ensures g.RemoveIP(n).Indexed()
    ensures forall m :: g.RemoveIP(n).At(m) == if m == n then None else g.At(m)
    ensures g.RemoveIP(n).ids == g.ids && g.RemoveIP(n).manual == g.manual
    ensures |g.RemoveIP(n).ips| == |g.ips| - if n in g.indices then 1 else 0
  {
    var h := g.RemoveIP(n);
    if n in g.indices {
      var last := |g.ips| - 1;
      assert g.ips[last].node in g.indices;
      assert forall i :: 0 <= i < last ==> g.ips[i].node in g.indices && g.indices[g.ips[i].node] == i;
      assert h.Indexed();
    }
  }

  /** The slice holds one slot per gossipable node. */
  lemma {:induction false} IndexedIsDistinct(g: Gossip, i: nat, j: nat)
    requires g.Indexed()
    requires i < j < |g.ips|
    ensures g.ips[i].node != g.ips[j].node
  {
    assert g.indices[g.ips[i].node] == i;
    assert g.indices[g.ips[j].node] == j;
  }

  // ---------------------------------------------------------------------------------------
  // The tracker.
  // ---------------------------------------------------------------------------------------

  datatype State = State(
    cfg: Config,
    tracked: map<NodeID, TrackedNode>,
    connected: map<NodeID, ConnectedNode>,
    subnets: map<SubnetID, Gossip>)

  predicate WantsConnection(st: State, n: NodeID) {
    n in st.tracked && st.tracked[n].WantsConnection()
  }

  ghost predicate AllIndexed(st: State) {
    forall s :: s in st.subnets ==> st.subnets[s].Indexed()
  }

  /** A node that is both tracked and connected has a known IP. */
  ghost predicate ConnectedAreKnown(st: State) {
    forall n :: n in st.tracked && n in st.connected ==> st.tracked[n].ip.Some?
  }

  function UpdateIP(st: State, ip: ClaimedIP): State
    requires ip.node in st.tracked
  {
    st.(tracked := st.tracked[ip.node := st.tracked[ip.node].(ip := Some(ip))])
  }

  /** The IP is the first or the newest one heard from a tracked node. */
  predicate IsNewest(st: State, ip: ClaimedIP) {
    ip.node in st.tracked &&
    (st.tracked[ip.node].ip.None? || st.tracked[ip.node].ip.value.timestamp < ip.timestamp)
  }

  function RecordIP(st: State, ip: ClaimedIP): State {
    if IsNewest(st, ip) then UpdateIP(st, ip) else st
  }

  ghost function SetGossipable(st: State, ip: ClaimedIP, subnets: set<SubnetID>): State
    requires AllIndexed(st)
  {
    st.(subnets := map s | s in st.subnets ::
      if s in subnets && ip.node in st.subnets[s].ids then st.subnets[s].SetIP(ip) else st.subnets[s])
  }

  ghost function AddIP(st: State, ip: ClaimedIP): State
    requires AllIndexed(st)
  {
    if !IsNewest(st, ip) then st
    else if ip.node in st.connected then SetGossipable(UpdateIP(st, ip), ip, st.connected[ip.node].subnets)
    else UpdateIP(st, ip)
  }

  ghost function Connected(st: State, ip: ClaimedIP, subnets: set<SubnetID>): State
    requires AllIndexed(st)
  {
    var st1 := RecordIP(st.(connected := st.connected[ip.node := ConnectedNode(subnets, ip)]), ip);
    if ip.node in st.tracked then SetGossipable(st1, st1.tracked[ip.node].ip.value, subnets) else st1
  }

  /** The node loses its slots on some subnets. */
  ghost function ClearSlots(st: State, n: NodeID, subnets: set<SubnetID>): State
    requires AllIndexed(st)
  {
    st.(subnets := map s | s in st.subnets :: if s in subnets then st.subnets[s].RemoveIP(n) else st.subnets[s])
  }

  ghost function Disconnected(st: State, n: NodeID): State
    requires AllIndexed(st)
  {
    if n !in st.connected then st
    else ClearSlots(st.(connected := st.connected - {n}), n, st.connected[n].subnets)
  }

  /** The node with one more reason to be tracked: a subnet it validates, or the operator's request. */
  function Join(cfg: Config, node: TrackedNode, s: Option<SubnetID>): (r: TrackedNode)
    ensures r.ip == node.ip
  {
    match s
    case None => node.(manual := true)
    case Some(s) => node.(validated := node.validated + {s},
                          followed := node.followed + if Follows(cfg, s) then {s} else {})
  }

  const UNTRACKED := TrackedNode(false, {}, {}, None)

  /** A node that starts being tracked while connected is known by the IP it connected with. */
  function AddTrackable(st: State, n: NodeID, s: Option<SubnetID>): State {
    var node := if n in st.tracked then st.tracked[n]
                else if n in st.connected then UNTRACKED.(ip := Some(st.connected[n].ip))
                else UNTRACKED;
    st.(tracked := st.tracked[n := Join(st.cfg, node, s)])
  }

  ghost function AddGossipable(st: State, n: NodeID, s: SubnetID, manual: bool): State
    requires AllIndexed(st)
  {
    var g := if s in st.subnets then st.subnets[s] else EMPTY_GOSSIP;
    var ip := if n in st.tracked && Syncs(st, n, s) then st.tracked[n].ip else None;
    st.(subnets := st.subnets[s := Enroll(g, n, manual, ip)])
  }

  /** The first half of ManuallyGossip: track the node, as the operator's wish where this node tracks the subnet. */
  function Enlist(st: State, s: SubnetID, n: NodeID): State {
    var st1 := if s == PRIMARY_NETWORK || s in st.cfg.trackedSubnets then AddTrackable(st, n, None) else st;
    AddTrackable(st1, n, Some(s))
  }

  ghost function ManuallyGossip(st: State, s: SubnetID, n: NodeID): State
    requires AllIndexed(st)
  {
    AddGossipable(Enlist(st, s, n), n, s, true)
  }

  ghost function ValidatorAdded(st: State, s: SubnetID, n: NodeID): State
    requires AllIndexed(st)
  {
    AddGossipable(AddTrackable(st, n, Some(s)), n, s, false)
  }

  function Leave(node: TrackedNode, s: SubnetID): (r: TrackedNode)
    ensures r.ip == node.ip
  {
    node.(validated := node.validated - {s}, followed := node.followed - {s})
  }

  ghost function ValidatorRemoved(st: State, s: SubnetID, n: NodeID): State
    requires AllIndexed(st)
  {
    if s !in st.subnets || n in st.subnets[s].manual then st
    else
      var g := Expel(st.subnets[s], n);
      var st1 := st.(subnets := if g.ids == {} then st.subnets - {s} else st.subnets[s := g]);
      if n !in st.tracked then st1
      else
        var node := Leave(st.tracked[n], s);
        st1.(tracked := if node.CanDelete() then st.tracked - {n} else st.tracked[n := node])
  }

  // ---------------------------------------------------------------------------------------
  // The invariant.
  // ---------------------------------------------------------------------------------------

  ghost predicate Validates(st: State, s: SubnetID, n: NodeID) {
    n in st.tracked && s in st.tracked[n].validated
  }

  ghost predicate IsGossipable(st: State, s: SubnetID, n: NodeID) {
    s in st.subnets && n in st.subnets[s].ids
  }

  ghost predicate Syncs(st: State, n: NodeID, s: SubnetID) {
    n in st.connected && s in st.connected[n].subnets
  }

  /** The slot of node `n` in the gossip slice of subnet `s`, if it has one. */
  ghost function EntryOf(st: State, s: SubnetID, n: NodeID): Option<ClaimedIP>
    requires AllIndexed(st)
  {
    if s in st.subnets then st.subnets[s].At(n) else None
  }

  ghost predicate NodeInv(cfg: Config, n: NodeID, node: TrackedNode) {
    && !node.CanDelete()
    && (forall s :: s in node.followed <==> s in node.validated && Follows(cfg, s))
    && (node.ip.Some? ==> node.ip.value.node == n)
  }

  ghost predicate TrackedInv(st: State) {
    forall n :: n in st.tracked ==> NodeInv(st.cfg, n, st.tracked[n])
  }

  ghost predicate ConnectedInv(st: State) {
    && ConnectedAreKnown(st)
    && forall n :: n in st.connected ==> st.connected[n].ip.node == n
  }

  ghost predicate GossipInv(g: Gossip) {
    g.Indexed() && g.ids != {} && g.manual <= g.ids
  }

  ghost predicate SubnetsInv(st: State) {
    forall s :: s in st.subnets ==> GossipInv(st.subnets[s])
  }

  /** The slot node `n` should have in subnet `s`. */
  ghost function Expected(st: State, s: SubnetID, n: NodeID): Option<ClaimedIP> {
    if IsGossipable(st, s, n) && Syncs(st, n, s) && n in st.tracked then st.tracked[n].ip else None
  }

  ghost predicate Inv(st: State) {
    && Core(st)
    && (forall s, n :: IsGossipable(st, s, n) <==> Validates(st, s, n))
    && (forall s, n :: EntryOf(st, s, n) == Expected(st, s, n))
  }

  /** The invariant without its clauses on gossip IDs and slots: what holds between the two halves of a handler. */
  ghost predicate Core(st: State) {
    && TrackedInv(st)
    && ConnectedInv(st)
    && SubnetsInv(st)
    && AllIndexed(st)
  }

  lemma UpdateIPFrame(st: State, ip: ClaimedIP)
    requires ip.node in st.tracked && TrackedInv(st)
    ensures TrackedInv(UpdateIP(st, ip))
    ensures forall s, n :: Validates(UpdateIP(st, ip), s, n) == Validates(st, s, n)
  {
  }

  lemma SetGossipableEntries(st: State, ip: ClaimedIP, subnets: set<SubnetID>)
    requires SubnetsInv(st) && AllIndexed(st)
    ensures SubnetsInv(SetGossipable(st, ip, subnets)) && AllIndexed(SetGossipable(st, ip, subnets))
    ensures Core(st) ==> Core(SetGossipable(st, ip, subnets))
    ensures forall s, n :: Validates(SetGossipable(st, ip, subnets), s, n) == Validates(st, s, n)
    ensures forall s, n :: IsGossipable(SetGossipable(st, ip, subnets), s, n) == IsGossipable(st, s, n)
    ensures forall s, n :: EntryOf(SetGossipable(st, ip, subnets), s, n) ==
              if n == ip.node && s in subnets && IsGossipable(st, s, n) then Some(ip) else EntryOf(st, s, n)
  {
    forall s | s in st.subnets {
      SetIPSetsOneEntry(st.subnets[s], ip);
    }
  }

  /** Giving one connected node its newest IP on the subnets it syncs restores the invariant. */
  lemma RefreshedSlots(st: State, st1: State, n: NodeID, subnets: set<SubnetID>)
    requires Inv(st) && Core(st1)
    requires n in st.connected && n in st.tracked ==> st.connected[n].subnets == subnets
    requires st1.connected == st.connected || (n in st1.connected && st1.connected[n].subnets == subnets)
    requires forall m :: m != n ==> (m in st1.connected <==> m in st.connected)
    requires forall m :: m != n && m in st.connected ==> st1.connected[m] == st.connected[m]
    requires forall m :: m in st1.tracked <==> m in st.tracked
    requires forall m :: m != n && m in st.tracked ==> st1.tracked[m].ip == st.tracked[m].ip
    requires forall s, m :: Validates(st1, s, m) == Validates(st, s, m)
    requires forall s, m :: IsGossipable(st1, s, m) == IsGossipable(st, s, m)
    requires forall s, m ::
               EntryOf(st1, s, m) ==
                 if m == n && m in st.tracked && n in st1.connected && s in subnets && IsGossipable(st, s, m)
                 then st1.tracked[n].ip else EntryOf(st, s, m)
    ensures Inv(st1)
  {
    forall s, m
      ensures IsGossipable(st1, s, m) <==> Validates(st1, s, m)
      ensures EntryOf(st1, s, m) == Expected(st1, s, m)
    {
      assert IsGossipable(st, s, m) <==> Validates(st, s, m);
      assert EntryOf(st, s, m) == Expected(st, s, m);
    }
  }

  lemma AddIPPreservesInv(st: State, ip: ClaimedIP)
    requires Inv(st)
    ensures Inv(AddIP(st, ip))
  {
    if IsNewest(st, ip) {
      UpdateIPFrame(st, ip);
      var st1 := UpdateIP(st, ip);
      if ip.node in st.connected {
        SetGossipableEntries(st1, ip, st.connected[ip.node].subnets);
        RefreshedSlots(st, AddIP(st, ip), ip.node, st.connected[ip.node].subnets);
      } else {
        RefreshedSlots(st, st1, ip.node, {});
      }
    }
  }

  /** Up to the slots, a connection changes the connected nodes and the newest IP of one node. */
  lemma ConnectedFrame(st: State, ip: ClaimedIP, subnets: set<SubnetID>)
    requires Inv(st) && ip.node !in st.connected
    ensures var st1 := RecordIP(st.(connected := st.connected[ip.node := ConnectedNode(subnets, ip)]), ip);
      && Core(st1)
      && (forall s, n :: Validates(st1, s, n) == Validates(st, s, n))
      && (ip.node in st.tracked ==> st1.tracked[ip.node].ip.Some? && st1.tracked[ip.node].ip.value.node == ip.node)
  {
    var st1 := st.(connected := st.connected[ip.node := ConnectedNode(subnets, ip)]);
    if IsNewest(st1, ip) {
      UpdateIPFrame(st1, ip);
    }
  }

  lemma ConnectedPreservesInv(st: State, ip: ClaimedIP, subnets: set<SubnetID>)
    requires Inv(st)
    requires ip.node !in st.connected
    ensures Inv(Connected(st, ip, subnets))
  {
    hide TrackedInv, ConnectedInv, SubnetsInv, Expected, Validates;
    ConnectedFrame(st, ip, subnets);
    var st1 := RecordIP(st.(connected := st.connected[ip.node := ConnectedNode(subnets, ip)]), ip);
    if ip.node in st.tracked {
      SetGossipableEntries(st1, st1.tracked[ip.node].ip.value, subnets);
    }
    RefreshedSlots(st, Connected(st, ip, subnets), ip.node, subnets);
  }

  lemma ClearSlotsEntries(st: State, n: NodeID, subnets: set<SubnetID>)
    requires SubnetsInv(st) && AllIndexed(st)
    ensures SubnetsInv(ClearSlots(st, n, subnets)) && AllIndexed(ClearSlots(st, n, subnets))
    ensures forall s, m :: IsGossipable(ClearSlots(st, n, subnets), s, m) == IsGossipable(st, s, m)
    ensures forall s, m :: EntryOf(ClearSlots(st, n, subnets), s, m) ==
              if m == n && s in subnets then None else EntryOf(st, s, m)
  {
    forall s | s in st.subnets {
      RemoveIPRemovesOneEntry(st.subnets[s], n);
    }
  }

  lemma DisconnectedPreservesInv(st: State, n: NodeID)
    requires Inv(st)
    ensures Inv(Disconnected(st, n))
  {
    hide SubnetsInv, AllIndexed, IsGossipable, EntryOf, NodeInv;
    if n in st.connected {
      var st0, st1 := st.(connected := st.connected - {n}), Disconnected(st, n);
      SameSubnets(st, st0);
      ClearSlotsEntries(st0, n, st.connected[n].subnets);
      forall s, m
        ensures IsGossipable(st1, s, m) <==> Validates(st1, s, m)
        ensures EntryOf(st1, s, m) == Expected(st1, s, m)
      {
        assert IsGossipable(st, s, m) <==> Validates(st, s, m);
        assert EntryOf(st, s, m) == Expected(st, s, m);
      }
    }
  }

  lemma SameSubnets(st: State, st1: State)
    requires st1.subnets == st.subnets && SubnetsInv(st) && AllIndexed(st)
    ensures SubnetsInv(st1) && AllIndexed(st1)
    ensures forall s, n :: IsGossipable(st1, s, n) == IsGossipable(st, s, n) && EntryOf(st1, s, n) == EntryOf(st, s, n)
  {
  }

  lemma JoinInv(cfg: Config, n: NodeID, node: TrackedNode, s: Option<SubnetID>)
    requires node.(ip := None) == UNTRACKED || NodeInv(cfg, n, node)
    requires node.ip.Some? ==> node.ip.value.node == n
    ensures NodeInv(cfg, n, Join(cfg, node, s))
  {
    assert s.Some? ==> s.value in Join(cfg, node, s).validated;
  }

  lemma AddTrackableFrame(st: State, n: NodeID, s: Option<SubnetID>)
    requires Core(st)
    ensures var st1 := AddTrackable(st, n, s);
      && Core(st1)
      && (forall t, m :: Validates(st1, t, m) <==> Validates(st, t, m) || (m == n && s == Some(t)))
      && (n in st.tracked ==> st1.tracked[n].ip == st.tracked[n].ip)
  {
    var node := if n in st.tracked then st.tracked[n]
                else if n in st.connected then UNTRACKED.(ip := Some(st.connected[n].ip))
                else UNTRACKED;
    JoinInv(st.cfg, n, node, s);
  }

  lemma EnlistFrame(st: State, s: SubnetID, n: NodeID)
    requires Core(st)
    ensures var st1 := Enlist(st, s, n);
      && Core(st1)
      && (forall t, m :: Validates(st1, t, m) <==> Validates(st, t, m) || (m == n && s == t))
      && (n in st.tracked ==> st1.tracked[n].ip == st.tracked[n].ip)
      && (n !in st.tracked && n in st.connected ==> st1.tracked[n].ip == Some(st.connected[n].ip))
  {
    AddTrackableFrame(st, n, None);
    var st1 := if s == PRIMARY_NETWORK || s in st.cfg.trackedSubnets then AddTrackable(st, n, None) else st;
    AddTrackableFrame(st1, n, Some(s));
  }

  lemma EnrollEntries(g: Gossip, n: NodeID, manual: bool, ip: Option<ClaimedIP>)
    requires g == EMPTY_GOSSIP || GossipInv(g)
    requires ip.Some? ==> ip.value.node == n
    ensures GossipInv(Enroll(g, n, manual, ip))
    ensures Enroll(g, n, manual, ip).ids == g.ids + {n}
    ensures Enroll(g, n, manual, ip).manual == g.manual + if manual then {n} else {}
    ensures forall m :: Enroll(g, n, manual, ip).At(m) == if m == n && n !in g.ids && ip.Some? then ip else g.At(m)
  {
    var g1 := g.(manual := g.manual + if manual then {n} else {}, ids := g.ids + {n});
    assert n in g1.ids;
    if ip.Some? {
      SetIPSetsOneEntry(g1, ip.value);
    }
  }

  lemma ExpelEntries(g: Gossip, n: NodeID)
    requires GossipInv(g) && n !in g.manual
    ensures Expel(g, n).Indexed()
    ensures Expel(g, n).ids == g.ids - {n} && Expel(g, n).manual == g.manual
    ensures Expel(g, n).ids != {} ==> GossipInv(Expel(g, n))
    ensures forall m :: Expel(g, n).At(m) == if m == n then None else g.At(m)
  {
    RemoveIPRemovesOneEntry(g.(ids := g.ids - {n}), n);
  }

  lemma AddGossipableEntries(st: State, n: NodeID, s: SubnetID, manual: bool)
    requires Core(st)
    requires n in st.tracked
    ensures var st1 := AddGossipable(st, n, s, manual);
      && Core(st1)
      && (forall t, m :: IsGossipable(st1, t, m) <==> IsGossipable(st, t, m) || (t == s && m == n))
      && (forall t, m :: EntryOf(st1, t, m) ==
            if t == s && m == n && !IsGossipable(st, s, n) && Syncs(st, n, s) then st.tracked[n].ip
            else EntryOf(st, t, m))
  {
    hide Enroll;
    var g := if s in st.subnets then st.subnets[s] else EMPTY_GOSSIP;
    EnrollEntries(g, n, manual, if n in st.tracked && Syncs(st, n, s) then st.tracked[n].ip else None);
  }

  /** From a state that satisfies the invariant, making a tracked validator gossipable restores it. */
  lemma GossipValidator(st: State, st1: State, n: NodeID, s: SubnetID, manual: bool)
    requires Inv(st) && Core(st1) && n in st1.tracked
    requires st1.connected == st.connected && st1.subnets == st.subnets
    requires forall m :: m != n ==> (m in st1.tracked <==> m in st.tracked)
    requires forall m :: m in st.tracked && m != n ==> st1.tracked[m] == st.tracked[m]
    requires n in st.tracked ==> st1.tracked[n].ip == st.tracked[n].ip
    requires forall t, m :: Validates(st1, t, m) <==> Validates(st, t, m) || (m == n && t == s)
    ensures Inv(AddGossipable(st1, n, s, manual))
  {
    var st2 := AddGossipable(st1, n, s, manual);
    AddGossipableEntries(st1, n, s, manual);
    forall t, m
      ensures IsGossipable(st2, t, m) <==> Validates(st2, t, m)
      ensures EntryOf(st2, t, m) == Expected(st2, t, m)
    {
      assert IsGossipable(st, t, m) <==> Validates(st, t, m);
      assert EntryOf(st, t, m) == Expected(st, t, m) && EntryOf(st1, t, m) == EntryOf(st, t, m);
      assert IsGossipable(st1, t, m) == IsGossipable(st, t, m);
    }
  }

  lemma ValidatorAddedPreservesInv(st: State, s: SubnetID, n: NodeID)
    requires Inv(st)
    ensures Inv(ValidatorAdded(st, s, n))
  {
    AddTrackableFrame(st, n, Some(s));
    GossipValidator(st, AddTrackable(st, n, Some(s)), n, s, false);
  }

  lemma ManuallyTrackPreservesInv(st: State, n: NodeID)
    requires Inv(st)
    ensures Inv(AddTrackable(st, n, None))
  {
    AddTrackableFrame(st, n, None);
    var st1 := AddTrackable(st, n, None);
    forall t, m
      ensures IsGossipable(st1, t, m) <==> Validates(st1, t, m)
      ensures EntryOf(st1, t, m) == Expected(st1, t, m)
    {
      assert IsGossipable(st, t, m) <==> Validates(st, t, m);
      assert EntryOf(st, t, m) == Expected(st, t, m) && EntryOf(st1, t, m) == EntryOf(st, t, m);
    }
  }

  lemma ManuallyGossipPreservesInv(st: State, s: SubnetID, n: NodeID)
    requires Inv(st)
    ensures Inv(ManuallyGossip(st, s, n))
  {
    EnlistFrame(st, s, n);
    GossipValidator(st, Enlist(st, s, n), n, s, true);
  }

  lemma ValidatorRemovedTracked(st: State, s: SubnetID, n: NodeID)
    requires Inv(st)
    requires s in st.subnets && n !in st.subnets[s].manual
    ensures var st1 := ValidatorRemoved(st, s, n);
      && TrackedInv(st1) && ConnectedInv(st1)
      && (forall m :: m in st1.tracked ==> m in st.tracked && st1.tracked[m].ip == st.tracked[m].ip)
      && (forall t, m :: Validates(st1, t, m) <==> Validates(st, t, m) && !(t == s && m == n))
  {
    hide Expel, Inv, SubnetsInv, EntryOf, Expected, IsGossipable;
    CoreOf(st);
    var st1 := ValidatorRemoved(st, s, n);
    forall t, m
      ensures Validates(st1, t, m) <==> Validates(st, t, m) && !(t == s && m == n)
    {
      assert t != s && Validates(st, t, n) ==> t in Leave(st.tracked[n], s).validated;
    }
  }

  lemma CoreOf(st: State)
    requires Inv(st)
    ensures Core(st)
  {
  }

  lemma ValidatorRemovedGossip(st: State, s: SubnetID, n: NodeID)
    requires Inv(st)
    requires s in st.subnets && n !in st.subnets[s].manual
    ensures var st1 := ValidatorRemoved(st, s, n);
      && SubnetsInv(st1) && AllIndexed(st1)
      && (forall t, m :: IsGossipable(st1, t, m) <==> IsGossipable(st, t, m) && !(t == s && m == n))
  {
    hide Inv, TrackedInv, ConnectedInv, EntryOf, Expected, Validates, Expel, Leave;
    CoreOf(st);
    var st1 := ValidatorRemoved(st, s, n);
    ExpelEntries(st.subnets[s], n);
    forall t, m
      ensures IsGossipable(st1, t, m) <==> IsGossipable(st, t, m) && !(t == s && m == n)
    {
      assert m != n && IsGossipable(st, s, m) ==> m in Expel(st.subnets[s], n).ids;
    }
  }

  lemma ValidatorRemovedFrame(st: State, s: SubnetID, n: NodeID)
    requires Inv(st)
    requires s in st.subnets && n !in st.subnets[s].manual
    ensures var st1 := ValidatorRemoved(st, s, n);
      && Core(st1)
      && (forall m :: m in st1.tracked ==> m in st.tracked && st1.tracked[m].ip == st.tracked[m].ip)
      && (forall t, m :: Validates(st1, t, m) <==> Validates(st, t, m) && !(t == s && m == n))
      && (forall t, m :: IsGossipable(st1, t, m) <==> IsGossipable(st, t, m) && !(t == s && m == n))
  {
    hide Inv, ValidatorRemoved, TrackedInv, ConnectedInv, SubnetsInv, AllIndexed, Validates, IsGossipable;
    ValidatorRemovedTracked(st, s, n);
    ValidatorRemovedGossip(st, s, n);
  }

  lemma ValidatorRemovedSlots(st: State, s: SubnetID, n: NodeID, t: SubnetID, m: NodeID)
    requires Inv(st) && s in st.subnets && n !in st.subnets[s].manual
    ensures AllIndexed(ValidatorRemoved(st, s, n))
    ensures EntryOf(ValidatorRemoved(st, s, n), t, m) == if t == s && m == n then None else EntryOf(st, t, m)
  {
    ValidatorRemovedFrame(st, s, n);
    ExpelEntries(st.subnets[s], n);
  }

  lemma ValidatorRemovedPreservesInv(st: State, s: SubnetID, n: NodeID)
    requires Inv(st)
    ensures Inv(ValidatorRemoved(st, s, n))
    ensures forall t, m :: Validates(ValidatorRemoved(st, s, n), t, m) <==>
              Validates(st, t, m) && !(t == s && m == n && s in st.subnets && n !in st.subnets[s].manual)
  {
    hide EntryOf, Validates, IsGossipable, Expel, Leave;
    if s in st.subnets && n !in st.subnets[s].manual {
      var st1 := ValidatorRemoved(st, s, n);
      ValidatorRemovedFrame(st, s, n);
      forall t, m
        ensures EntryOf(st1, t, m) == Expected(st1, t, m)
      {
        ValidatorRemovedSlots(st, s, n, t, m);
        assert IsGossipable(st, t, m) <==> Validates(st, t, m);
        assert EntryOf(st, t, m) == Expected(st, t, m);
        StaysTracked(st, s, n, t, m);
      }
    }
  }

  /** A node that still may be gossiped is still tracked, with the same IP. */
  lemma StaysTracked(st: State, s: SubnetID, n: NodeID, t: SubnetID, m: NodeID)
    requires Inv(st) && s in st.subnets && n !in st.subnets[s].manual
    ensures var st1 := ValidatorRemoved(st, s, n);
      && st1.connected == st.connected
      && (Validates(st1, t, m) ==> m in st1.tracked && m in st.tracked && st1.tracked[m].ip == st.tracked[m].ip)
  {
    ValidatorRemovedFrame(st, s, n);
  }
}
