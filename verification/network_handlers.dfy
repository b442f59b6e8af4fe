/**
 The network's handlers as functions of its tables, its IP tracker and the notices given to the router, and the proof
 that each of them is a sequence of NetworkModel's actions.
 */
module NetworkHandlers {
  import opened Wrappers
  import opened IPTrackerModel
  import opened IPBloomModel
  import opened NetworkModel
  import Runs = IPTrackerRuns

  datatype Snapshot = Snapshot(tables: Tables, tracker: Runs.Tracker, router: seq<Notice>)

  /** Connections this node is to have: all of them, unless it may connect to validators only and is none itself. */
  predicate Allows(s: Snapshot, validatorsOnly: bool, weValidate: bool, n: NodeID) {
    !validatorsOnly || weValidate || WantsConnection(s.tracker.peers, n)
  }

  function Upgraded(s: Snapshot, me: NodeID, allowed: bool, p: Peer): Snapshot {
    if allowed && CanAdd(s.tables, me, p.node)
    then s.(tables := s.tables.(connecting := s.tables.connecting[p.node := p])) else s
  }

  /** The order visits every subnet of the set once. */
  ghost predicate Visits(order: seq<SubnetID>, subnets: set<SubnetID>) {
    (forall i, j :: 0 <= i < j < |order| ==> order[i] != order[j]) && forall s :: s in order <==> s in subnets
  }

  /** The router hears of the subnets in this order. */
  function Notices(n: NodeID, order: seq<SubnetID>): seq<Notice> {
    seq(|order|, i requires 0 <= i < |order| => Connects(n, order[i]))
  }

  ghost function OnConnected(s: Snapshot, n: NodeID, reset: Reset, order: seq<SubnetID>): Snapshot
    requires AllIndexed(s.tracker.peers)
  {
    if n !in s.tables.connecting then s
    else
      var p := s.tables.connecting[n];
      Snapshot(Promoted(s.tables, n), Runs.Step(s.tracker, Runs.Connect(p.ip, p.subnets, reset)),
               s.router + Notices(n, [PRIMARY_NETWORK] + order))
  }

  function LeavesConnecting(s: Snapshot, n: NodeID, id: int): Snapshot {
    s.(tables := ConnectingDropped(s.tables, n, WantsConnection(s.tracker.peers, n), id))
  }

  ghost function LeavesConnected(s: Snapshot, n: NodeID, id: int): Snapshot
    requires AllIndexed(s.tracker.peers)
  {
    var tracker := Runs.Step(s.tracker, Runs.Disconnect(n));
    Snapshot(ConnectedDropped(s.tables, n, WantedAddress(tracker.peers, n), id), tracker,
             s.router + [Disconnects(n)])
  }

  ghost function OnDisconnected(s: Snapshot, n: NodeID, id: int): Snapshot
    requires AllIndexed(s.tracker.peers)
  {
    var s1 := if n in s.tables.connecting then LeavesConnecting(s, n, id) else s;
    if n in s.tables.connected then LeavesConnected(s1, n, id) else s1
  }

  ghost function TracksManually(s: Snapshot, n: NodeID, addr: int, reset: Reset, id: int): Snapshot
    requires AllIndexed(s.tracker.peers)
  {
    s.(tables := ManuallyDialed(s.tables, Dial(id, n, addr)), tracker := Runs.Step(s.tracker, Runs.Track(n, reset)))
  }

  /** The IPs whose signature is checked. */
  predicate Verifies(s: Snapshot, ip: ClaimedIP, trackAll: bool) {
    IsNewest(s.tracker.peers, ip) && (trackAll || WantsConnection(s.tracker.peers, ip.node))
  }

  ghost function Claims(s: Snapshot, ip: ClaimedIP, trackAll: bool, signed: bool, reset: Reset, id: int): Snapshot
    requires AllIndexed(s.tracker.peers)
  {
    if !Verifies(s, ip, trackAll) || !signed then s
    else
      s.(tables := ClaimDialed(s.tables, WantsConnection(s.tracker.peers, ip.node), Dial(id, ip.node, ip.addr)),
         tracker := Runs.Step(s.tracker, Runs.Claim(ip, reset)))
  }

  function GivesUp(s: Snapshot, n: NodeID): Snapshot {
    if WantsConnection(s.tracker.peers, n) then s else s.(tables := Stopped(s.tables, n))
  }

  function Closes(s: Snapshot): Snapshot {
    s.(tables := Closed(s.tables))
  }

  // ---------------------------------------------------------------------------------------
  // Between handlers, the tracker agrees with the tables.
  // ---------------------------------------------------------------------------------------

  /** The tracker holds no node for connected that is not, and none that is connecting. */
  ghost predicate Agrees(s: Snapshot) {
    && (forall n :: n in s.tracker.peers.connected ==> n in s.tables.connected)
    && (forall n :: n in s.tables.connecting ==>
          n !in s.tracker.peers.connected && s.tables.connecting[n].ip.node == n)
  }

  lemma AgreesOn(s: Snapshot, n: NodeID)
    requires Agrees(s) && n in s.tables.connecting
    ensures n !in s.tracker.peers.connected && s.tables.connecting[n].ip.node == n
  {
  }

  lemma UpgradedAgrees(s: Snapshot, me: NodeID, allowed: bool, p: Peer)
    requires Agrees(s) && p.ip.node == p.node
    ensures Agrees(Upgraded(s, me, allowed, p))
  {
  }

  lemma SessionsFollow(t: Runs.Tracker, e: Runs.Event)
    requires AllIndexed(t.peers)
    ensures forall n :: n in Runs.Step(t, e).peers.connected <==>
      (e.Connect? && e.ip.node == n) || (n in t.peers.connected && e != Runs.Disconnect(n))
  {
    forall n {
      Runs.StepSessions(t.peers, e, n);
    }
  }

  lemma OnConnectedAgrees(s: Snapshot, n: NodeID, reset: Reset, order: seq<SubnetID>)
    requires Agrees(s) && AllIndexed(s.tracker.peers)
    ensures Agrees(OnConnected(s, n, reset, order))
  {
    hide Runs.Step;
    if n in s.tables.connecting {
      var p := s.tables.connecting[n];
      SessionsFollow(s.tracker, Runs.Connect(p.ip, p.subnets, reset));
    }
  }

  lemma LeavesConnectingAgrees(s: Snapshot, n: NodeID, id: int)
    requires Agrees(s)
    ensures Agrees(LeavesConnecting(s, n, id))
  {
  }

  lemma LeavesConnectedAgrees(s: Snapshot, n: NodeID, id: int)
    requires Agrees(s) && AllIndexed(s.tracker.peers)
    ensures Agrees(LeavesConnected(s, n, id))
  {
    hide Runs.Step;
    SessionsFollow(s.tracker, Runs.Disconnect(n));
  }

  lemma TracksManuallyAgrees(s: Snapshot, n: NodeID, addr: int, reset: Reset, id: int)
    requires Agrees(s) && AllIndexed(s.tracker.peers)
    ensures Agrees(TracksManually(s, n, addr, reset, id))
  {
    hide Runs.Step;
    SessionsFollow(s.tracker, Runs.Track(n, reset));
  }

  lemma ClaimsAgrees(s: Snapshot, ip: ClaimedIP, trackAll: bool, signed: bool, reset: Reset, id: int)
    requires Agrees(s) && AllIndexed(s.tracker.peers)
    ensures Agrees(Claims(s, ip, trackAll, signed, reset, id))
  {
    hide Runs.Step;
    SessionsFollow(s.tracker, Runs.Claim(ip, reset));
  }

  // ---------------------------------------------------------------------------------------
  // The handlers perform the model's actions.
  // ---------------------------------------------------------------------------------------

  datatype Filter = Filter(hash: (GossipID, Salt) -> set<int>, salt: Salt)

  /** The snapshot shows the network: same tables and notices, and the tracker its history leads to. */
  ghost predicate Shows(f: Filter, s: Snapshot, w: Network) {
    && s.tables == w.tables
    && s.router == w.router
    && Runs.WellFormed(w.tracker)
    && s.tracker == Runs.Run(w.cfg, f.hash, f.salt, w.tracker)
  }

  /** Some goroutine's actions lead from the network to one that the snapshot shows. */
  ghost predicate Leads(f: Filter, w: Network, actions: seq<Action>, s: Snapshot) {
    exists w1 :: Performs(w, actions, w1) && NetworkModel.Inv(w1) && Shows(f, s, w1)
  }

  lemma ShownState(f: Filter, s: Snapshot, w: Network)
    requires Shows(f, s, w)
    ensures s.tracker.peers == Runs.Peers(w.cfg, w.tracker) && IPTrackerModel.Inv(s.tracker.peers)
    ensures AllIndexed(s.tracker.peers) && s.tracker.peers.cfg == w.cfg
    ensures forall n :: Wants(w.cfg, w.tracker, n) <==> WantsConnection(s.tracker.peers, n)
    ensures forall n :: WantedAt(w.cfg, w.tracker, n) == WantedAddress(s.tracker.peers, n)
  {
  }

  lemma ShowsNext(f: Filter, s: Snapshot, w: Network, a: Action, s1: Snapshot)
    requires NetworkModel.Inv(w) && Shows(f, s, w) && Enabled(w, a)
    requires AllIndexed(s.tracker.peers)
    requires s1.tables == TablesStep(w, a) && s1.router == Append(s.router, Noticed(a))
    requires s1.tracker == if Told(w, a).Some? then Runs.Step(s.tracker, Told(w, a).value) else s.tracker
    ensures NetworkModel.Inv(Step(w, a)) && Shows(f, s1, Step(w, a))
  {
    hide NetworkModel.Inv, Enabled, TablesStep, PhaseStep, Runs.Run, Runs.Step, Runs.WellFormed;
    StepKeepsInv(w, a);
    TrackerIsWellFormed(Step(w, a));
    if Told(w, a).Some? {
      Runs.RunAppend(w.cfg, f.hash, f.salt, w.tracker, Told(w, a).value);
    }
  }

  lemma TrackerIsWellFormed(w: Network)
    requires NetworkModel.Inv(w)
    ensures Runs.WellFormed(w.tracker)
  {
  }

  lemma LeadsOne(f: Filter, w: Network, a: Action, s: Snapshot)
    requires Enabled(w, a) && NetworkModel.Inv(Step(w, a)) && Shows(f, s, Step(w, a))
    ensures Leads(f, w, [a], s)
  {
    hide Enabled, TablesStep, PhaseStep, NetworkModel.Inv, Shows;
    var w1 := Step(w, a);
    assert [a][1..] == [];
    assert Performs(w1, [], w1);
    assert Performs(w, [a], w1);
  }

  /** A new peer object that is allowed is listed, unless the network is closing or lists its node. */
  lemma UpgradeRefines(f: Filter, s: Snapshot, w: Network, allowed: bool, p: Peer)
    requires NetworkModel.Inv(w) && Shows(f, s, w) && p !in w.phases && p.ip.node == p.node
    ensures var s1 := Upgraded(s, w.me, allowed, p);
      if allowed && CanAdd(w.tables, w.me, p.node) then Leads(f, w, [Upgrade(p)], s1) else s1 == s
  {
    hide NetworkModel.Inv, Runs.Run, Runs.WellFormed, Leads;
    if allowed && CanAdd(s.tables, w.me, p.node) {
      ShownState(f, s, w);
      ShowsNext(f, s, w, Upgrade(p), Upgraded(s, w.me, allowed, p));
      LeadsOne(f, w, Upgrade(p), Upgraded(s, w.me, allowed, p));
    }
  }

  lemma LeadsMore(f: Filter, w: Network, a: Action, rest: seq<Action>, s: Snapshot)
    requires Enabled(w, a) && Leads(f, Step(w, a), rest, s)
    ensures Leads(f, w, [a] + rest, s)
  {
    hide Enabled, TablesStep, PhaseStep, NetworkModel.Inv, Shows;
    var w1 :| Performs(Step(w, a), rest, w1) && NetworkModel.Inv(w1) && Shows(f, s, w1);
    assert ([a] + rest)[0] == a && ([a] + rest)[1..] == rest;
    assert Performs(w, [a] + rest, w1);
  }

  /** A listed peer is listed under its own node. */
  lemma ListedIsPeer(w: Network, n: NodeID)
    requires NetworkModel.Inv(w)
    ensures n in w.tables.connecting ==> w.tables.connecting[n].node == n && n !in w.tables.connected
    ensures n in w.tables.connected ==> w.tables.connected[n].node == n
  {
  }

  lemma NoticesSplit(n: NodeID, order: seq<SubnetID>)
    requires order != []
    ensures Notices(n, order) == [Connects(n, order[0])] + Notices(n, order[1..])
  {
  }

  lemma VisitsRest(order: seq<SubnetID>, subnets: set<SubnetID>)
    requires order != [] && Visits(order, subnets)
    ensures order[0] in subnets && Visits(order[1..], subnets - {order[0]})
  {
    assert order[0] in order;
    forall s
      ensures s in order[1..] <==> s in subnets - {order[0]}
    {
      assert order == [order[0]] + order[1..];
    }
  }

  lemma LeadsNowhere(f: Filter, s: Snapshot, w: Network)
    requires NetworkModel.Inv(w) && Shows(f, s, w)
    ensures Leads(f, w, [], s)
  {
    hide NetworkModel.Inv, Shows;
    assert Performs(w, [], w);
  }

  /** The steps that tell the router of the subnets in this order. */
  function Tells(p: Peer, order: seq<SubnetID>): seq<Action> {
    if order == [] then [] else [TellSubnet(p, order[0])] + Tells(p, order[1..])
  }

  lemma {:induction false} TellsSubnets(f: Filter, s: Snapshot, w: Network, p: Peer, order: seq<SubnetID>)
    requires NetworkModel.Inv(w) && Shows(f, s, w) && AllIndexed(s.tracker.peers)
    requires p in w.phases && w.phases[p].Live? && Visits(order, CommonSubnets(w.cfg, p) - w.phases[p].told)
    ensures Leads(f, w, Tells(p, order), s.(router := s.router + Notices(p.node, order)))
    decreases |order|
  {
    hide NetworkModel.Inv, Runs.Run, Runs.Step, Runs.WellFormed, Leads, Shows, Visits;
    var s2 := s.(router := s.router + Notices(p.node, order));
    if order == [] {
      assert s.router + [] == s.router;
      LeadsNowhere(f, s, w);
    } else {
      var a := TellSubnet(p, order[0]);
      var s1 := s.(router := s.router + [Connects(p.node, order[0])]);
      var common, told := CommonSubnets(w.cfg, p), w.phases[p].told;
      VisitsRest(order, common - told);
      ShowsTables(f, s, w);
      ShowsNext(f, s, w, a, s1);
      assert common - (told + {order[0]}) == common - told - {order[0]};
      TellsSubnets(f, s1, Step(w, a), p, order[1..]);
      NoticesSplit(p.node, order);
      assert s1.(router := s1.router + Notices(p.node, order[1..])) == s2;
      LeadsMore(f, w, a, Tells(p, order[1..]), s2);
    }
  }

  lemma RoutesPeer(f: Filter, s: Snapshot, w: Network, p: Peer, order: seq<SubnetID>)
    requires NetworkModel.Inv(w) && Shows(f, s, w) && In(w, p, Announced) && AllIndexed(s.tracker.peers)
    requires Visits(order, CommonSubnets(w.cfg, p))
    ensures Leads(f, w, [TellRouter(p)] + Tells(p, order),
                  s.(router := s.router + Notices(p.node, [PRIMARY_NETWORK] + order)))
  {
    hide NetworkModel.Inv, Runs.Run, Runs.Step, Runs.WellFormed, Leads, Shows;
    var a := TellRouter(p);
    var s1 := s.(router := s.router + [Connects(p.node, PRIMARY_NETWORK)]);
    ShowsTables(f, s, w);
    ShowsNext(f, s, w, a, s1);
    TellsSubnets(f, s1, Step(w, a), p, order);
    NoticesSplit(p.node, [PRIMARY_NETWORK] + order);
    var s2 := s.(router := s.router + Notices(p.node, [PRIMARY_NETWORK] + order));
    assert s1.(router := s1.router + Notices(p.node, order)) == s2;
    LeadsMore(f, w, a, Tells(p, order), s2);
  }

  lemma AnnouncesPeer(f: Filter, s: Snapshot, w: Network, p: Peer, reset: Reset, order: seq<SubnetID>)
    requires NetworkModel.Inv(w) && Shows(f, s, w) && In(w, p, Moved(p)) && AllIndexed(s.tracker.peers)
    requires Visits(order, CommonSubnets(w.cfg, p))
    ensures Leads(f, w, [TellTracker(p, reset)] + ([TellRouter(p)] + Tells(p, order)),
                  s.(tracker := Runs.Step(s.tracker, Runs.Connect(p.ip, p.subnets, reset)),
                     router := s.router + Notices(p.node, [PRIMARY_NETWORK] + order)))
  {
    hide NetworkModel.Inv, Runs.Run, Runs.Step, Runs.WellFormed, Leads, Shows, Visits, Notices, Tells;
    var a := TellTracker(p, reset);
    var s1 := s.(tracker := Runs.Step(s.tracker, Runs.Connect(p.ip, p.subnets, reset)));
    ShowsTables(f, s, w);
    ShowsNext(f, s, w, a, s1);
    var w1 := Step(w, a);
    ShownState(f, s1, w1);
    RoutesPeer(f, s1, w1, p, order);
    LeadsMore(f, w, a, [TellRouter(p)] + Tells(p, order),
              s1.(router := s.router + Notices(p.node, [PRIMARY_NETWORK] + order)));
  }

  lemma ShowsTables(f: Filter, s: Snapshot, w: Network)
    requires Shows(f, s, w)
    ensures s.tables == w.tables && s.router == w.router
  {
  }

  /** What Connected does for the peer it finds, in order. */
  function Arrival(p: Peer, reset: Reset, order: seq<SubnetID>): seq<Action> {
    [Promote(p)] + ([TellTracker(p, reset)] + ([TellRouter(p)] + Tells(p, order)))
  }

  /** The peer that finished its handshake is moved; the tracker is told, and the router of every shared subnet. */
  lemma ConnectedRefines(f: Filter, s: Snapshot, w: Network, n: NodeID, reset: Reset, order: seq<SubnetID>)
    requires NetworkModel.Inv(w) && Shows(f, s, w) && AllIndexed(s.tracker.peers)
    requires n in w.tables.connecting ==>
      var p := w.tables.connecting[n]; In(w, p, Handshaking) && Visits(order, CommonSubnets(w.cfg, p))
    ensures
      if n !in w.tables.connecting then OnConnected(s, n, reset, order) == s
      else Leads(f, w, Arrival(w.tables.connecting[n], reset, order), OnConnected(s, n, reset, order))
  {
    hide NetworkModel.Inv, Runs.Run, Runs.Step, Runs.WellFormed, Leads, Shows, Promoted, Visits, Notices, Tells;
    ShowsTables(f, s, w);
    if n in w.tables.connecting {
      var p := w.tables.connecting[n];
      ListedIsPeer(w, n);
      var s1 := s.(tables := Promoted(s.tables, n));
      ShowsNext(f, s, w, Promote(p), s1);
      AnnouncesPeer(f, s1, Step(w, Promote(p)), p, reset, order);
      LeadsMore(f, w, Promote(p), [TellTracker(p, reset)] + ([TellRouter(p)] + Tells(p, order)),
                OnConnected(s, n, reset, order));
    }
  }

  /** An action that changes no table starts no dial. */
  lemma StartsNone(w: Network, a: Action)
    requires NetworkModel.Inv(w) && Enabled(w, a) && TablesStep(w, a) == w.tables
    ensures Step(w, a).started == w.started
  {
    SameDials(w.tables, w.started);
  }

  lemma InvHasPeers(w: Network)
    requires NetworkModel.Inv(w)
    ensures PeersInv(w)
  {
  }

  /** Looking a peer up changes nothing else, and finds it where it is listed. */
  lemma LooksUp(f: Filter, s: Snapshot, w: Network, p: Peer)
    requires NetworkModel.Inv(w) && Shows(f, s, w) && Enabled(w, LookUp(p)) && AllIndexed(s.tracker.peers)
    ensures var w1 := Step(w, LookUp(p));
      && NetworkModel.Inv(w1) && Shows(f, s, w1) && w1.tables == w.tables && w1.started == w.started
      && In(w1, p, if w.phases[p].Live? then Leaving(false, true) else Leaving(true, false))
  {
    hide NetworkModel.Inv, PeersInv, Runs.Run, Runs.WellFormed;
    InvHasPeers(w);
    LookUpIsExact(w, p);
    StartsNone(w, LookUp(p));
    ShowsNext(f, s, w, LookUp(p), s);
  }

  lemma ConnectingRefines(f: Filter, s: Snapshot, w: Network, p: Peer, id: int)
    requires NetworkModel.Inv(w) && Shows(f, s, w) && AllIndexed(s.tracker.peers)
    requires In(w, p, Handshaking) && FreshID(w.started, id)
    ensures Leads(f, w, [LookUp(p)] + [DropConnecting(p, id)], LeavesConnecting(s, p.node, id))
  {
    hide NetworkModel.Inv, Runs.Run, Runs.Step, Runs.WellFormed, Leads, Shows, ConnectingDropped, FreshID;
    LooksUp(f, s, w, p);
    var w1, a := Step(w, LookUp(p)), DropConnecting(p, id);
    ShownState(f, s, w1);
    ShowsTables(f, s, w1);
    var s1 := LeavesConnecting(s, p.node, id);
    ShowsNext(f, s, w1, a, s1);
    LeadsOne(f, w1, a, s1);
    LeadsMore(f, w, LookUp(p), [a], s1);
  }

  lemma UnannouncesPeer(f: Filter, s: Snapshot, w: Network, p: Peer, id: int)
    requires NetworkModel.Inv(w) && Shows(f, s, w) && AllIndexed(s.tracker.peers)
    requires In(w, p, Forgotten) && FreshID(w.started, id)
    ensures Leads(f, w, [UntellRouter(p)] + [DropConnected(p, id)],
                  s.(tables := ConnectedDropped(s.tables, p.node, WantedAddress(s.tracker.peers, p.node), id),
                     router := s.router + [Disconnects(p.node)]))
  {
    hide NetworkModel.Inv, Runs.Run, Runs.Step, Runs.WellFormed, Leads, Shows, ConnectedDropped, FreshID;
    StartsNone(w, UntellRouter(p));
    var a, b := UntellRouter(p), DropConnected(p, id);
    ShowsTables(f, s, w);
    var s1 := s.(router := s.router + [Disconnects(p.node)]);
    ShowsNext(f, s, w, a, s1);
    var w1 := Step(w, a);
    ShownState(f, s1, w1);
    ShowsTables(f, s1, w1);
    var s2 := s1.(tables := ConnectedDropped(s.tables, p.node, WantedAddress(s.tracker.peers, p.node), id));
    ShowsNext(f, s1, w1, b, s2);
    LeadsOne(f, w1, b, s2);
    LeadsMore(f, w, a, [b], s2);
  }

  /** What a connected peer's Disconnected does, in order. */
  function Departure(p: Peer, id: int): seq<Action> {
    [LookUp(p)] + ([UntellTracker(p)] + ([UntellRouter(p)] + [DropConnected(p, id)]))
  }

  lemma ConnectedLeaves(f: Filter, s: Snapshot, w: Network, p: Peer, id: int)
    requires NetworkModel.Inv(w) && Shows(f, s, w) && AllIndexed(s.tracker.peers)
    requires In(w, p, Live(CommonSubnets(w.cfg, p))) && FreshID(w.started, id)
    ensures Leads(f, w, Departure(p, id), LeavesConnected(s, p.node, id))
  {
    hide NetworkModel.Inv, Runs.Run, Runs.Step, Runs.WellFormed, Leads, Shows, ConnectedDropped, FreshID, WantedAddress;
    LooksUp(f, s, w, p);
    var w1, a := Step(w, LookUp(p)), UntellTracker(p);
    ShowsTables(f, s, w1);
    StartsNone(w1, a);
    var s1 := s.(tracker := Runs.Step(s.tracker, Runs.Disconnect(p.node)));
    ShowsNext(f, s, w1, a, s1);
    var w2 := Step(w1, a);
    ShownState(f, s1, w2);
    UnannouncesPeer(f, s1, w2, p, id);
    var rest := [UntellRouter(p)] + [DropConnected(p, id)];
    LeadsMore(f, w1, a, rest, LeavesConnected(s, p.node, id));
    LeadsMore(f, w, LookUp(p), [a] + rest, LeavesConnected(s, p.node, id));
  }

  /** A peer that goes is dropped from the set that lists it; its node is dialed again if the tracker wants it. */
  lemma DisconnectedRefines(f: Filter, s: Snapshot, w: Network, n: NodeID, id: int)
    requires NetworkModel.Inv(w) && Shows(f, s, w) && AllIndexed(s.tracker.peers) && FreshID(w.started, id)
    requires n in w.tables.connecting ==> In(w, w.tables.connecting[n], Handshaking)
    requires n in w.tables.connected ==> var p := w.tables.connected[n]; In(w, p, Live(CommonSubnets(w.cfg, p)))
    ensures
      if n in w.tables.connecting then
        var p := w.tables.connecting[n];
        Leads(f, w, [LookUp(p)] + [DropConnecting(p, id)], OnDisconnected(s, n, id))
      else if n in w.tables.connected then Leads(f, w, Departure(w.tables.connected[n], id), OnDisconnected(s, n, id))
      else OnDisconnected(s, n, id) == s
  {
    hide NetworkModel.Inv, Leads, Shows, LeavesConnecting, LeavesConnected, FreshID, Departure;
    ShowsTables(f, s, w);
    ListedIsPeer(w, n);
    if n in w.tables.connecting {
      ConnectingRefines(f, s, w, w.tables.connecting[n], id);
    } else if n in w.tables.connected {
      ConnectedLeaves(f, s, w, w.tables.connected[n], id);
    }
  }

  /** The node is reported to the tracker, and dialed unless it is connected or being dialed. */
  lemma ManuallyTrackRefines(f: Filter, s: Snapshot, w: Network, n: NodeID, addr: int, reset: Reset, id: int)
    requires NetworkModel.Inv(w) && Shows(f, s, w) && AllIndexed(s.tracker.peers) && FreshID(w.started, id)
    ensures Leads(f, w, [TrackerEvent(Runs.Track(n, reset))] + [DialManually(n, addr, id)],
                  TracksManually(s, n, addr, reset, id))
  {
    hide NetworkModel.Inv, Runs.Run, Runs.Step, Runs.WellFormed, Leads, Shows, ManuallyDialed, FreshID;
    var a, b := TrackerEvent(Runs.Track(n, reset)), DialManually(n, addr, id);
    StartsNone(w, a);
    ShowsTables(f, s, w);
    var s1 := s.(tracker := Runs.Step(s.tracker, Runs.Track(n, reset)));
    ShowsNext(f, s, w, a, s1);
    var w1 := Step(w, a);
    ShownState(f, s1, w1);
    ShowsTables(f, s1, w1);
    ShowsNext(f, s1, w1, b, TracksManually(s, n, addr, reset, id));
    LeadsOne(f, w1, b, TracksManually(s, n, addr, reset, id));
    LeadsMore(f, w, a, [b], TracksManually(s, n, addr, reset, id));
  }

  /** A signed IP that passes the filter is reported to the tracker and dialed if it wants the node. */
  lemma TrackRefines(f: Filter, s: Snapshot, w: Network, ip: ClaimedIP, trackAll: bool, signed: bool, reset: Reset,
      id: int)
    requires NetworkModel.Inv(w) && Shows(f, s, w) && AllIndexed(s.tracker.peers) && FreshID(w.started, id)
    ensures
      if Verifies(s, ip, trackAll) && signed
      then Leads(f, w, [DialClaim(ip, reset, id)], Claims(s, ip, trackAll, signed, reset, id))
      else Claims(s, ip, trackAll, signed, reset, id) == s
    ensures !Verifies(s, ip, trackAll) ==> !WantsNew(w.cfg, w.tracker, ip)
  {
    hide NetworkModel.Inv, Runs.Run, Runs.Step, Runs.WellFormed, Runs.Peers, Leads, Shows, ClaimDialed, FreshID;
    ShownState(f, s, w);
    ShowsTables(f, s, w);
    if Verifies(s, ip, trackAll) && signed {
      var s1 := Claims(s, ip, trackAll, signed, reset, id);
      ShowsNext(f, s, w, DialClaim(ip, reset, id), s1);
      LeadsOne(f, w, DialClaim(ip, reset, id), s1);
    }
  }

  /** A dial stops, and its node's entry goes, once the tracker does not want the node. */
  lemma GiveUpRefines(f: Filter, s: Snapshot, w: Network, d: Dial)
    requires NetworkModel.Inv(w) && Shows(f, s, w) && AllIndexed(s.tracker.peers) && d in w.started
    ensures if WantsConnection(s.tracker.peers, d.node) then GivesUp(s, d.node) == s
            else Leads(f, w, [GiveUp(d)], GivesUp(s, d.node))
  {
    hide NetworkModel.Inv, Runs.Run, Runs.WellFormed, Leads, Shows, Stopped;
    ShownState(f, s, w);
    ShowsTables(f, s, w);
    if !WantsConnection(s.tracker.peers, d.node) {
      ShowsNext(f, s, w, GiveUp(d), GivesUp(s, d.node));
      LeadsOne(f, w, GiveUp(d), GivesUp(s, d.node));
    }
  }

  lemma CloseRefines(f: Filter, s: Snapshot, w: Network)
    requires NetworkModel.Inv(w) && Shows(f, s, w) && AllIndexed(s.tracker.peers)
    ensures Leads(f, w, [Close], Closes(s))
  {
    hide NetworkModel.Inv, Runs.Run, Runs.WellFormed, Leads, Shows, Closed;
    ShowsTables(f, s, w);
    ShowsNext(f, s, w, Close, Closes(s));
    LeadsOne(f, w, Close, Closes(s));
  }
}
