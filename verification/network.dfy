/**
 The network as the program has it: peer sets that keep a slice and an index map, the table of dials, and the IP
 tracker. Every handler is proved to take what these hold to what NetworkHandlers says, and so to perform a sequence
 of NetworkModel's actions.
 */
module Network {
  import opened Wrappers
  import opened IPTrackerModel
  import opened IPBloomModel
  import opened IPTracker
  import opened NetworkModel
  import opened PeerSets
  import Handlers = NetworkHandlers
  import Runs = IPTrackerRuns

  /** Which of the parts that a network needs beside its tracker could be made. */
  datatype Parts = Parts(inboundThrottler: bool, outboundThrottler: bool, peerMetrics: bool, networkMetrics: bool)

  class Network {
    const me: NodeID
    const validatorsOnly: bool
    const ipTracker: Tracker
    const connectingPeers: PeerSet
    const connectedPeers: PeerSet
    var trackedIPs: map<NodeID, Dial>
    var stopped: set<Dial>
    var closing: bool
    var asked: set<Peer>
    var notices: seq<Notice>

    /** The tracker's objects. */
    ghost function TrackerObjects(): set<object>
      reads ipTracker
    {
      {ipTracker, ipTracker.numTrackedPeers, ipTracker.numGossipableIPs, ipTracker.numTrackedSubnets} +
      ipTracker.subnet.Values
    }

    ghost predicate Shaped()
      reads connectingPeers, connectedPeers
    {
      connectingPeers != connectedPeers && connectingPeers.Valid() && connectedPeers.Valid()
    }

    ghost function Lists(): Tables
      requires Shaped()
      reads this`trackedIPs, this`stopped, this`closing, this`asked, connectingPeers, connectedPeers
    {
      Tables(connectingPeers.Contents(), connectedPeers.Contents(), trackedIPs, stopped, closing, asked)
    }

    ghost function Value(): Handlers.Snapshot
      requires Shaped()
      reads this, connectingPeers, connectedPeers, ipTracker, ipTracker.subnet.Values
    {
      Handlers.Snapshot(Lists(), ipTracker.Value(), notices)
    }

    ghost predicate Valid()
      reads this, connectingPeers, connectedPeers, TrackerObjects()
    {
      Shaped() && ipTracker.Valid() && Handlers.Agrees(Value())
    }

    constructor (me: NodeID, validatorsOnly: bool, ipTracker: Tracker)
      requires ipTracker.Valid() && ipTracker.connected == map[]
      ensures Valid() && Value() == Handlers.Snapshot(Start(me, ipTracker.cfg).tables, ipTracker.Value(), [])
      ensures this.me == me && this.ipTracker == ipTracker && fresh(connectingPeers) && fresh(connectedPeers)
    {
      hide IPTrackerModel.Inv, Tracker.Separate, Tracker.Counted, Tracker.Subnets, Tracker.BloomValue;
      this.me, this.validatorsOnly, this.ipTracker := me, validatorsOnly, ipTracker;
      connectingPeers := new PeerSet();
      connectedPeers := new PeerSet();
      trackedIPs, stopped, closing, asked, notices := map[], {}, false, {}, [];
    }

    /** There is a network if all its parts can be made and it does not track the primary network as a subnet. */
    static method New(me: NodeID, cfg: Config, validatorsOnly: bool, hash: (GossipID, Salt) -> set<int>, parts: Parts,
        registered: bool, entropy: Option<Entropy>) returns (r: Option<Network>)
      ensures r.Some? <==>
        PRIMARY_NETWORK !in cfg.trackedSubnets && parts == Parts(true, true, true, true) && registered && entropy.Some?
      ensures r.Some? ==> fresh(r.value) && r.value.Valid() && r.value.me == me
      ensures r.Some? ==> Handlers.Shows(Handlers.Filter(hash, entropy.value.salt), r.value.Value(), Start(me, cfg))
    {
      if PRIMARY_NETWORK in cfg.trackedSubnets {
        return None;
      }
      if !parts.inboundThrottler || !parts.outboundThrottler || !parts.peerMetrics || !parts.networkMetrics {
        return None;
      }
      var tracker := Tracker.New(cfg, hash, registered, entropy);
      if tracker.None? {
        return None;
      }
      assert tracker.value.Peers().connected == map[];
      var network := new Network(me, validatorsOnly, tracker.value);
      return Some(network);
    }

    // -------------------------------------------------------------------------------------
    // The tables.
    // -------------------------------------------------------------------------------------

    method StopDialing(n: NodeID)
      requires Shaped()
      modifies this`trackedIPs, this`stopped
      ensures Lists() == Stopped(old(Lists()), n)
    {
      if n in trackedIPs {
        stopped := stopped + {trackedIPs[n]};
        trackedIPs := trackedIPs - {n};
      }
    }

    method Redial(dial: Dial)
      requires Shaped()
      modifies this`trackedIPs, this`stopped
      ensures Lists() == Redialed(old(Lists()), dial)
    {
      if dial.node in trackedIPs {
        stopped := stopped + {trackedIPs[dial.node]};
      }
      trackedIPs := trackedIPs[dial.node := dial];
      assert trackedIPs == (old(trackedIPs) - {dial.node})[dial.node := dial];
    }

    method MovePeer(peer: Peer)
      requires Shaped() && peer.node in connectingPeers.Contents() && connectingPeers.Contents()[peer.node] == peer
      modifies this`trackedIPs, this`stopped, connectingPeers, connectedPeers
      ensures Shaped() && Lists() == Promoted(old(Lists()), peer.node)
    {
      StopDialing(peer.node);
      connectingPeers.Remove(peer.node);
      connectedPeers.Add(peer);
    }

    // -------------------------------------------------------------------------------------
    // The handlers.
    // -------------------------------------------------------------------------------------

    method AllowConnection(n: NodeID, weValidate: bool) returns (allowed: bool)
      requires Shaped()
      ensures allowed <==> !validatorsOnly || weValidate || WantsConnection(ipTracker.Peers(), n)
    {
      if !validatorsOnly {
        return true;
      }
      var wanted := ipTracker.WantsConnection(n);
      return weValidate || wanted;
    }

    method AddPeer(peer: Peer) returns (added: bool)
      requires Shaped()
      modifies connectingPeers
      ensures Shaped() && (added <==> !closing && peer.node !in old(Lists()).connecting + old(Lists()).connected)
      ensures Lists() == if added then old(Lists()).(connecting := old(Lists()).connecting[peer.node := peer])
                         else old(Lists())
    {
      if closing {
        return false;
      }
      var connecting := connectingPeers.GetByID(peer.node);
      if connecting.Some? {
        return false;
      }
      var connected := connectedPeers.GetByID(peer.node);
      if connected.Some? {
        return false;
      }
      connectingPeers.Add(peer);
      return true;
    }

    /** A new peer is listed exactly if its node is allowed and can be added. */
    method Upgrade(peer: Peer, weValidate: bool) returns (added: bool)
      requires Valid() && peer.ip.node == peer.node
      modifies connectingPeers
      ensures Valid()
      ensures var allowed := Handlers.Allows(old(Value()), validatorsOnly, weValidate, peer.node);
        Value() == Handlers.Upgraded(old(Value()), me, allowed, peer)
      ensures added <==>
        && (!validatorsOnly || weValidate || WantsConnection(ipTracker.Peers(), peer.node))
        && peer.node != me && !closing
        && peer.node !in old(Lists()).connecting && peer.node !in old(Lists()).connected
      ensures Lists().connecting ==
        if added then old(Lists()).connecting[peer.node := peer] else old(Lists()).connecting
    {
      hide IPTrackerModel.Inv, Tracker.Separate, Tracker.Counted, Handlers.Agrees, PeerSet.Contents, PeerSet.Valid;
      ghost var s := Value();
      if peer.node == me {
        return false;
      }
      var allowed := AllowConnection(peer.node, weValidate);
      Handlers.UpgradedAgrees(s, me, allowed, peer);
      if !allowed {
        return false;
      }
      added := AddPeer(peer);
    }

    /** The router hears of the primary network, then of every subnet that this node and the peer share. */
    method TellRouter(peer: Peer) returns (ghost order: seq<SubnetID>)
      modifies this`notices
      ensures Handlers.Visits(order, ipTracker.cfg.trackedSubnets * peer.subnets)
      ensures notices == old(notices) + Handlers.Notices(peer.node, [PRIMARY_NETWORK] + order)
    {
      notices := notices + [Connects(peer.node, PRIMARY_NETWORK)];
      order := [];
      var rest := ipTracker.cfg.trackedSubnets;
      while rest != {}
        invariant rest <= ipTracker.cfg.trackedSubnets
        invariant Handlers.Visits(order, ipTracker.cfg.trackedSubnets * peer.subnets - rest)
        invariant notices == old(notices) + Handlers.Notices(peer.node, [PRIMARY_NETWORK] + order)
        decreases rest
      {
        var s :| s in rest;
        if s in peer.subnets {
          notices := notices + [Connects(peer.node, s)];
          order := order + [s];
        }
        rest := rest - {s};
      }
    }

    method TellConnected(peer: Peer, entropy: Option<Entropy>) returns (ghost order: seq<SubnetID>)
      requires ipTracker.Valid() && peer.ip.node !in ipTracker.connected
      modifies this`notices, TrackerObjects()
      ensures ipTracker.Valid() && Handlers.Visits(order, ipTracker.cfg.trackedSubnets * peer.subnets)
      ensures notices == old(notices) + Handlers.Notices(peer.node, [PRIMARY_NETWORK] + order)
      ensures ipTracker.Value() ==
        Runs.Step(old(ipTracker.Value()), Runs.Connect(peer.ip, peer.subnets, old(ipTracker.Outcome(entropy))))
      ensures ipTracker.connected == old(ipTracker.connected)[peer.ip.node := ConnectedNode(peer.subnets, peer.ip)]
    {
      hide IPTrackerModel.Inv, Tracker.Separate, Tracker.Counted, Runs.Step, Handlers.Visits, Handlers.Notices;
      ipTracker.Connected(peer.ip, peer.subnets, entropy);
      order := TellRouter(peer);
    }

    lemma TrackerIsIndexed()
      requires ipTracker.Valid()
      ensures AllIndexed(ipTracker.Peers())
    {
      IsIndexed(ipTracker.Peers());
    }

    method MoveAndTell(peer: Peer, entropy: Option<Entropy>) returns (ghost order: seq<SubnetID>)
      requires Shaped() && ipTracker.Valid()
      requires peer.node in Lists().connecting && Lists().connecting[peer.node] == peer
      requires peer.ip.node !in ipTracker.connected
      modifies this`trackedIPs, this`stopped, this`notices, connectingPeers, connectedPeers, TrackerObjects()
      ensures Shaped() && ipTracker.Valid() && Lists() == Promoted(old(Lists()), peer.node)
      ensures ipTracker.Value() ==
        Runs.Step(old(ipTracker.Value()), Runs.Connect(peer.ip, peer.subnets, old(ipTracker.Outcome(entropy))))
      ensures ipTracker.connected == old(ipTracker.connected)[peer.ip.node := ConnectedNode(peer.subnets, peer.ip)]
      ensures Handlers.Visits(order, ipTracker.cfg.trackedSubnets * peer.subnets)
      ensures notices == old(notices) + Handlers.Notices(peer.node, [PRIMARY_NETWORK] + order)
    {
      hide Tracker.Valid, Tracker.Subnets, Tracker.BloomValue, Runs.Step, PeerSet.Contents, PeerSet.Valid, Promoted,
        Handlers.Visits, Handlers.Notices;
      MovePeer(peer);
      order := TellConnected(peer, entropy);
    }

    /** The peer that finished its handshake is moved; the tracker is told, and the router of every shared subnet. */
    method Connected(n: NodeID, entropy: Option<Entropy>) returns (ghost order: seq<SubnetID>)
      requires Valid()
      modifies this`trackedIPs, this`stopped, this`notices, connectingPeers, connectedPeers, TrackerObjects()
      ensures Valid() && Value() == Handlers.OnConnected(old(Value()), n, old(ipTracker.Outcome(entropy)), order)
      ensures n in old(Lists()).connecting ==>
        Handlers.Visits(order, ipTracker.cfg.trackedSubnets * old(Lists()).connecting[n].subnets)
      ensures var before, after := old(Lists()), Lists();
        if n !in before.connecting then after == before
        else
          && after.connecting == before.connecting - {n}
          && after.connected == before.connected[n := before.connecting[n]]
          && after.dials == before.dials - {n}
          && (n in before.dials ==> before.dials[n] in after.stopped)
          && n in ipTracker.connected
          && ipTracker.connected[n] == ConnectedNode(before.connecting[n].subnets, before.connecting[n].ip)
    {
      hide Tracker.Valid, AllIndexed, Runs.Step, PeerSet.Contents, PeerSet.Valid, Promoted, Handlers.Agrees,
        Handlers.Visits, Handlers.Notices;
      ghost var s, reset := Value(), ipTracker.Outcome(entropy);
      TrackerIsIndexed();
      order := [];
      Handlers.OnConnectedAgrees(s, n, reset, order);
      var peer := connectingPeers.GetByID(n);
      if peer.None? {
        return;
      }
      Handlers.AgreesOn(s, n);
      PromotedMoves(s.tables, n);
      order := MoveAndTell(peer.value, entropy);
      Handlers.OnConnectedAgrees(s, n, reset, order);
    }

    method RemoveConnecting(n: NodeID, id: int)
      requires Shaped()
      modifies this`trackedIPs, this`stopped, connectingPeers
      ensures Shaped() && Value() == Handlers.LeavesConnecting(old(Value()), n, id)
    {
      hide PeerSet.Contents, PeerSet.Valid, Tracker.Subnets, Tracker.BloomValue;
      connectingPeers.Remove(n);
      if n in trackedIPs {
        var wanted := ipTracker.WantsConnection(n);
        if wanted {
          Redial(Dial(id, n, trackedIPs[n].addr));
        } else {
          StopDialing(n);
        }
      }
    }

    method TellDisconnected(n: NodeID)
      requires ipTracker.Valid()
      modifies this`notices, TrackerObjects()
      ensures ipTracker.Valid() && notices == old(notices) + [Disconnects(n)]
      ensures ipTracker.Value() == Runs.Step(old(ipTracker.Value()), Runs.Disconnect(n))
    {
      hide IPTrackerModel.Inv, Tracker.Separate, Tracker.Counted, Runs.Step;
      ipTracker.Disconnected(n);
      notices := notices + [Disconnects(n)];
    }

    method RemoveConnected(n: NodeID, id: int)
      requires Shaped()
      modifies this`trackedIPs, connectedPeers
      ensures Shaped() && ipTracker.Value() == old(ipTracker.Value())
      ensures Lists() == ConnectedDropped(old(Lists()), n, WantedAddress(ipTracker.Value().peers, n), id)
    {
      hide PeerSet.Contents, PeerSet.Valid, Tracker.Subnets, Tracker.BloomValue;
      connectedPeers.Remove(n);
      var ip, wanted := ipTracker.GetIP(n);
      if wanted {
        trackedIPs := trackedIPs[n := Dial(id, n, ip.value.addr)];
      }
    }

    method DisconnectedFromConnecting(n: NodeID, id: int)
      requires Valid()
      modifies this`trackedIPs, this`stopped, connectingPeers
      ensures Valid() && Value() == Handlers.LeavesConnecting(old(Value()), n, id)
      ensures n in trackedIPs <==> n in old(trackedIPs) && WantsConnection(ipTracker.Peers(), n)
      ensures n in trackedIPs ==> trackedIPs[n] == Dial(id, n, old(trackedIPs)[n].addr)
      ensures n in old(trackedIPs) ==> old(trackedIPs)[n] in stopped
      ensures trackedIPs - {n} == old(trackedIPs) - {n}
      ensures Lists().connecting == old(Lists()).connecting - {n} && Lists().connected == old(Lists()).connected
    {
      hide IPTrackerModel.Inv, Tracker.Separate, Tracker.Counted, Tracker.Subnets, Tracker.BloomValue,
        PeerSet.Contents, PeerSet.Valid, Handlers.Agrees;
      Handlers.LeavesConnectingAgrees(Value(), n, id);
      RemoveConnecting(n, id);
    }

    method TellAndRemove(n: NodeID, id: int)
      requires Shaped() && ipTracker.Valid()
      modifies this`trackedIPs, this`notices, connectedPeers, TrackerObjects()
      ensures Shaped() && ipTracker.Valid() && Value() == Handlers.LeavesConnected(old(Value()), n, id)
    {
      hide IPTrackerModel.Inv, Tracker.Separate, Tracker.Counted, Tracker.Subnets, Tracker.BloomValue, Runs.Step,
        PeerSet.Contents, PeerSet.Valid, ConnectedDropped, WantedAddress;
      IsIndexed(ipTracker.Peers());
      TellDisconnected(n);
      RemoveConnected(n, id);
    }

    method DisconnectedFromConnected(n: NodeID, id: int)
      requires Valid()
      modifies this`trackedIPs, this`notices, connectedPeers, TrackerObjects()
      ensures Valid() && Value() == Handlers.LeavesConnected(old(Value()), n, id)
      ensures if WantsConnection(ipTracker.Peers(), n) && Known(ipTracker.tracked, n)
              then trackedIPs == old(trackedIPs)[n := Dial(id, n, ipTracker.tracked[n].ip.value.addr)]
              else trackedIPs == old(trackedIPs)
      ensures Lists().connected == old(Lists()).connected - {n} && Lists().connecting == old(Lists()).connecting
      ensures notices == old(notices) + [Disconnects(n)]
    {
      hide IPTrackerModel.Inv, Tracker.Separate, Tracker.Counted, Tracker.Subnets, Tracker.BloomValue,
        PeerSet.Contents, PeerSet.Valid, Handlers.Agrees, Runs.Step;
      IsIndexed(ipTracker.Peers());
      Handlers.LeavesConnectedAgrees(Value(), n, id);
      TellAndRemove(n, id);
    }

    /** A peer that goes is dropped from the set that lists it; the tracker and the router hear of a connected one. */
    method Disconnected(n: NodeID, id: int)
      requires Valid()
      modifies this`trackedIPs, this`stopped, this`notices, connectingPeers, connectedPeers, TrackerObjects()
      ensures Valid() && Value() == Handlers.OnDisconnected(old(Value()), n, id)
    {
      hide IPTrackerModel.Inv, Tracker.Separate, Tracker.Counted, Tracker.Subnets, Tracker.BloomValue,
        PeerSet.Contents, PeerSet.Valid, Handlers.Agrees, Handlers.LeavesConnected, ConnectingDropped;
      IsIndexed(ipTracker.Peers());
      var connecting := connectingPeers.GetByID(n);
      var connected := connectedPeers.GetByID(n);
      if connecting.Some? {
        DisconnectedFromConnecting(n, id);
      }
      if connected.Some? {
        DisconnectedFromConnected(n, id);
      }
    }

    method DialManually(dial: Dial)
      requires Shaped()
      modifies this`trackedIPs, this`stopped
      ensures Shaped() && Lists() == ManuallyDialed(old(Lists()), dial)
    {
      var connected := connectedPeers.GetByID(dial.node);
      if connected.Some? || dial.node in trackedIPs {
        return;
      }
      Redial(dial);
    }

    method TrackAndDial(n: NodeID, addr: int, entropy: Option<Entropy>, id: int)
      requires Shaped() && ipTracker.Valid()
      modifies this`trackedIPs, this`stopped, TrackerObjects()
      ensures Shaped() && ipTracker.Valid()
      ensures Value() == Handlers.TracksManually(old(Value()), n, addr, old(ipTracker.Outcome(entropy)), id)
    {
      hide IPTrackerModel.Inv, Tracker.Separate, Tracker.Counted, Tracker.Subnets, Tracker.BloomValue, Runs.Step,
        PeerSet.Contents, PeerSet.Valid, ManuallyDialed;
      IsIndexed(ipTracker.Peers());
      ipTracker.ManuallyTrack(n, entropy);
      DialManually(Dial(id, n, addr));
    }

    /** The operator wants the node: the tracker is told, and the node is dialed unless connected or being dialed. */
    method ManuallyTrack(n: NodeID, addr: int, entropy: Option<Entropy>, id: int)
      requires Valid()
      modifies this`trackedIPs, this`stopped, TrackerObjects()
      ensures Valid()
      ensures Value() == Handlers.TracksManually(old(Value()), n, addr, old(ipTracker.Outcome(entropy)), id)
      ensures WantsConnection(ipTracker.Peers(), n)
      ensures trackedIPs == if n in Lists().connected || n in old(trackedIPs) then old(trackedIPs)
                            else old(trackedIPs)[n := Dial(id, n, addr)]
    {
      hide IPTrackerModel.Inv, Tracker.Separate, Tracker.Counted, Tracker.Subnets, Tracker.BloomValue,
        PeerSet.Contents, PeerSet.Valid, Handlers.Agrees;
      IsIndexed(ipTracker.Peers());
      Handlers.TracksManuallyAgrees(Value(), n, addr, ipTracker.Outcome(entropy), id);
      TrackAndDial(n, addr, entropy, id);
    }

    method DialClaimed(wanted: bool, dial: Dial)
      requires Shaped()
      modifies this`trackedIPs, this`stopped
      ensures Shaped() && Lists() == ClaimDialed(old(Lists()), wanted, dial)
    {
      if !wanted {
        return;
      }
      var connected := connectedPeers.GetByID(dial.node);
      if connected.Some? {
        return;
      }
      Redial(dial);
    }

    method ClaimAndDial(ip: ClaimedIP, entropy: Option<Entropy>, id: int)
      requires Shaped() && ipTracker.Valid() && IsNewest(ipTracker.Peers(), ip)
      modifies this`trackedIPs, this`stopped, TrackerObjects()
      ensures Shaped() && ipTracker.Valid()
      ensures Value() == Handlers.Claims(old(Value()), ip, true, true, old(ipTracker.Outcome(entropy)), id)
    {
      hide IPTrackerModel.Inv, Tracker.Separate, Tracker.Counted, Tracker.Subnets, Tracker.BloomValue, Runs.Step,
        PeerSet.Contents, PeerSet.Valid, ClaimDialed;
      IsIndexed(ipTracker.Peers());
      ClaimKeepsWishes(ipTracker.Value(), ip, ipTracker.Outcome(entropy));
      var dial := ipTracker.AddIP(ip, entropy);
      DialClaimed(dial, Dial(id, ip.node, ip.addr));
    }

    /** An IP somebody claims: if it may be needed and is signed, the tracker is told, and a wanted node is dialed. */
    method Track(ip: ClaimedIP, trackAllSubnets: bool, signed: bool, entropy: Option<Entropy>, id: int)
        returns (ok: bool)
      requires Valid()
      modifies this`trackedIPs, this`stopped, TrackerObjects()
      ensures Valid() && Value() ==
        Handlers.Claims(old(Value()), ip, trackAllSubnets, signed, old(ipTracker.Outcome(entropy)), id)
      ensures var tracked, wanted := old(ipTracker.tracked), old(WantsConnection(ipTracker.Peers(), ip.node));
        var newer := ip.node in tracked &&
                     (tracked[ip.node].ip.None? || tracked[ip.node].ip.value.timestamp < ip.timestamp);
        && (ok <==> signed || !newer || !(trackAllSubnets || wanted))
        && trackedIPs == (if signed && newer && wanted && ip.node !in Lists().connected
                          then old(trackedIPs)[ip.node := Dial(id, ip.node, ip.addr)] else old(trackedIPs))
    {
      hide IPTrackerModel.Inv, Tracker.Separate, Tracker.Counted, Tracker.Subnets, Tracker.BloomValue,
        PeerSet.Contents, PeerSet.Valid, Handlers.Agrees, Runs.Step, ClaimDialed;
      IsIndexed(ipTracker.Peers());
      Handlers.ClaimsAgrees(Value(), ip, trackAllSubnets, signed, ipTracker.Outcome(entropy), id);
      ClaimReplacesDial(Lists(), WantsConnection(ipTracker.Peers(), ip.node), Dial(id, ip.node, ip.addr));
      var verify := ipTracker.ShouldVerifyIP(ip, trackAllSubnets);
      if !verify {
        return true;
      }
      if !signed {
        return false;
      }
      ClaimAndDial(ip, entropy, id);
      return true;
    }

    /** One round of a dial: it goes on while its node is wanted and not listed; an unwanted node's entry goes. */
    method DialOnce(n: NodeID) returns (again: bool)
      requires Valid()
      modifies this`trackedIPs, this`stopped
      ensures Valid() && Value() == Handlers.GivesUp(old(Value()), n)
      ensures trackedIPs == if WantsConnection(ipTracker.Peers(), n) then old(trackedIPs) else old(trackedIPs) - {n}
      ensures again <==>
        WantsConnection(Value().tracker.peers, n) && n !in Lists().connecting && n !in Lists().connected
    {
      hide IPTrackerModel.Inv, Tracker.Separate, Tracker.Counted, Tracker.Subnets, Tracker.BloomValue,
        PeerSet.Contents, PeerSet.Valid;
      var wanted := ipTracker.WantsConnection(n);
      if !wanted {
        StopDialing(n);
        return false;
      }
      var connecting := connectingPeers.GetByID(n);
      var connected := connectedPeers.GetByID(n);
      return connecting.None? && connected.None?;
    }

    method StopAllDials()
      modifies this`trackedIPs, this`stopped
      ensures trackedIPs == map[] && stopped == old(stopped) + old(trackedIPs).Values
    {
      while trackedIPs.Keys != {}
        invariant stopped + trackedIPs.Values == old(stopped) + old(trackedIPs).Values
        decreases trackedIPs.Keys
      {
        ghost var before := trackedIPs;
        var n :| n in trackedIPs.Keys;
        stopped := stopped + {trackedIPs[n]};
        trackedIPs := trackedIPs - {n};
        ValuesSplit(before, n);
      }
      assert trackedIPs == map[];
      assert trackedIPs.Values == {} && stopped + {} == stopped;
    }

    method AskAll(peers: PeerSet)
      requires peers.Valid()
      modifies this`asked
      ensures asked == old(asked) + peers.Contents().Values
    {
      for i := 0 to |peers.peersSlice|
        invariant asked == old(asked) + set p | p in peers.peersSlice[..i]
      {
        var peer := peers.GetByIndex(i);
        asked := asked + {peer.value};
        assert peers.peersSlice[..i + 1] == peers.peersSlice[..i] + [peers.peersSlice[i]];
      }
      assert peers.peersSlice[..|peers.peersSlice|] == peers.peersSlice;
      SliceHoldsListed(peers.peersMap, peers.peersSlice);
    }

    /** Once: no peer is added from now on, all dials are stopped and all listed peers are told to close. */
    method StartClose()
      requires Valid()
      modifies this`trackedIPs, this`stopped, this`closing, this`asked
      ensures Valid() && Value() == Handlers.Closes(old(Value())) && closing
      ensures old(closing) ==> Value() == old(Value())
      ensures !old(closing) ==> trackedIPs == map[] && old(trackedIPs).Values <= stopped &&
                                Lists().connecting.Values <= asked && Lists().connected.Values <= asked
    {
      hide Tracker.Valid, IPTrackerModel.Inv, Tracker.Separate, Tracker.Counted, Tracker.Subnets, Tracker.BloomValue,
        PeerSet.Contents, PeerSet.Valid;
      if closing {
        return;
      }
      closing := true;
      StopAllDials();
      AskAll(connectingPeers);
      AskAll(connectedPeers);
    }
  }

  /** A promoted peer's node is connected and no longer dialed. */
  lemma PromotedMoves(t: Tables, n: NodeID)
    requires n in t.connecting
    ensures var t1 := Promoted(t, n);
      && t1.connecting == t.connecting - {n}
      && t1.connected == t.connected[n := t.connecting[n]]
      && t1.dials == t.dials - {n}
      && (n in t.dials ==> t.dials[n] in t1.stopped)
  {
  }

  lemma ClaimReplacesDial(t: Tables, wanted: bool, d: Dial)
    ensures ClaimDialed(t, wanted, d).dials ==
      if wanted && d.node !in t.connected then t.dials[d.node := d] else t.dials
    ensures ClaimDialed(t, wanted, d).connected == t.connected
  {
    assert (t.dials - {d.node})[d.node := d] == t.dials[d.node := d];
  }

  lemma ValuesSplit(m: map<NodeID, Dial>, n: NodeID)
    requires n in m
    ensures m.Values == (m - {n}).Values + {m[n]}
  {
    forall d | d in m.Values
      ensures d in (m - {n}).Values + {m[n]}
    {
      var k :| k in m && m[k] == d;
      assert k == n || k in m - {n};
    }
  }

  /** A claim does not change which connections are wanted. */
  lemma ClaimKeepsWishes(t: Runs.Tracker, ip: ClaimedIP, reset: Reset)
    requires AllIndexed(t.peers)
    ensures WantsConnection(Runs.Step(t, Runs.Claim(ip, reset)).peers, ip.node) <==> WantsConnection(t.peers, ip.node)
  {
  }
}
