/**
 The life cycle of connections as an interleaving of the network's critical sections. A peer object runs through
 the phases below; what the IP tracker and the message router are told is kept as two logs, and the tracker answers
 as its history says.
 */
module NetworkModel {
  import opened Wrappers
  import opened IPTrackerModel
  import IPBloomModel
  import Runs = IPTrackerRuns

  /** One peer object; a node has a new one for every connection. Its handshake tells its IP and subnets. */
  datatype Peer = Peer(id: int, node: NodeID, ip: ClaimedIP, subnets: set<SubnetID>)

  /** One goroutine's standing order to dial a node. */
  datatype Dial = Dial(id: int, node: NodeID, addr: int)

  // ---------------------------------------------------------------------------------------
  // The tables guarded by the peers lock, and each critical section's effect on them.
  // ---------------------------------------------------------------------------------------

  datatype Tables = Tables(
    connecting: map<NodeID, Peer>,
    connected: map<NodeID, Peer>,
    dials: map<NodeID, Dial>,
    stopped: set<Dial>,
    closing: bool,
    asked: set<Peer>)       // peers told to close

  predicate CanAdd(t: Tables, me: NodeID, n: NodeID) {
    n != me && !t.closing && n !in t.connecting && n !in t.connected
  }

  function Stopped(t: Tables, n: NodeID): Tables {
    if n in t.dials then t.(dials := t.dials - {n}, stopped := t.stopped + {t.dials[n]}) else t
  }

  function Promoted(t: Tables, n: NodeID): Tables
    requires n in t.connecting
  {
    Stopped(t, n).(connecting := t.connecting - {n}, connected := t.connected[n := t.connecting[n]])
  }

  function Redialed(t: Tables, d: Dial): Tables {
    var t1 := Stopped(t, d.node);
    t1.(dials := t1.dials[d.node := d])
  }

  /** A wanted node is dialed again at the address that was being dialed. */
  function ConnectingDropped(t: Tables, n: NodeID, wanted: bool, id: int): Tables {
    var t1 := t.(connecting := t.connecting - {n});
    if n !in t.dials then t1
    else if wanted then Redialed(t1, Dial(id, n, t.dials[n].addr))
    else Stopped(t1, n)
  }

  // The table entry is overwritten here, not stopped.
  function ConnectedDropped(t: Tables, n: NodeID, addr: Option<int>, id: int): Tables {
    t.(connected := t.connected - {n}, dials := if addr.Some? then t.dials[n := Dial(id, n, addr.value)] else t.dials)
  }

  function ManuallyDialed(t: Tables, d: Dial): Tables {
    if d.node in t.connected || d.node in t.dials then t else Redialed(t, d)
  }

  function ClaimDialed(t: Tables, wanted: bool, d: Dial): Tables {
    if !wanted || d.node in t.connected then t else Redialed(t, d)
  }

  /** Closing happens once; it stops all dials and tells all peers to close. */
  function Closed(t: Tables): Tables {
    if t.closing then t
    else t.(closing := true, stopped := t.stopped + t.dials.Values, dials := map[],
            asked := t.asked + t.connecting.Values + t.connected.Values)
  }

  // ---------------------------------------------------------------------------------------
  // Peer objects and the actions of all goroutines.
  // ---------------------------------------------------------------------------------------

  datatype Phase =
    | Handshaking                                         // started, listed as connecting
    | Moved(found: Peer)                                  // Connected moved the peer it found
    | Announced                                           // and told the tracker
    | Live(told: set<SubnetID>)                           // and the router, also of these shared subnets
    | Leaving(wasConnecting: bool, wasConnected: bool)    // Disconnected looked its node up
    | Forgotten                                           // and told the tracker
    | Unrouted                                            // and told the router
    | Gone                                                // Disconnected returned
    | Stray                                               // Connected found no peer

  datatype Notice = Connects(node: NodeID, subnet: SubnetID) | Disconnects(node: NodeID)

  datatype Network = Network(
    me: NodeID,
    cfg: Config,
    tables: Tables,
    phases: map<Peer, Phase>,
    started: set<Dial>,
    tracker: seq<Runs.Event>,
    router: seq<Notice>)

  /** The numbers in actions name the dials that may be started. */
  datatype Action =
    | Upgrade(peer: Peer)
    | Promote(peer: Peer)
    | TellTracker(peer: Peer, reset: IPBloomModel.Reset)
    | TellRouter(peer: Peer)
    | TellSubnet(peer: Peer, subnet: SubnetID)
    | LookUp(peer: Peer)
    | DropConnecting(peer: Peer, id: int)
    | UntellTracker(peer: Peer)
    | UntellRouter(peer: Peer)
    | DropConnected(peer: Peer, id: int)
    | DialManually(node: NodeID, addr: int, id: int)
    | DialClaim(ip: ClaimedIP, reset: IPBloomModel.Reset, id: int)
    | GiveUp(dial: Dial)
    | TrackerEvent(event: Runs.Event)
    | Close

  /** The address at which a tracker wants a connection to the node, if it does. */
  function WantedAddress(st: State, n: NodeID): Option<int> {
    if WantsConnection(st, n) && st.tracked[n].ip.Some? then Some(st.tracked[n].ip.value.addr) else None
  }

  /** The tracker wants a connection to the node. */
  ghost predicate Wants(cfg: Config, log: seq<Runs.Event>, n: NodeID) {
    Runs.WellFormed(log) && WantsConnection(Runs.Peers(cfg, log), n)
  }

  ghost function WantedAt(cfg: Config, log: seq<Runs.Event>, n: NodeID): Option<int> {
    if Runs.WellFormed(log) then WantedAddress(Runs.Peers(cfg, log), n) else None
  }

  /** The IP is new to the tracker, and the tracker wants a connection to its node. */
  ghost predicate WantsNew(cfg: Config, log: seq<Runs.Event>, ip: ClaimedIP) {
    Wants(cfg, log, ip.node) && IsNewest(Runs.Peers(cfg, log), ip)
  }

  /** The subnets the router hears of beside the primary network: those this node tracks and the peer syncs. */
  function CommonSubnets(cfg: Config, p: Peer): set<SubnetID> {
    cfg.trackedSubnets * p.subnets
  }

  predicate In(w: Network, p: Peer, ph: Phase) {
    p in w.phases && w.phases[p] == ph
  }

  ghost predicate FreshID(started: set<Dial>, id: int) {
    forall d :: d in started ==> d.id != id
  }

  /** A peer object reports Connected at most once, and that before its one Disconnected. */
  ghost predicate Enabled(w: Network, a: Action) {
    match a
    case Upgrade(p) => p !in w.phases && CanAdd(w.tables, w.me, p.node) && p.ip.node == p.node
    case Promote(p) => In(w, p, Handshaking)
    case TellTracker(p, _) => p in w.phases && w.phases[p].Moved?
    case TellRouter(p) => In(w, p, Announced)
    case TellSubnet(p, s) => p in w.phases && w.phases[p].Live? && s in CommonSubnets(w.cfg, p) - w.phases[p].told
    case LookUp(p) => In(w, p, Handshaking) || In(w, p, Live(CommonSubnets(w.cfg, p))) || In(w, p, Stray)
    case DropConnecting(p, id) =>
      p in w.phases && w.phases[p].Leaving? && w.phases[p].wasConnecting && FreshID(w.started, id)
    case UntellTracker(p) => In(w, p, Leaving(false, true))
    case UntellRouter(p) => In(w, p, Forgotten)
    case DropConnected(p, id) => In(w, p, Unrouted) && FreshID(w.started, id)
    case DialManually(_, _, id) => FreshID(w.started, id)
    case DialClaim(_, _, id) => FreshID(w.started, id)
    case GiveUp(d) => d in w.started && !Wants(w.cfg, w.tracker, d.node)
    case TrackerEvent(e) => !e.Connect? && !e.Disconnect?
    case Close => true
  }

  function PhaseStep(w: Network, a: Action): map<Peer, Phase>
    requires Enabled(w, a)
  {
    match a
    case Upgrade(p) => w.phases[p := Handshaking]
    case Promote(p) =>
      w.phases[p := if p.node in w.tables.connecting then Moved(w.tables.connecting[p.node]) else Stray]
    case TellTracker(p, _) => w.phases[p := Announced]
    case TellRouter(p) => w.phases[p := Live({})]
    case TellSubnet(p, s) => w.phases[p := Live(w.phases[p].told + {s})]
    case LookUp(p) => w.phases[p := Leaving(p.node in w.tables.connecting, p.node in w.tables.connected)]
    case DropConnecting(p, _) => w.phases[p := if w.phases[p].wasConnected then Leaving(false, true) else Gone]
    case UntellTracker(p) => w.phases[p := Forgotten]
    case UntellRouter(p) => w.phases[p := Unrouted]
    case DropConnected(p, _) => w.phases[p := Gone]
    case _ => w.phases
  }

  ghost function TablesStep(w: Network, a: Action): Tables
    requires Enabled(w, a)
  {
    match a
    case Upgrade(p) => w.tables.(connecting := w.tables.connecting[p.node := p])
    case Promote(p) => if p.node in w.tables.connecting then Promoted(w.tables, p.node) else w.tables
    case DropConnecting(p, id) => ConnectingDropped(w.tables, p.node, Wants(w.cfg, w.tracker, p.node), id)
    case DropConnected(p, id) => ConnectedDropped(w.tables, p.node, WantedAt(w.cfg, w.tracker, p.node), id)
    case DialManually(n, addr, id) => ManuallyDialed(w.tables, Dial(id, n, addr))
    case DialClaim(ip, _, id) =>
      ClaimDialed(w.tables, WantsNew(w.cfg, w.tracker, ip), Dial(id, ip.node, ip.addr))
    case GiveUp(d) => Stopped(w.tables, d.node)
    case Close => Closed(w.tables)
    case _ => w.tables
  }

  /** The event an action reports to the tracker. */
  function Told(w: Network, a: Action): Option<Runs.Event>
    requires Enabled(w, a)
  {
    match a
    case TellTracker(p, reset) => Some(Runs.Connect(w.phases[p].found.ip, w.phases[p].found.subnets, reset))
    case UntellTracker(p) => Some(Runs.Disconnect(p.node))
    case DialClaim(ip, reset, _) => Some(Runs.Claim(ip, reset))
    case TrackerEvent(e) => Some(e)
    case _ => None
  }

  /** The notice an action gives the router. */
  function Noticed(a: Action): Option<Notice> {
    match a
    case TellRouter(p) => Some(Connects(p.node, PRIMARY_NETWORK))
    case TellSubnet(p, s) => Some(Connects(p.node, s))
    case UntellRouter(p) => Some(Disconnects(p.node))
    case _ => None
  }

  function Append<T>(log: seq<T>, e: Option<T>): seq<T> {
    if e.Some? then log + [e.value] else log
  }

  ghost function Step(w: Network, a: Action): Network
    requires Enabled(w, a)
  {
    var tables := TablesStep(w, a);
    Network(w.me, w.cfg, tables, PhaseStep(w, a), w.started + tables.dials.Values,
            Append(w.tracker, Told(w, a)), Append(w.router, Noticed(a)))
  }

  function Start(me: NodeID, cfg: Config): Network {
    Network(me, cfg, Tables(map[], map[], map[], {}, false, {}), map[], {}, [], [])
  }

  // ---------------------------------------------------------------------------------------
  // The invariant.
  // ---------------------------------------------------------------------------------------

  /** The phases of a peer that is listed as connecting. */
  predicate IsConnecting(ph: Phase) {
    ph == Handshaking || ph == Leaving(true, false)
  }

  /** The phases of a peer that is listed as connected. */
  predicate IsConnected(ph: Phase) {
    ph.Moved? || ph == Announced || ph.Live? || ph == Leaving(false, true) || ph == Forgotten || ph == Unrouted
  }

  /** The phases in which the tracker holds the node for connected. */
  predicate IsTracked(ph: Phase) {
    ph == Announced || ph.Live? || ph == Leaving(false, true)
  }

  /** The subnets on which the router holds the node for connected in a phase. */
  function RouteIn(cfg: Config, p: Peer, ph: Phase): set<SubnetID> {
    if ph.Live? then ph.told + {PRIMARY_NETWORK}
    else if ph == Leaving(false, true) || ph == Forgotten then CommonSubnets(cfg, p) + {PRIMARY_NETWORK}
    else {}
  }

  /** A peer is listed exactly where its phase says. */
  ghost predicate PeerInv(connecting: map<NodeID, Peer>, connected: map<NodeID, Peer>, p: Peer, ph: Phase) {
    && (IsConnecting(ph) <==> p.node in connecting && connecting[p.node] == p)
    && (IsConnected(ph) <==> p.node in connected && connected[p.node] == p)
    && (IsConnecting(ph) || IsConnected(ph) || ph == Gone)
    && (ph.Moved? ==> ph.found == p)
    && p.ip.node == p.node
  }

  /** A listed peer is known, and listed under its own node, which is not this one. */
  ghost predicate ListInv(me: NodeID, list: map<NodeID, Peer>, phases: map<Peer, Phase>) {
    forall n :: n in list ==> n != me && list[n] in phases && list[n].node == n
  }

  /** The two peer sets are disjoint, hold at most one peer per node, never this node, and exactly those in flight. */
  ghost predicate RosterInv(me: NodeID, connecting: map<NodeID, Peer>, connected: map<NodeID, Peer>,
      phases: map<Peer, Phase>) {
    && (forall p :: p in phases ==> PeerInv(connecting, connected, p, phases[p]))
    && connecting.Keys !! connected.Keys
    && ListInv(me, connecting, phases)
    && ListInv(me, connected, phases)
  }

  ghost predicate PeersInv(w: Network) {
    RosterInv(w.me, w.tables.connecting, w.tables.connected, w.phases)
  }

  /** Once the network is closing, every peer still listed has been told to close. */
  ghost predicate CloseInv(t: Tables) {
    t.closing ==> t.connecting.Values <= t.asked && t.connected.Values <= t.asked
  }

  /** A dial is unstopped exactly while it is its node's entry; a node with an entry is not connected. */
  ghost predicate DialsInv(t: Tables, started: set<Dial>) {
    && (forall d :: d in started ==> (d !in t.stopped <==> d.node in t.dials && t.dials[d.node] == d))
    && (forall n :: n in t.dials ==> t.dials[n].node == n && t.dials[n] in started)
    && (forall n :: n in t.dials ==> n !in t.connected)
    && t.stopped <= started
  }

  /** What the tracker should hold: the subnets the node's connected peer syncs, between the two notices. */
  ghost function ExpectedSession(connected: map<NodeID, Peer>, phases: map<Peer, Phase>, n: NodeID)
    : Option<set<SubnetID>>
  {
    if n in connected && connected[n] in phases && IsTracked(phases[connected[n]])
    then Some(connected[n].subnets) else None
  }

  /** What the router should hold: the subnets it was told of since the node connected. */
  ghost function ExpectedRoute(cfg: Config, connected: map<NodeID, Peer>, phases: map<Peer, Phase>, n: NodeID)
    : set<SubnetID>
  {
    if n in connected && connected[n] in phases then RouteIn(cfg, connected[n], phases[connected[n]]) else {}
  }

  /** The subnets on which the notices since the last disconnection of `n` say it connected. */
  function RoutedOn(log: seq<Notice>, n: NodeID): set<SubnetID> {
    if log == [] then {}
    else if Runs.Last(log).node != n then RoutedOn(Runs.Init(log), n)
    else if Runs.Last(log).Disconnects? then {}
    else RoutedOn(Runs.Init(log), n) + {Runs.Last(log).subnet}
  }

  /**
   A notice may follow others that hold its node for connected on the subnets: a node connects on the primary network
   first, then on subnets this node tracks, once on each, and disconnects only while connected.
   */
  predicate MayFollow(cfg: Config, routed: set<SubnetID>, e: Notice) {
    match e
    case Connects(_, s) => if routed == {} then s == PRIMARY_NETWORK
                           else s in cfg.trackedSubnets && (s in routed ==> s == PRIMARY_NETWORK)
    case Disconnects(_) => routed != {}
  }

  ghost predicate Alternates(cfg: Config, log: seq<Notice>) {
    forall i :: 0 <= i < |log| ==> MayFollow(cfg, RoutedOn(log[..i], log[i].node), log[i])
  }

  /** A disconnection is reported only of a node reported connected. */
  ghost predicate ClosesOpen(log: seq<Runs.Event>) {
    forall i :: 0 <= i < |log| && log[i].Disconnect? ==> Runs.Session(log[..i], log[i].node).Some?
  }

  /** The tracker hears of every node's connections and disconnections in turn, and holds the open ones. */
  ghost predicate TrackerInv(w: Network) {
    && Runs.WellFormed(w.tracker)
    && ClosesOpen(w.tracker)
    && forall n :: Runs.Session(w.tracker, n) == ExpectedSession(w.tables.connected, w.phases, n)
  }

  ghost predicate RouterInv(w: Network) {
    && Alternates(w.cfg, w.router)
    && forall n :: RoutedOn(w.router, n) == ExpectedRoute(w.cfg, w.tables.connected, w.phases, n)
  }

  ghost predicate Inv(w: Network) {
    PeersInv(w) && CloseInv(w.tables) && DialsInv(w.tables, w.started) && TrackerInv(w) && RouterInv(w)
  }

  // ---------------------------------------------------------------------------------------
  // Every action keeps the peer sets.
  // ---------------------------------------------------------------------------------------

  lemma PhaseKeepsPeers(w: Network, p: Peer, ph: Phase)
    requires PeersInv(w) && p in w.phases
    requires IsConnecting(ph) == IsConnecting(w.phases[p]) && IsConnected(ph) == IsConnected(w.phases[p])
    requires IsConnecting(ph) || IsConnected(ph)
    requires ph.Moved? ==> ph.found == p
    ensures RosterInv(w.me, w.tables.connecting, w.tables.connected, w.phases[p := ph])
  {
  }

  lemma RosterAdds(me: NodeID, connecting: map<NodeID, Peer>, connected: map<NodeID, Peer>,
      phases: map<Peer, Phase>, p: Peer)
    requires RosterInv(me, connecting, connected, phases)
    requires p !in phases && p.node != me && p.node !in connecting && p.node !in connected && p.ip.node == p.node
    ensures RosterInv(me, connecting[p.node := p], connected, phases[p := Handshaking])
  {
  }

  lemma RosterMoves(me: NodeID, connecting: map<NodeID, Peer>, connected: map<NodeID, Peer>,
      phases: map<Peer, Phase>, p: Peer)
    requires RosterInv(me, connecting, connected, phases)
    requires p in phases && phases[p] == Handshaking
    ensures p.node in connecting && connecting[p.node] == p
    ensures RosterInv(me, connecting - {p.node}, connected[p.node := p], phases[p := Moved(p)])
  {
    assert IsConnecting(phases[p]);
  }

  lemma RosterDropsConnecting(me: NodeID, connecting: map<NodeID, Peer>, connected: map<NodeID, Peer>,
      phases: map<Peer, Phase>, p: Peer)
    requires RosterInv(me, connecting, connected, phases) && p in phases && IsConnecting(phases[p])
    ensures RosterInv(me, connecting - {p.node}, connected, phases[p := Gone])
  {
  }

  lemma RosterDropsConnected(me: NodeID, connecting: map<NodeID, Peer>, connected: map<NodeID, Peer>,
      phases: map<Peer, Phase>, p: Peer)
    requires RosterInv(me, connecting, connected, phases) && p in phases && IsConnected(phases[p])
    ensures RosterInv(me, connecting, connected - {p.node}, phases[p := Gone])
  {
  }

  /** Disconnected finds a peer in exactly the set that lists it. */
  lemma LookUpIsExact(w: Network, p: Peer)
    requires PeersInv(w) && Enabled(w, LookUp(p))
    ensures PhaseStep(w, LookUp(p))[p] == if w.phases[p].Live? then Leaving(false, true) else Leaving(true, false)
  {
    assert IsConnecting(w.phases[p]) || IsConnected(w.phases[p]);
    assert w.phases[p].Live? ==> IsConnected(w.phases[p]);
  }

  lemma PhaseIsListed(w: Network, p: Peer)
    requires PeersInv(w) && p in w.phases
    ensures PeerInv(w.tables.connecting, w.tables.connected, p, w.phases[p])
    ensures IsConnecting(w.phases[p]) ==> p.node !in w.tables.connected
  {
  }

  /** A peer that is leaving was found in exactly one of the sets. */
  lemma LeavingIsExact(w: Network, p: Peer)
    requires PeersInv(w) && p in w.phases && w.phases[p].Leaving?
    ensures w.phases[p] == Leaving(true, false) || w.phases[p] == Leaving(false, true)
  {
  }

  /** The actions that change no table. */
  predicate OnlyPhases(a: Action) {
    a.TellTracker? || a.TellRouter? || a.TellSubnet? || a.LookUp? || a.UntellTracker? || a.UntellRouter?
  }

  lemma PhasesKeepPeers(w: Network, a: Action)
    requires PeersInv(w) && Enabled(w, a) && OnlyPhases(a)
    ensures PeersInv(Step(w, a))
    ensures var ph := Step(w, a).phases[a.peer];
      && (IsConnecting(ph) <==> IsConnecting(w.phases[a.peer]))
      && (IsConnected(ph) <==> IsConnected(w.phases[a.peer]))
  {
    hide RosterInv;
    if a.LookUp? {
      LookUpIsExact(w, a.peer);
    }
    PhaseIsListed(w, a.peer);
    PhaseKeepsPeers(w, a.peer, PhaseStep(w, a)[a.peer]);
  }

  lemma StepKeepsPeers(w: Network, a: Action)
    requires PeersInv(w) && Enabled(w, a)
    ensures PeersInv(Step(w, a))
  {
    hide Wants, WantedAt, WantsNew, RosterInv;
    match a
    case Upgrade(p) => RosterAdds(w.me, w.tables.connecting, w.tables.connected, w.phases, p);
    case Promote(p) => RosterMoves(w.me, w.tables.connecting, w.tables.connected, w.phases, p);
    case DropConnecting(p, _) =>
      LeavingIsExact(w, p);
      RosterDropsConnecting(w.me, w.tables.connecting, w.tables.connected, w.phases, p);
    case DropConnected(p, _) =>
      RosterDropsConnected(w.me, w.tables.connecting, w.tables.connected, w.phases, p);
    case _ => if OnlyPhases(a) { PhasesKeepPeers(w, a); }
  }

  /** No peer is added while the network is closing, and moving or dropping one leaves no other. */
  lemma StepKeepsClose(w: Network, a: Action)
    requires CloseInv(w.tables) && Enabled(w, a)
    ensures CloseInv(Step(w, a).tables)
  {
    hide Wants, WantedAt, WantsNew;
    var t, t1 := w.tables, TablesStep(w, a);
    if t1.closing && t.closing {
      forall n | n in t1.connecting
        ensures t1.connecting[n] in t1.asked
      {
        assert t.connecting[n] in t.connecting.Values;
      }
      forall n | n in t1.connected
        ensures t1.connected[n] in t1.asked
      {
        if n in t.connected {
          assert t.connected[n] in t.connected.Values;
        }
        if a.Promote? && a.peer.node in t.connecting {
          assert t.connecting[a.peer.node] in t.connecting.Values;
        }
      }
    }
  }

  // ---------------------------------------------------------------------------------------
  // Every action keeps the dial table.
  // ---------------------------------------------------------------------------------------

  lemma StoppedKeepsDials(t: Tables, started: set<Dial>, n: NodeID)
    requires DialsInv(t, started)
    ensures DialsInv(Stopped(t, n), started) && n !in Stopped(t, n).dials
    ensures started + Stopped(t, n).dials.Values == started
  {
  }

  lemma DialedKeepsDials(t: Tables, started: set<Dial>, d: Dial)
    requires DialsInv(t, started) && d !in started && d.node !in t.dials && d.node !in t.connected
    ensures DialsInv(t.(dials := t.dials[d.node := d]), started + t.dials[d.node := d].Values)
  {
    var dials := t.dials[d.node := d];
    assert d.node in dials && d in dials.Values;
    assert forall n :: n in t.dials ==> dials[n] == t.dials[n];
    assert forall e :: e in started + dials.Values ==> e in started || e == d;
  }

  lemma RedialedKeepsDials(t: Tables, started: set<Dial>, d: Dial)
    requires DialsInv(t, started) && d !in started && d.node !in t.connected
    ensures DialsInv(Redialed(t, d), started + Redialed(t, d).dials.Values)
  {
    StoppedKeepsDials(t, started, d.node);
    DialedKeepsDials(Stopped(t, d.node), started, d);
  }

  lemma SameDials(t: Tables, started: set<Dial>)
    requires DialsInv(t, started)
    ensures started + t.dials.Values == started
  {
  }

  lemma ClosedKeepsDials(t: Tables, started: set<Dial>)
    requires DialsInv(t, started)
    ensures DialsInv(Closed(t), started + Closed(t).dials.Values)
  {
    SameDials(t, started);
    assert forall d :: d in started && d !in t.stopped ==> d in t.dials.Values;
    assert !t.closing ==> Closed(t).dials.Values == {};
  }

  lemma ConnectingDroppedKeepsDials(t: Tables, started: set<Dial>, n: NodeID, wanted: bool, id: int)
    requires DialsInv(t, started) && FreshID(started, id) && n !in t.connected
    ensures var t1 := ConnectingDropped(t, n, wanted, id); DialsInv(t1, started + t1.dials.Values)
  {
    var t1 := t.(connecting := t.connecting - {n});
    SameDials(t1, started);
    StoppedKeepsDials(t1, started, n);
    if n in t.dials {
      RedialedKeepsDials(t1, started, Dial(id, n, t.dials[n].addr));
    }
  }

  /** The entry a disconnected node gets overwrites none: it had none while it was connected. */
  lemma ConnectedDroppedKeepsDials(t: Tables, started: set<Dial>, n: NodeID, addr: Option<int>, id: int)
    requires DialsInv(t, started) && FreshID(started, id) && n in t.connected
    ensures var t1 := ConnectedDropped(t, n, addr, id); DialsInv(t1, started + t1.dials.Values)
  {
    var t1 := t.(connected := t.connected - {n});
    SameDials(t1, started);
    if addr.Some? {
      DialedKeepsDials(t1, started, Dial(id, n, addr.value));
    }
  }

  lemma PromotedKeepsDials(t: Tables, started: set<Dial>, n: NodeID)
    requires DialsInv(t, started) && n in t.connecting
    ensures var t1 := Promoted(t, n); DialsInv(t1, started + t1.dials.Values)
  {
    StoppedKeepsDials(t, started, n);
  }

  lemma ListingKeepsDials(t: Tables, started: set<Dial>, connecting: map<NodeID, Peer>)
    requires DialsInv(t, started)
    ensures DialsInv(t.(connecting := connecting), started)
  {
  }

  lemma StepKeepsDials(w: Network, a: Action)
    requires PeersInv(w) && DialsInv(w.tables, w.started) && Enabled(w, a)
    ensures DialsInv(Step(w, a).tables, Step(w, a).started)
  {
    hide Wants, WantedAt, WantsNew, RosterInv, DialsInv, Promoted, ConnectingDropped, ConnectedDropped, Closed, Stopped;
    SameDials(w.tables, w.started);
    match a
    case Upgrade(p) => ListingKeepsDials(w.tables, w.started, w.tables.connecting[p.node := p]);
    case Promote(p) => if p.node in w.tables.connecting { PromotedKeepsDials(w.tables, w.started, p.node); }
    case DropConnecting(p, id) =>
      LeavingIsExact(w, p);
      PhaseIsListed(w, p);
      ConnectingDroppedKeepsDials(w.tables, w.started, p.node, Wants(w.cfg, w.tracker, p.node), id);
    case DropConnected(p, id) =>
      PhaseIsListed(w, p);
      ConnectedDroppedKeepsDials(w.tables, w.started, p.node, WantedAt(w.cfg, w.tracker, p.node), id);
    case DialManually(n, addr, id) =>
      if n !in w.tables.connected { RedialedKeepsDials(w.tables, w.started, Dial(id, n, addr)); }
    case DialClaim(ip, _, id) =>
      if ip.node !in w.tables.connected { RedialedKeepsDials(w.tables, w.started, Dial(id, ip.node, ip.addr)); }
    case GiveUp(d) => StoppedKeepsDials(w.tables, w.started, d.node);
    case Close => ClosedKeepsDials(w.tables, w.started);
    case _ =>
  }

  // ---------------------------------------------------------------------------------------
  // Every action keeps the two logs.
  // ---------------------------------------------------------------------------------------

  /** Only the five notices change what the tracker and the router should hold, and each for its own node. */
  ghost predicate Expects(w: Network, a: Action, w1: Network, n: NodeID) {
    && ExpectedSession(w1.tables.connected, w1.phases, n) ==
         (if a.TellTracker? && a.peer.node == n then Some(a.peer.subnets)
          else if a.UntellTracker? && a.peer.node == n then None
          else ExpectedSession(w.tables.connected, w.phases, n))
    && var route := ExpectedRoute(w.cfg, w.tables.connected, w.phases, n);
       ExpectedRoute(w.cfg, w1.tables.connected, w1.phases, n) ==
         (if a.TellRouter? && a.peer.node == n then {PRIMARY_NETWORK}
          else if a.TellSubnet? && a.peer.node == n then route + {a.subnet}
          else if a.UntellRouter? && a.peer.node == n then {}
          else route)
  }

  lemma PhaseExpectations(w: Network, p: Peer, ph: Phase, n: NodeID)
    requires PeersInv(w) && p in w.phases
    ensures var connected := w.tables.connected;
      && ExpectedSession(connected, w.phases[p := ph], n) ==
           (if n == p.node && IsConnected(w.phases[p]) then if IsTracked(ph) then Some(p.subnets) else None
            else ExpectedSession(connected, w.phases, n))
      && ExpectedRoute(w.cfg, connected, w.phases[p := ph], n) ==
           (if n == p.node && IsConnected(w.phases[p]) then RouteIn(w.cfg, p, ph)
            else ExpectedRoute(w.cfg, connected, w.phases, n))
  {
  }

  lemma PhasesExpect(w: Network, a: Action, n: NodeID)
    requires PeersInv(w) && Enabled(w, a) && OnlyPhases(a)
    ensures Expects(w, a, Step(w, a), n)
  {
    hide RosterInv, ExpectedSession, ExpectedRoute;
    if a.LookUp? {
      LookUpIsExact(w, a.peer);
    }
    PhaseExpectations(w, a.peer, w.phases[a.peer], n);
    PhaseExpectations(w, a.peer, PhaseStep(w, a)[a.peer], n);
    assert w.phases[a.peer := w.phases[a.peer]] == w.phases;
  }

  lemma AddExpectations(w: Network, p: Peer, n: NodeID)
    requires PeersInv(w) && p !in w.phases
    ensures ExpectedSession(w.tables.connected, w.phases[p := Handshaking], n) ==
            ExpectedSession(w.tables.connected, w.phases, n)
    ensures ExpectedRoute(w.cfg, w.tables.connected, w.phases[p := Handshaking], n) ==
            ExpectedRoute(w.cfg, w.tables.connected, w.phases, n)
  {
  }

  lemma MoveExpectations(w: Network, p: Peer, n: NodeID)
    requires PeersInv(w) && In(w, p, Handshaking)
    ensures p.node in w.tables.connecting && w.tables.connecting[p.node] == p
    ensures ExpectedSession(w.tables.connected[p.node := p], w.phases[p := Moved(p)], n) ==
            ExpectedSession(w.tables.connected, w.phases, n)
    ensures ExpectedRoute(w.cfg, w.tables.connected[p.node := p], w.phases[p := Moved(p)], n) ==
            ExpectedRoute(w.cfg, w.tables.connected, w.phases, n)
  {
    assert IsConnecting(w.phases[p]);
  }

  lemma DropExpectations(w: Network, p: Peer, n: NodeID)
    requires PeersInv(w) && In(w, p, Unrouted)
    ensures ExpectedSession(w.tables.connected - {p.node}, w.phases[p := Gone], n) ==
            ExpectedSession(w.tables.connected, w.phases, n)
    ensures ExpectedRoute(w.cfg, w.tables.connected - {p.node}, w.phases[p := Gone], n) ==
            ExpectedRoute(w.cfg, w.tables.connected, w.phases, n)
  {
    assert IsConnected(w.phases[p]);
  }

  lemma StepExpects(w: Network, a: Action, n: NodeID)
    requires PeersInv(w) && Enabled(w, a)
    ensures Expects(w, a, Step(w, a), n)
  {
    hide RosterInv, ExpectedSession, ExpectedRoute, Wants, WantedAt, WantsNew;
    match a
    case Upgrade(p) => AddExpectations(w, p, n);
    case Promote(p) => MoveExpectations(w, p, n);
    case DropConnecting(p, _) =>
      LeavingIsExact(w, p);
      PhaseExpectations(w, p, Gone, n);
    case DropConnected(p, _) => DropExpectations(w, p, n);
    case _ => if OnlyPhases(a) { PhasesExpect(w, a, n); }
  }

  lemma AppendEvent(log: seq<Runs.Event>, e: Runs.Event)
    requires Runs.WellFormed(log) && ClosesOpen(log)
    requires e.Connect? ==> Runs.Session(log, e.ip.node).None?
    requires e.Disconnect? ==> Runs.Session(log, e.node).Some?
    ensures Runs.WellFormed(log + [e]) && ClosesOpen(log + [e])
    ensures forall n ::
              Runs.Session(log + [e], n) == if e.Connect? && e.ip.node == n then Some(e.subnets)
                                            else if e == Runs.Disconnect(n) then None else Runs.Session(log, n)
  {
    var log1 := log + [e];
    assert Runs.Init(log1) == log && Runs.Last(log1) == e;
    forall i | 0 <= i < |log1|
      ensures log1[i].Connect? ==> Runs.Session(log1[..i], log1[i].ip.node).None?
      ensures log1[i].Disconnect? ==> Runs.Session(log1[..i], log1[i].node).Some?
    {
      assert log1[..i] == log[..i];
      assert i == |log| ==> log[..i] == log;
    }
  }

  lemma AppendNotice(cfg: Config, log: seq<Notice>, e: Notice)
    requires Alternates(cfg, log) && MayFollow(cfg, RoutedOn(log, e.node), e)
    ensures Alternates(cfg, log + [e])
    ensures forall n :: RoutedOn(log + [e], n) ==
              if e.node != n then RoutedOn(log, n) else if e.Disconnects? then {} else RoutedOn(log, n) + {e.subnet}
  {
    var log1 := log + [e];
    assert Runs.Init(log1) == log && Runs.Last(log1) == e;
    forall i | 0 <= i < |log1|
      ensures MayFollow(cfg, RoutedOn(log1[..i], log1[i].node), log1[i])
    {
      assert log1[..i] == log[..i];
      assert i == |log| ==> log[..i] == log;
    }
  }

  lemma StepKeepsTracker(w: Network, a: Action)
    requires PeersInv(w) && TrackerInv(w) && Enabled(w, a)
    ensures TrackerInv(Step(w, a))
  {
    hide TablesStep;
    var w1 := Step(w, a);
    var e := Told(w, a);
    if a.TellTracker? || a.UntellTracker? {
      assert IsConnected(w.phases[a.peer]);
      assert Runs.Session(w.tracker, a.peer.node) == ExpectedSession(w.tables.connected, w.phases, a.peer.node);
    }
    if e.Some? {
      AppendEvent(w.tracker, e.value);
    }
    forall n
      ensures Runs.Session(w1.tracker, n) == ExpectedSession(w1.tables.connected, w1.phases, n)
    {
      StepExpects(w, a, n);
    }
  }

  lemma NoticeFollows(w: Network, a: Action)
    requires PeersInv(w) && RouterInv(w) && Enabled(w, a) && Noticed(a).Some?
    ensures MayFollow(w.cfg, RoutedOn(w.router, a.peer.node), Noticed(a).value)
    ensures a.TellRouter? ==> RoutedOn(w.router, a.peer.node) == {}
  {
    assert IsConnected(w.phases[a.peer]);
    assert RoutedOn(w.router, a.peer.node) == RouteIn(w.cfg, a.peer, w.phases[a.peer]);
  }

  lemma StepRoutes(w: Network, a: Action, n: NodeID)
    requires PeersInv(w) && RouterInv(w) && Enabled(w, a)
    ensures var w1 := Step(w, a); RoutedOn(w1.router, n) == ExpectedRoute(w1.cfg, w1.tables.connected, w1.phases, n)
  {
    hide TablesStep, PhaseStep, PeersInv, Enabled, Alternates, MayFollow, ExpectedSession, ExpectedRoute;
    assert RoutedOn(w.router, n) == ExpectedRoute(w.cfg, w.tables.connected, w.phases, n);
    StepExpects(w, a, n);
    if Noticed(a).Some? {
      NoticeFollows(w, a);
      AppendNotice(w.cfg, w.router, Noticed(a).value);
    }
  }

  lemma StepAlternates(w: Network, a: Action)
    requires PeersInv(w) && RouterInv(w) && Enabled(w, a)
    ensures Alternates(w.cfg, Step(w, a).router)
  {
    hide TablesStep, PhaseStep, PeersInv, Enabled, Alternates, MayFollow, ExpectedRoute;
    if Noticed(a).Some? {
      NoticeFollows(w, a);
      AppendNotice(w.cfg, w.router, Noticed(a).value);
    }
  }

  lemma StepKeepsRouter(w: Network, a: Action)
    requires PeersInv(w) && RouterInv(w) && Enabled(w, a)
    ensures RouterInv(Step(w, a))
  {
    hide TablesStep, PhaseStep, PeersInv, Enabled, Alternates, ExpectedRoute;
    var w1 := Step(w, a);
    StepAlternates(w, a);
    forall n
      ensures RoutedOn(w1.router, n) == ExpectedRoute(w1.cfg, w1.tables.connected, w1.phases, n)
    {
      StepRoutes(w, a, n);
    }
  }

  lemma StepKeepsInv(w: Network, a: Action)
    requires Inv(w) && Enabled(w, a)
    ensures Inv(Step(w, a))
  {
    hide PeersInv, CloseInv, DialsInv, TrackerInv, RouterInv, Step, Enabled;
    StepKeepsPeers(w, a);
    StepKeepsClose(w, a);
    StepKeepsDials(w, a);
    StepKeepsTracker(w, a);
    StepKeepsRouter(w, a);
  }

  /** One goroutine's actions one after the other. */
  ghost predicate Performs(w: Network, actions: seq<Action>, w1: Network)
    decreases |actions|
  {
    if actions == [] then w1 == w
    else Enabled(w, actions[0]) && Performs(Step(w, actions[0]), actions[1..], w1)
  }

  // ---------------------------------------------------------------------------------------
  // Whole runs.
  // ---------------------------------------------------------------------------------------

  ghost predicate Goes(w: Network, a: Action, w1: Network) {
    Enabled(w, a) && w1 == Step(w, a)
  }

  /** A run of the network: its states, one action apart. */
  ghost predicate IsRun(me: NodeID, cfg: Config, trace: seq<Network>, actions: seq<Action>) {
    && |trace| == |actions| + 1
    && trace[0] == Start(me, cfg)
    && forall i {:trigger actions[i]} :: 0 <= i < |actions| ==> Goes(trace[i], actions[i], trace[i + 1])
  }

  lemma StartInv(me: NodeID, cfg: Config)
    ensures Inv(Start(me, cfg))
  {
  }

  /** In every interleaving, after every action, all parts of the invariant hold. */
  lemma {:induction false} RunKeepsInv(me: NodeID, cfg: Config, trace: seq<Network>, actions: seq<Action>, i: nat)
    requires IsRun(me, cfg, trace, actions) && i < |trace|
    ensures Inv(trace[i]) && trace[i].me == me && trace[i].cfg == cfg
  {
    hide Inv, Enabled, TablesStep, PhaseStep;
    if i == 0 {
      StartInv(me, cfg);
    } else {
      RunKeepsInv(me, cfg, trace, actions, i - 1);
      assert Goes(trace[i - 1], actions[i - 1], trace[i]);
      StepKeepsInv(trace[i - 1], actions[i - 1]);
    }
  }

  lemma {:induction false} ClosingLasts(me: NodeID, cfg: Config, trace: seq<Network>, actions: seq<Action>,
      i: nat, j: nat)
    requires IsRun(me, cfg, trace, actions) && i <= j < |trace| && trace[i].tables.closing
    ensures trace[j].tables.closing && trace[j].phases.Keys == trace[i].phases.Keys
  {
    if i < j {
      ClosingLasts(me, cfg, trace, actions, i, j - 1);
      assert Goes(trace[j - 1], actions[j - 1], trace[j]);
      StepAddsOnlyUpgrades(trace[j - 1], actions[j - 1]);
    }
  }

  /** Once the network was closed, no peer is ever added, and every peer still listed has been told to close. */
  lemma NoPeerAfterClose(me: NodeID, cfg: Config, trace: seq<Network>, actions: seq<Action>, i: nat, j: nat)
    requires IsRun(me, cfg, trace, actions) && i < j < |trace| && actions[i] == Close
    ensures trace[j].phases.Keys == trace[i].phases.Keys
    ensures var t := trace[j].tables; t.connecting.Values + t.connected.Values <= t.asked
    ensures forall p :: !CanAdd(trace[j].tables, me, p)
  {
    hide Inv, Enabled, TablesStep, PhaseStep;
    assert Goes(trace[i], actions[i], trace[i + 1]);
    CloseStarts(trace[i]);
    ClosingLasts(me, cfg, trace, actions, i + 1, j);
    RunKeepsInv(me, cfg, trace, actions, j);
    ClosingAsked(trace[j]);
  }

  lemma CloseStarts(w: Network)
    ensures Step(w, Close).tables.closing && Step(w, Close).phases == w.phases
  {
  }

  lemma ClosingAsked(w: Network)
    requires Inv(w) && w.tables.closing
    ensures w.tables.connecting.Values + w.tables.connected.Values <= w.tables.asked
  {
  }

  lemma StepAddsOnlyUpgrades(w: Network, a: Action)
    requires Enabled(w, a)
    ensures w.tables.closing ==> Step(w, a).tables.closing && Step(w, a).phases.Keys == w.phases.Keys
  {
    hide Wants, WantedAt, WantsNew;
    if OnlyPhases(a) || a.Promote? || a.DropConnecting? || a.DropConnected? {
      assert a.peer in w.phases;
    }
  }

  /** A node whose handshake is complete syncs the subnet and may be gossiped on it. */
  ghost predicate IsShared(w: Network, s: SubnetID, n: NodeID) {
    && n in w.tables.connected
    && w.tables.connected[n] in w.phases && w.phases[w.tables.connected[n]].Live?
    && s in w.tables.connected[n].subnets
    && Runs.MayGossip(w.tracker, s, n)
  }

  /**
   The network keeps the contract the tracker relies on, so the tracker's guarantees hold inside it: a node with
   a gossip slot is connected, and a node whose handshake is complete has a slot on every subnet it syncs and may
   be gossiped on.
   */
  lemma GossipedNodesAreConnected(me: NodeID, cfg: Config, trace: seq<Network>, actions: seq<Action>, i: nat,
      s: SubnetID, n: NodeID)
    requires IsRun(me, cfg, trace, actions) && i < |trace|
    ensures Runs.WellFormed(trace[i].tracker)
    ensures var w := trace[i]; var st := Runs.Peers(cfg, w.tracker);
      && (EntryOf(st, s, n).Some? ==> n in w.tables.connected && n != me)
      && (IsShared(w, s, n) ==> EntryOf(st, s, n).Some? && EntryOf(st, s, n).value.node == n)
  {
    RunKeepsInv(me, cfg, trace, actions, i);
    var w := trace[i];
    Runs.GossipFollowsHistory(cfg, w.tracker, s, n);
    assert Runs.Session(w.tracker, n) == ExpectedSession(w.tables.connected, w.phases, n);
    var st := Runs.Peers(cfg, w.tracker);
    assert n in st.tracked ==> NodeInv(st.cfg, n, st.tracked[n]);
  }

  /**
   In every interleaving, the router holds a node for connected only on the primary network and on subnets that this
   node tracks and the connected peer syncs; once Connected has returned, and until Disconnected tells it, on all.
   */
  lemma RouterHoldsShared(me: NodeID, cfg: Config, trace: seq<Network>, actions: seq<Action>, i: nat, n: NodeID)
    requires IsRun(me, cfg, trace, actions) && i < |trace|
    ensures var w := trace[i]; var routed := RoutedOn(w.router, n);
      && (routed != {} ==>
            n in w.tables.connected && PRIMARY_NETWORK in routed &&
            routed <= cfg.trackedSubnets * w.tables.connected[n].subnets + {PRIMARY_NETWORK})
      && (n in w.tables.connected && HasSettled(w, w.tables.connected[n]) ==>
            routed == cfg.trackedSubnets * w.tables.connected[n].subnets + {PRIMARY_NETWORK})
  {
    RunKeepsInv(me, cfg, trace, actions, i);
    var w := trace[i];
    assert RoutedOn(w.router, n) == ExpectedRoute(w.cfg, w.tables.connected, w.phases, n);
    if n in w.tables.connected && w.phases[w.tables.connected[n]].Live? {
      ToldIsShared(me, cfg, trace, actions, i, w.tables.connected[n]);
    }
  }

  /** The router has heard of all the peer's subnets, and not yet that the peer leaves. */
  predicate HasSettled(w: Network, p: Peer) {
    && p in w.phases
    && (w.phases[p].Live? || w.phases[p].Forgotten? || w.phases[p] == Leaving(false, true))
    && (w.phases[p].Live? ==> w.cfg.trackedSubnets * p.subnets <= w.phases[p].told)
  }

  lemma {:induction false} ToldIsShared(me: NodeID, cfg: Config, trace: seq<Network>, actions: seq<Action>, i: nat,
      p: Peer)
    requires IsRun(me, cfg, trace, actions) && i < |trace| && p in trace[i].phases && trace[i].phases[p].Live?
    ensures trace[i].phases[p].told <= cfg.trackedSubnets * p.subnets
  {
    hide Inv, TablesStep;
    RunKeepsInv(me, cfg, trace, actions, i - 1);
    var w, a := trace[i - 1], actions[i - 1];
    assert Goes(w, a, trace[i]);
    if p in w.phases && w.phases[p].Live? {
      ToldIsShared(me, cfg, trace, actions, i - 1, p);
    }
  }
}
