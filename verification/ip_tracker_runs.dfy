/**
 Whole runs of the IP tracker: what its state says after any sequence of events, in terms of
 the events alone.
 */
module IPTrackerRuns {
  import opened Wrappers
  import opened IPTrackerModel
  import opened IPBloomModel

  datatype Event =
    | Track(node: NodeID, reset: Reset)
    | Announce(subnet: SubnetID, node: NodeID, reset: Reset)
    | Claim(ip: ClaimedIP, reset: Reset)
    | Connect(ip: ClaimedIP, subnets: set<SubnetID>, reset: Reset)
    | Disconnect(node: NodeID)
    | Added(subnet: SubnetID, node: NodeID, reset: Reset)
    | Removed(subnet: SubnetID, node: NodeID)
    | Rebuild(salt: Option<Salt>)

  datatype Tracker = Tracker(peers: State, bloom: Bloom)

  /** A node is reported connected only while it is not connected. */
  predicate Allowed(st: State, e: Event) {
    e.Connect? ==> e.ip.node !in st.connected
  }

  ghost function PeersStep(st: State, e: Event): State
    requires AllIndexed(st)
  {
    match e
    case Track(n, _) => AddTrackable(st, n, None)
    case Announce(s, n, _) => ManuallyGossip(st, s, n)
    case Claim(ip, _) => AddIP(st, ip)
    case Connect(ip, subnets, _) => Connected(st, ip, subnets)
    case Disconnect(n) => Disconnected(st, n)
    case Added(s, n, _) => ValidatorAdded(st, s, n)
    case Removed(s, n) => ValidatorRemoved(st, s, n)
    case Rebuild(_) => st
  }

  /** The IP an event records as the newest of its node: at most one. */
  function Recorded(st: State, e: Event): Option<ClaimedIP> {
    match e
    case Claim(ip, _) => if IsNewest(st, ip) then Some(ip) else None
    case Connect(ip, _, _) => if IsNewest(st, ip) then Some(ip) else None
    case Disconnect(_) => None
    case Removed(_, _) => None
    case Rebuild(_) => None
    case _ => if e.node !in st.tracked && e.node in st.connected then Some(st.connected[e.node].ip) else None
  }

  ghost function Step(t: Tracker, e: Event): Tracker
    requires AllIndexed(t.peers)
  {
    var peers := PeersStep(t.peers, e);
    var ip := Recorded(t.peers, e);
    var bloom :=
      if ip.Some? then Record(t.bloom, peers.tracked, ip.value, e.reset)
      else if e.Rebuild? && e.salt.Some? then Rebuilt(t.bloom, peers.tracked, e.salt.value)
      else t.bloom;
    Tracker(peers, bloom)
  }

  function Initial(cfg: Config, hash: (GossipID, Salt) -> set<int>, salt: Salt): Tracker {
    Tracker(State(cfg, map[], map[], map[]), Bloom(hash, salt, {}, map[]))
  }

  lemma StepPreservesInv(st: State, e: Event)
    requires Inv(st) && Allowed(st, e)
    ensures Inv(PeersStep(st, e))
  {
    match e
    case Track(n, _) => ManuallyTrackPreservesInv(st, n);
    case Announce(s, n, _) => ManuallyGossipPreservesInv(st, s, n);
    case Claim(ip, _) => AddIPPreservesInv(st, ip);
    case Connect(ip, subnets, _) => ConnectedPreservesInv(st, ip, subnets);
    case Disconnect(n) => DisconnectedPreservesInv(st, n);
    case Added(s, n, _) => ValidatorAddedPreservesInv(st, s, n);
    case Removed(s, n) => ValidatorRemovedPreservesInv(st, s, n);
    case Rebuild(_) =>
  }

  // ---------------------------------------------------------------------------------------
  // What the events alone say, most recent event last.
  // ---------------------------------------------------------------------------------------

  function Init<T>(h: seq<T>): seq<T>
    requires h != []
  {
    h[..|h| - 1]
  }

  function Last<T>(h: seq<T>): T
    requires h != []
  {
    h[|h| - 1]
  }

  /** The subnets `n` syncs if it is connected. */
  function Session(h: seq<Event>, n: NodeID): Option<set<SubnetID>> {
    if h == [] then None
    else if Last(h).Connect? && Last(h).ip.node == n then Some(Last(h).subnets)
    else if Last(h) == Disconnect(n) then None
    else Session(Init(h), n)
  }

  ghost predicate WellFormed(h: seq<Event>) {
    forall i :: 0 <= i < |h| && h[i].Connect? ==> Session(h[..i], h[i].ip.node).None?
  }

  /** The operator asked to gossip `n` on `s` at some time. */
  ghost predicate GossipRequested(h: seq<Event>, s: SubnetID, n: NodeID) {
    exists i :: 0 <= i < |h| && h[i].Announce? && h[i].subnet == s && h[i].node == n
  }

  /** The operator asked for `n` itself, or to gossip it on a subnet this node tracks. */
  ghost predicate TrackRequested(cfg: Config, h: seq<Event>, n: NodeID) {
    exists i :: 0 <= i < |h| && (h[i].Track? || h[i].Announce?) && h[i].node == n &&
      (h[i].Announce? ==> h[i].subnet == PRIMARY_NETWORK || h[i].subnet in cfg.trackedSubnets)
  }

  /** The last validator event of `n` on `s` added it. */
  predicate IsValidator(h: seq<Event>, s: SubnetID, n: NodeID) {
    if h == [] then false
    else if (Last(h).Added? || Last(h).Removed?) && Last(h).subnet == s && Last(h).node == n then Last(h).Added?
    else IsValidator(Init(h), s, n)
  }

  ghost predicate MayGossip(h: seq<Event>, s: SubnetID, n: NodeID) {
    GossipRequested(h, s, n) || IsValidator(h, s, n)
  }

  // ---------------------------------------------------------------------------------------
  // Runs.
  // ---------------------------------------------------------------------------------------

  lemma WellFormedInit(h: seq<Event>)
    requires WellFormed(h) && h != []
    ensures WellFormed(Init(h))
    ensures Last(h).Connect? ==> Session(Init(h), Last(h).ip.node).None?
  {
    forall i | 0 <= i < |h| - 1 && h[i].Connect?
      ensures Session(Init(h)[..i], h[i].ip.node).None?
    {
      assert Init(h)[..i] == h[..i];
    }
  }

  lemma StepSessions(st: State, e: Event, n: NodeID)
    requires AllIndexed(st)
    ensures PeersStep(st, e).cfg == st.cfg
    ensures n in PeersStep(st, e).connected <==>
      (e.Connect? && e.ip.node == n) || (n in st.connected && e != Disconnect(n))
    ensures n in PeersStep(st, e).connected ==>
      PeersStep(st, e).connected[n].subnets ==
        if e.Connect? && e.ip.node == n then e.subnets else st.connected[n].subnets
  {
    hide AllIndexed, Enroll, Expel, Join, Leave;
  }

  ghost predicate SameSessions(st: State, h: seq<Event>) {
    forall n :: Session(h, n) == if n in st.connected then Some(st.connected[n].subnets) else None
  }

  lemma SessionsAfter(st: State, st1: State, h: seq<Event>)
    requires h != [] && SameSessions(st, Init(h))
    requires forall n :: n in st1.connected <==>
      (Last(h).Connect? && Last(h).ip.node == n) || (n in st.connected && Last(h) != Disconnect(n))
    requires forall n :: n in st1.connected ==>
      st1.connected[n].subnets ==
        if Last(h).Connect? && Last(h).ip.node == n then Last(h).subnets else st.connected[n].subnets
    ensures SameSessions(st1, h)
  {
    forall n
      ensures Session(h, n) == if n in st1.connected then Some(st1.connected[n].subnets) else None
    {
      assert Session(Init(h), n) == if n in st.connected then Some(st.connected[n].subnets) else None;
    }
  }

  /** The peers known after a history, together with the invariant every reachable state has. */
  ghost function Peers(cfg: Config, h: seq<Event>): (st: State)
    requires WellFormed(h)
    ensures Inv(st) && st.cfg == cfg && SameSessions(st, h)
  {
    if h == [] then State(cfg, map[], map[], map[])
    else
      var st := Peers(cfg, (WellFormedInit(h); Init(h)));
      Extend(st, h);
      PeersStep(st, Last(h))
  }

  lemma Extend(st: State, h: seq<Event>)
    requires h != [] && WellFormed(h) && Inv(st) && SameSessions(st, Init(h))
    ensures var st1 := PeersStep(st, Last(h)); Inv(st1) && st1.cfg == st.cfg && SameSessions(st1, h)
  {
    WellFormedInit(h);
    StepPreservesInv(st, Last(h));
    forall n {
      StepSessions(st, Last(h), n);
    }
    SessionsAfter(st, PeersStep(st, Last(h)), h);
  }

  /** The tracker after a history. */
  ghost function Run(cfg: Config, hash: (GossipID, Salt) -> set<int>, salt: Salt, h: seq<Event>): (t: Tracker)
    requires WellFormed(h)
    ensures t.peers == Peers(cfg, h)
  {
    if h == [] then Initial(cfg, hash, salt)
    else Step(Run(cfg, hash, salt, (WellFormedInit(h); Init(h))), Last(h))
  }

  lemma RunAppend(cfg: Config, hash: (GossipID, Salt) -> set<int>, salt: Salt, h: seq<Event>, e: Event)
    requires WellFormed(h) && WellFormed(h + [e])
    ensures Run(cfg, hash, salt, h + [e]) == Step(Run(cfg, hash, salt, h), e)
  {
    assert Init(h + [e]) == h && Last(h + [e]) == e;
  }

  // ---------------------------------------------------------------------------------------
  // The state follows the history.
  // ---------------------------------------------------------------------------------------

  ghost predicate IsManuallyGossipable(st: State, s: SubnetID, n: NodeID) {
    s in st.subnets && n in st.subnets[s].manual
  }

  ghost predicate IsManuallyTracked(st: State, n: NodeID) {
    n in st.tracked && st.tracked[n].manual
  }

  predicate RequestsTrack(cfg: Config, e: Event, n: NodeID) {
    (e.Track? || e.Announce?) && e.node == n &&
    (e.Announce? ==> e.subnet == PRIMARY_NETWORK || e.subnet in cfg.trackedSubnets)
  }

  /** One event's effect on why a node is tracked. */
  ghost predicate Reasons(st: State, e: Event, st1: State, s: SubnetID, n: NodeID) {
    var here := (e.Announce? || e.Added? || e.Removed?) && e.subnet == s && e.node == n;
    && (IsManuallyGossipable(st1, s, n) <==> IsManuallyGossipable(st, s, n) || (here && e.Announce?))
    && (IsManuallyTracked(st1, n) <==> IsManuallyTracked(st, n) || RequestsTrack(st.cfg, e, n))
    && (Validates(st1, s, n) <==>
          (here && !e.Removed?) || (Validates(st, s, n) && (here ==> IsManuallyGossipable(st, s, n))))
  }

  lemma GossipReasons(st: State, m: NodeID, t: SubnetID, manual: bool, s: SubnetID, n: NodeID)
    requires Core(st)
    ensures IsManuallyGossipable(AddGossipable(st, m, t, manual), s, n) <==>
            IsManuallyGossipable(st, s, n) || (manual && s == t && n == m)
  {
    EnrollEntries(if t in st.subnets then st.subnets[t] else EMPTY_GOSSIP, m, manual,
                  if m in st.tracked && Syncs(st, m, t) then st.tracked[m].ip else None);
  }

  lemma RemoveReasons(st: State, t: SubnetID, m: NodeID, s: SubnetID, n: NodeID)
    requires Inv(st)
    ensures Reasons(st, Removed(t, m), ValidatorRemoved(st, t, m), s, n)
  {
    hide EntryOf, Expected, Syncs, Expel, TrackedInv, ConnectedInv;
    ValidatorRemovedPreservesInv(st, t, m);
    if t in st.subnets && m !in st.subnets[t].manual {
      ExpelEntries(st.subnets[t], m);
      assert IsManuallyGossipable(st, t, n) ==> n in Expel(st.subnets[t], m).ids;
    }
    assert IsGossipable(st, t, m) <==> Validates(st, t, m);
  }

  lemma SetGossipableReasons(st: State, ip: ClaimedIP, subnets: set<SubnetID>, s: SubnetID, n: NodeID)
    requires AllIndexed(st)
    ensures IsManuallyGossipable(SetGossipable(st, ip, subnets), s, n) <==> IsManuallyGossipable(st, s, n)
  {
    if s in st.subnets {
      SetIPSetsOneEntry(st.subnets[s], ip);
    }
  }

  lemma AnnounceReasons(st: State, t: SubnetID, m: NodeID, r: Reset, s: SubnetID, n: NodeID)
    requires Inv(st)
    ensures Reasons(st, Announce(t, m, r), ManuallyGossip(st, t, m), s, n)
  {
    hide Inv, Core, Enroll, AllIndexed;
    CoreOf(st);
    EnlistFrame(st, t, m);
    GossipReasons(Enlist(st, t, m), m, t, true, s, n);
  }

  lemma AddedReasons(st: State, t: SubnetID, m: NodeID, r: Reset, s: SubnetID, n: NodeID)
    requires Inv(st)
    ensures Reasons(st, Added(t, m, r), ValidatorAdded(st, t, m), s, n)
  {
    AddTrackableFrame(st, m, Some(t));
    GossipReasons(AddTrackable(st, m, Some(t)), m, t, false, s, n);
  }

  lemma ConnectReasons(st: State, ip: ClaimedIP, subnets: set<SubnetID>, r: Reset, s: SubnetID, n: NodeID)
    requires Inv(st)
    ensures Reasons(st, Connect(ip, subnets, r), Connected(st, ip, subnets), s, n)
  {
    hide Inv;
    CoreOf(st);
    var st1 := RecordIP(st.(connected := st.connected[ip.node := ConnectedNode(subnets, ip)]), ip);
    if ip.node in st.tracked {
      SetGossipableReasons(st1, st1.tracked[ip.node].ip.value, subnets, s, n);
    }
  }

  lemma ClaimReasons(st: State, ip: ClaimedIP, r: Reset, s: SubnetID, n: NodeID)
    requires Inv(st)
    ensures Reasons(st, Claim(ip, r), AddIP(st, ip), s, n)
  {
    hide Inv;
    CoreOf(st);
    if IsNewest(st, ip) && ip.node in st.connected {
      SetGossipableReasons(UpdateIP(st, ip), ip, st.connected[ip.node].subnets, s, n);
    }
  }

  lemma DisconnectReasons(st: State, m: NodeID, s: SubnetID, n: NodeID)
    requires Inv(st)
    ensures Reasons(st, Disconnect(m), Disconnected(st, m), s, n)
  {
    hide Inv;
    CoreOf(st);
    if s in st.subnets {
      RemoveIPRemovesOneEntry(st.subnets[s], m);
    }
  }

  lemma TrackReasons(st: State, m: NodeID, r: Reset, s: SubnetID, n: NodeID)
    requires Inv(st)
    ensures Reasons(st, Track(m, r), AddTrackable(st, m, None), s, n)
  {
    AddTrackableFrame(st, m, None);
  }

  lemma StepReasons(st: State, e: Event, s: SubnetID, n: NodeID)
    requires Inv(st) && Allowed(st, e)
    ensures Reasons(st, e, PeersStep(st, e), s, n)
  {
    hide Inv, AllIndexed, AddTrackable, ManuallyGossip, ValidatorAdded, ValidatorRemoved, AddIP, Connected,
         Disconnected;
    match e
    case Track(m, r) => TrackReasons(st, m, r, s, n);
    case Announce(t, m, r) => AnnounceReasons(st, t, m, r, s, n);
    case Added(t, m, r) => AddedReasons(st, t, m, r, s, n);
    case Removed(t, m) => RemoveReasons(st, t, m, s, n);
    case Claim(ip, r) => ClaimReasons(st, ip, r, s, n);
    case Connect(ip, subnets, r) => ConnectReasons(st, ip, subnets, r, s, n);
    case Disconnect(m) => DisconnectReasons(st, m, s, n);
    case Rebuild(_) =>
  }

  lemma HistoryExtends(cfg: Config, h: seq<Event>, s: SubnetID, n: NodeID)
    requires h != []
    ensures GossipRequested(h, s, n) <==>
      GossipRequested(Init(h), s, n) || (Last(h).Announce? && Last(h).subnet == s && Last(h).node == n)
    ensures TrackRequested(cfg, h, n) <==> TrackRequested(cfg, Init(h), n) || RequestsTrack(cfg, Last(h), n)
  {
    if GossipRequested(h, s, n) {
      var i :| 0 <= i < |h| && h[i].Announce? && h[i].subnet == s && h[i].node == n;
      assert i == |h| - 1 || Init(h)[i] == h[i];
    }
    if GossipRequested(Init(h), s, n) {
      var i :| 0 <= i < |Init(h)| && Init(h)[i].Announce? && Init(h)[i].subnet == s && Init(h)[i].node == n;
      assert h[i] == Init(h)[i];
    }
    if TrackRequested(cfg, h, n) {
      var i :| 0 <= i < |h| && (h[i].Track? || h[i].Announce?) && h[i].node == n &&
        (h[i].Announce? ==> h[i].subnet == PRIMARY_NETWORK || h[i].subnet in cfg.trackedSubnets);
      assert i == |h| - 1 || Init(h)[i] == h[i];
    }
    if TrackRequested(cfg, Init(h), n) {
      var i :| 0 <= i < |Init(h)| && (Init(h)[i].Track? || Init(h)[i].Announce?) && Init(h)[i].node == n &&
        (Init(h)[i].Announce? ==> Init(h)[i].subnet == PRIMARY_NETWORK || Init(h)[i].subnet in cfg.trackedSubnets);
      assert h[i] == Init(h)[i];
    }
  }

  /** Why the tracker tracks a node is a function of the history alone. */
  lemma {:induction false} ReasonsFollowHistory(cfg: Config, h: seq<Event>, s: SubnetID, n: NodeID)
    requires WellFormed(h)
    ensures IsManuallyGossipable(Peers(cfg, h), s, n) <==> GossipRequested(h, s, n)
    ensures IsManuallyTracked(Peers(cfg, h), n) <==> TrackRequested(cfg, h, n)
    ensures Validates(Peers(cfg, h), s, n) <==> MayGossip(h, s, n)
  {
    if h != [] {
      WellFormedInit(h);
      var st := Peers(cfg, Init(h));
      Extend(st, h);
      ReasonsFollowHistory(cfg, Init(h), s, n);
      StepReasons(st, Last(h), s, n);
      HistoryExtends(cfg, h, s, n);
    }
  }

  /**
   After any run, a node has a slot in a subnet's gossip slice exactly when it is a validator of
   the subnet or was requested to be gossiped on it, is connected, and said it syncs the subnet.
   The slot holds the most recent IP known of the node.
   */
  lemma GossipFollowsHistory(cfg: Config, h: seq<Event>, s: SubnetID, n: NodeID)
    requires WellFormed(h)
    ensures var st := Peers(cfg, h); var session := Session(h, n);
      && (EntryOf(st, s, n).Some? <==> MayGossip(h, s, n) && session.Some? && s in session.value)
      && (EntryOf(st, s, n).Some? ==> n in st.tracked && EntryOf(st, s, n) == st.tracked[n].ip)
  {
    var st := Peers(cfg, h);
    ReasonsFollowHistory(cfg, h, s, n);
    assert EntryOf(st, s, n) == Expected(st, s, n);
    assert IsGossipable(st, s, n) <==> Validates(st, s, n);
    assert Session(h, n) == if n in st.connected then Some(st.connected[n].subnets) else None;
  }

  /**
   After any run, a connection to a node is wanted exactly when the operator asked for it, or it
   may be gossiped on the primary network, on a subnet this node tracks, or on any if it connects to all validators.
   */
  lemma WantsConnectionFollowsHistory(cfg: Config, h: seq<Event>, n: NodeID)
    requires WellFormed(h)
    ensures var st := Peers(cfg, h);
      (n in st.tracked && st.tracked[n].WantsConnection()) <==>
      || TrackRequested(cfg, h, n)
      || exists s :: MayGossip(h, s, n) && (s == PRIMARY_NETWORK || s in cfg.trackedSubnets || cfg.connectToAll)
  {
    var st := Peers(cfg, h);
    ReasonsFollowHistory(cfg, h, PRIMARY_NETWORK, n);
    if n in st.tracked && st.tracked[n].followed != {} {
      var s :| s in st.tracked[n].followed;
      assert NodeInv(st.cfg, n, st.tracked[n]);
      ReasonsFollowHistory(cfg, h, s, n);
    }
    if s :| MayGossip(h, s, n) && Follows(cfg, s) {
      ReasonsFollowHistory(cfg, h, s, n);
      assert NodeInv(st.cfg, n, st.tracked[n]);
      assert s in st.tracked[n].followed;
    }
  }

  /** After any run, the tracker holds a node exactly as long as there is a reason to. */
  lemma TrackedFollowsHistory(cfg: Config, h: seq<Event>, n: NodeID)
    requires WellFormed(h)
    ensures n in Peers(cfg, h).tracked <==> TrackRequested(cfg, h, n) || exists s :: MayGossip(h, s, n)
  {
    var st := Peers(cfg, h);
    ReasonsFollowHistory(cfg, h, PRIMARY_NETWORK, n);
    if n in st.tracked && st.tracked[n].validated != {} {
      var s :| s in st.tracked[n].validated;
      ReasonsFollowHistory(cfg, h, s, n);
    }
    if s :| MayGossip(h, s, n) {
      ReasonsFollowHistory(cfg, h, s, n);
    }
  }

  // ---------------------------------------------------------------------------------------
  // Timestamps and the filter.
  // ---------------------------------------------------------------------------------------

  /** The claim an event makes about its node's IP. */
  function ClaimOf(e: Event): Option<ClaimedIP> {
    if e.Claim? || e.Connect? then Some(e.ip) else None
  }

  /**
   One event keeps the newest of the recorded IP and the IP it claims: a claim of the node becomes its IP if it is the
   first one or has a greater timestamp, and nothing else changes the IP.
   */
  lemma StepKeepsNewest(st: State, e: Event, n: NodeID)
    requires Inv(st) && Allowed(st, e)
    requires n in st.tracked && n in PeersStep(st, e).tracked
    ensures var c, before, after := ClaimOf(e), st.tracked[n].ip, PeersStep(st, e).tracked[n].ip;
      if c.None? || c.value.node != n then after == before
      else if before.None? || before.value.timestamp < c.value.timestamp then after == c
      else after == before
  {
  }

  lemma WellFormedPrefix(h: seq<Event>, k: nat)
    requires WellFormed(h) && k <= |h|
    ensures WellFormed(h[..k])
  {
    forall i | 0 <= i < k && h[..k][i].Connect?
      ensures Session(h[..k][..i], h[..k][i].ip.node).None?
    {
      assert h[..k][..i] == h[..i];
    }
  }

  /** The peers after the first `k` events. */
  ghost function PeersAt(cfg: Config, h: seq<Event>, k: nat): State
    requires WellFormed(h) && k <= |h|
  {
    WellFormedPrefix(h, k);
    Peers(cfg, h[..k])
  }

  lemma PeersAtNext(cfg: Config, h: seq<Event>, k: nat)
    requires WellFormed(h) && k < |h|
    ensures Inv(PeersAt(cfg, h, k)) && Allowed(PeersAt(cfg, h, k), h[k])
    ensures PeersAt(cfg, h, k + 1) == PeersStep(PeersAt(cfg, h, k), h[k])
  {
    WellFormedPrefix(h, k + 1);
    assert Init(h[..k + 1]) == h[..k] && Last(h[..k + 1]) == h[k];
    WellFormedInit(h[..k + 1]);
  }

  /** While a node stays tracked, the timestamp of its recorded IP never decreases. */
  lemma {:induction false} TimestampsNeverDecrease(cfg: Config, h: seq<Event>, i: nat, j: nat, n: NodeID)
    requires WellFormed(h) && i <= j <= |h|
    requires forall k :: i <= k <= j ==> n in PeersAt(cfg, h, k).tracked
    requires Known(PeersAt(cfg, h, i).tracked, n)
    ensures Known(PeersAt(cfg, h, j).tracked, n)
    ensures PeersAt(cfg, h, i).tracked[n].ip.value.timestamp <= PeersAt(cfg, h, j).tracked[n].ip.value.timestamp
    decreases j - i
  {
    if i < j {
      PeersAtNext(cfg, h, i);
      StepKeepsNewest(PeersAt(cfg, h, i), h[i], n);
      TimestampsNeverDecrease(cfg, h, i + 1, j, n);
    }
  }

  /** The tracked nodes after an event: only the newest IPs and the reasons to track change. */
  ghost function TrackedStep(st: State, e: Event): map<NodeID, TrackedNode>
    requires AllIndexed(st)
  {
    match e
    case Track(n, _) => AddTrackable(st, n, None).tracked
    case Announce(s, n, _) => Enlist(st, s, n).tracked
    case Claim(ip, _) => RecordIP(st, ip).tracked
    case Connect(ip, _, _) => RecordIP(st, ip).tracked
    case Added(s, n, _) => AddTrackable(st, n, Some(s)).tracked
    case Removed(s, n) => ValidatorRemoved(st, s, n).tracked
    case _ => st.tracked
  }

  lemma TrackedAfter(st: State, e: Event)
    requires AllIndexed(st)
    ensures PeersStep(st, e).tracked == TrackedStep(st, e)
  {
    hide AllIndexed, Enroll, Expel, Join, Leave, ValidatorRemoved;
  }

  /** Where an event records an IP, that is its node's IP afterwards; every other known IP was known before. */
  ghost predicate Records(st: State, ip: Option<ClaimedIP>, tracked: map<NodeID, TrackedNode>) {
    && (ip.Some? ==> Known(tracked, ip.value.node) && tracked[ip.value.node].ip == ip)
    && (forall n :: Known(tracked, n) && !(ip.Some? && n == ip.value.node) ==>
          Known(st.tracked, n) && tracked[n].ip == st.tracked[n].ip)
  }

  /** A node tracked anew is known by the IP it is connected with, if it is. */
  lemma JoinRecords(st: State, n: NodeID, s: SubnetID)
    requires n in st.connected ==> st.connected[n].ip.node == n
    ensures var ip := if n !in st.tracked && n in st.connected then Some(st.connected[n].ip) else None;
      && Records(st, ip, AddTrackable(st, n, None).tracked)
      && Records(st, ip, AddTrackable(st, n, Some(s)).tracked)
      && Records(st, ip, Enlist(st, s, n).tracked)
  {
    hide Join;
  }

  lemma ClaimRecords(st: State, ip: ClaimedIP)
    ensures Records(st, if IsNewest(st, ip) then Some(ip) else None, RecordIP(st, ip).tracked)
  {
  }

  lemma RemovalRecords(st: State, s: SubnetID, n: NodeID)
    requires AllIndexed(st)
    ensures Records(st, None, ValidatorRemoved(st, s, n).tracked)
  {
    hide Expel, Leave, AllIndexed;
  }

  lemma StepRecords(st: State, e: Event)
    requires Inv(st) && Allowed(st, e)
    ensures Records(st, Recorded(st, e), PeersStep(st, e).tracked)
  {
    hide Inv, AllIndexed, PeersStep, Records, AddTrackable, Enlist, RecordIP, ValidatorRemoved;
    CoreOf(st);
    TrackedAfter(st, e);
    match e
    case Track(n, _) => JoinRecords(st, n, PRIMARY_NETWORK);
    case Announce(s, n, _) => JoinRecords(st, n, s);
    case Added(s, n, _) => JoinRecords(st, n, s);
    case Claim(ip, _) => ClaimRecords(st, ip);
    case Connect(ip, _, _) => ClaimRecords(st, ip);
    case Removed(s, n) => RemovalRecords(st, s, n);
    case _ => NothingRecorded(st);
  }

  lemma NothingRecorded(st: State)
    ensures Records(st, None, st.tracked)
  {
  }

  /** The event records an IP that the filter should gain, but the filter is full and cannot be replaced. */
  predicate Misses(t: Tracker, e: Event) {
    var ip := Recorded(t.peers, e);
    ip.Some? && e.reset.Failed? && Additions(t.bloom, ip.value.node) < MAX_IP_ENTRIES_PER_NODE &&
    !Contains(t.bloom, ip.value)
  }

  /** The event finds the filter full and replaces it. */
  predicate Replaces(t: Tracker, e: Event) {
    var ip := Recorded(t.peers, e);
    ip.Some? && e.reset.Fresh? && Additions(t.bloom, ip.value.node) < MAX_IP_ENTRIES_PER_NODE
  }

  /** A filter that holds the newest IPs goes on to do so exactly if the event is not such a miss. */
  lemma StepKeepsCurrentIff(t: Tracker, e: Event)
    requires Inv(t.peers) && Allowed(t.peers, e) && Current(t.bloom, t.peers.tracked)
    ensures var t1 := Step(t, e); Current(t1.bloom, t1.peers.tracked) <==> !Misses(t, e)
  {
    StepRecords(t.peers, e);
    var ip := Recorded(t.peers, e);
    var tracked := PeersStep(t.peers, e).tracked;
    if ip.Some? {
      RecordIsCurrent(t.bloom, tracked, ip.value, e.reset);
    } else if e.Rebuild? && e.salt.Some? {
      RebuiltIsCurrent(t.bloom, tracked, e.salt.value);
    }
  }

  lemma StepKeepsQuota(t: Tracker, e: Event)
    requires AllIndexed(t.peers) && WithinQuota(t.bloom)
    ensures WithinQuota(Step(t, e).bloom)
  {
    var ip := Recorded(t.peers, e);
    if ip.Some? {
      RecordKeepsQuota(t.bloom, PeersStep(t.peers, e).tracked, ip.value, e.reset);
    }
  }

  /** After any run, whatever replacements of the filter failed, no node added more than two IPs to it. */
  lemma {:induction false} CountsStayWithinQuota(cfg: Config, hash: (GossipID, Salt) -> set<int>, salt: Salt,
      h: seq<Event>)
    requires WellFormed(h)
    ensures WithinQuota(Run(cfg, hash, salt, h).bloom)
  {
    if h != [] {
      WellFormedInit(h);
      CountsStayWithinQuota(cfg, hash, salt, Init(h));
      StepKeepsQuota(Run(cfg, hash, salt, Init(h)), Last(h));
    }
  }

  /** The tracker after the first `k` events. */
  ghost function RunAt(cfg: Config, hash: (GossipID, Salt) -> set<int>, salt: Salt, h: seq<Event>, k: nat): Tracker
    requires WellFormed(h) && k <= |h|
  {
    WellFormedPrefix(h, k);
    Run(cfg, hash, salt, h[..k])
  }

  lemma RunAtNext(cfg: Config, hash: (GossipID, Salt) -> set<int>, salt: Salt, h: seq<Event>, k: nat)
    requires WellFormed(h) && k < |h|
    ensures var t := RunAt(cfg, hash, salt, h, k);
      Inv(t.peers) && Allowed(t.peers, h[k]) && RunAt(cfg, hash, salt, h, k + 1) == Step(t, h[k])
  {
    PeersAtNext(cfg, h, k);
    WellFormedPrefix(h, k + 1);
    assert Init(h[..k + 1]) == h[..k] && Last(h[..k + 1]) == h[k];
  }

  ghost predicate IsCurrent(t: Tracker) {
    Current(t.bloom, t.peers.tracked)
  }

  /** From any point of a run where the filter holds the newest IPs, it does until the first miss. */
  lemma {:induction false} FilterStaysCurrent(cfg: Config, hash: (GossipID, Salt) -> set<int>, salt: Salt,
      h: seq<Event>, i: nat, j: nat)
    requires WellFormed(h) && i <= j <= |h|
    requires IsCurrent(RunAt(cfg, hash, salt, h, i))
    requires forall k :: i <= k < j ==> !Misses(RunAt(cfg, hash, salt, h, k), h[k])
    ensures IsCurrent(RunAt(cfg, hash, salt, h, j))
    decreases j
  {
    if i < j {
      FilterStaysCurrent(cfg, hash, salt, h, i, j - 1);
      RunAtNext(cfg, hash, salt, h, j - 1);
      StepKeepsCurrentIff(RunAt(cfg, hash, salt, h, j - 1), h[j - 1]);
    }
  }

  /**
   Throughout a run every tracked node with a known IP has that IP in the filter, unless it added two since the
   filter was built, exactly if no event of the run misses.
   */
  lemma FilterHoldsNewestIPs(cfg: Config, hash: (GossipID, Salt) -> set<int>, salt: Salt, h: seq<Event>)
    requires WellFormed(h)
    ensures (forall k :: 0 <= k <= |h| ==> IsCurrent(RunAt(cfg, hash, salt, h, k))) <==>
      (forall k :: 0 <= k < |h| ==> !Misses(RunAt(cfg, hash, salt, h, k), h[k]))
  {
    if forall k :: 0 <= k < |h| ==> !Misses(RunAt(cfg, hash, salt, h, k), h[k]) {
      forall k | 0 <= k <= |h|
        ensures IsCurrent(RunAt(cfg, hash, salt, h, k))
      {
        FilterStaysCurrent(cfg, hash, salt, h, 0, k);
      }
    }
    if forall k :: 0 <= k <= |h| ==> IsCurrent(RunAt(cfg, hash, salt, h, k)) {
      forall k | 0 <= k < |h|
        ensures !Misses(RunAt(cfg, hash, salt, h, k), h[k])
      {
        RunAtNext(cfg, hash, salt, h, k);
        assert IsCurrent(RunAt(cfg, hash, salt, h, k)) && IsCurrent(RunAt(cfg, hash, salt, h, k + 1));
        StepKeepsCurrentIff(RunAt(cfg, hash, salt, h, k), h[k]);
      }
    }
  }

  /** Replacing the filter, periodically or because it was full, makes up for every earlier miss. */
  lemma ReplacementIsCurrent(t: Tracker, e: Event)
    requires Inv(t.peers) && Allowed(t.peers, e)
    requires (e.Rebuild? && e.salt.Some?) || Replaces(t, e)
    ensures IsCurrent(Step(t, e))
  {
    StepRecords(t.peers, e);
    var tracked := PeersStep(t.peers, e).tracked;
    RebuiltIsCurrent(t.bloom, tracked, if e.Rebuild? then e.salt.value else e.reset.salt);
  }
}
