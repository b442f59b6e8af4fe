/**
 Which IP the tracker knows of a node, in terms of what was heard from the node, and how many of them its filter holds.
 */
module IPTrackerNewest {
  import opened Wrappers
  import opened IPTrackerModel
  import opened IPBloomModel
  import opened IPTrackerRuns

  /** There is a reason to track the node. */
  ghost predicate HasReason(cfg: Config, h: seq<Event>, n: NodeID) {
    TrackRequested(cfg, h, n) || exists s :: MayGossip(h, s, n)
  }

  /** The IP the node connected with, if it is connected. */
  function LiveIP(h: seq<Event>, n: NodeID): Option<ClaimedIP> {
    if h == [] then None
    else if Last(h).Connect? && Last(h).ip.node == n then Some(Last(h).ip)
    else if Last(h) == Disconnect(n) then None
    else LiveIP(Init(h), n)
  }

  /**
   The IPs heard from the node since there is a reason to track it: the one of its connection at that moment, if it had
   one, and all that were claimed or connected with since.
   */
  ghost function Heard(cfg: Config, h: seq<Event>, n: NodeID): seq<ClaimedIP> {
    if h == [] || !HasReason(cfg, h, n) then []
    else if !HasReason(cfg, Init(h), n) then
      var live := LiveIP(Init(h), n);
      if live.Some? then [live.value] else []
    else
      var c := ClaimOf(Last(h));
      Heard(cfg, Init(h), n) + if c.Some? && c.value.node == n then [c.value] else []
  }

  /** The IP is in the list, none has a greater timestamp, and it comes before all with the same. */
  ghost predicate IsFirstNewest(heard: seq<ClaimedIP>, ip: ClaimedIP) {
    exists i :: 0 <= i < |heard| && heard[i] == ip &&
      forall j :: 0 <= j < |heard| ==>
        if j < i then heard[j].timestamp < ip.timestamp else heard[j].timestamp <= ip.timestamp
  }

  /** There is one such IP at most. */
  lemma FirstNewestIsUnique(heard: seq<ClaimedIP>, ip: ClaimedIP, other: ClaimedIP)
    requires IsFirstNewest(heard, ip) && IsFirstNewest(heard, other)
    ensures ip == other
  {
  }

  lemma StepLiveIP(st: State, e: Event, n: NodeID)
    requires AllIndexed(st)
    ensures var st1 := PeersStep(st, e);
      (if n in st1.connected then Some(st1.connected[n].ip) else None) ==
        if e.Connect? && e.ip.node == n then Some(e.ip)
        else if e == Disconnect(n) then None
        else if n in st.connected then Some(st.connected[n].ip) else None
  {
    hide AllIndexed, Enroll, Expel, Join, Leave;
  }

  lemma {:induction false} LiveIPFollowsHistory(cfg: Config, h: seq<Event>, n: NodeID)
    requires WellFormed(h)
    ensures var st := Peers(cfg, h); LiveIP(h, n) == if n in st.connected then Some(st.connected[n].ip) else None
  {
    hide Inv, PeersStep;
    if h != [] {
      WellFormedInit(h);
      LiveIPFollowsHistory(cfg, Init(h), n);
      CoreOf(Peers(cfg, Init(h)));
      StepLiveIP(Peers(cfg, Init(h)), Last(h), n);
    }
  }

  /** A node that starts being tracked is known by the IP of its connection, if it has one. */
  lemma StepStartsTracking(st: State, e: Event, n: NodeID)
    requires Inv(st) && Allowed(st, e)
    requires n !in st.tracked && n in PeersStep(st, e).tracked
    ensures PeersStep(st, e).tracked[n].ip == if n in st.connected then Some(st.connected[n].ip) else None
  {
    hide Inv, AllIndexed, PeersStep, Join, Leave, Expel;
    CoreOf(st);
    TrackedAfter(st, e);
  }

  lemma HeardMore(heard: seq<ClaimedIP>, ip: ClaimedIP, c: ClaimedIP)
    requires IsFirstNewest(heard, ip)
    ensures IsFirstNewest(heard + [c], if ip.timestamp < c.timestamp then c else ip)
  {
    var more := heard + [c];
    if ip.timestamp < c.timestamp {
      assert more[|heard|] == c;
    } else {
      var i :| 0 <= i < |heard| && heard[i] == ip &&
        forall j :: 0 <= j < |heard| ==>
          if j < i then heard[j].timestamp < ip.timestamp else heard[j].timestamp <= ip.timestamp;
      assert more[i] == ip;
    }
  }

  lemma HeardFirst(ip: ClaimedIP)
    ensures IsFirstNewest([ip], ip)
  {
    assert [ip][0] == ip;
  }

  /** The known IP is the newest one heard. */
  ghost predicate KnowsNewest(heard: seq<ClaimedIP>, ip: Option<ClaimedIP>) {
    if heard == [] then ip.None? else ip.Some? && IsFirstNewest(heard, ip.value)
  }

  lemma HeardExtends(heard: seq<ClaimedIP>, before: Option<ClaimedIP>, c: ClaimedIP, after: Option<ClaimedIP>)
    requires KnowsNewest(heard, before)
    requires after == if before.None? || before.value.timestamp < c.timestamp then Some(c) else before
    ensures KnowsNewest(heard + [c], after)
  {
    if heard == [] {
      assert heard + [c] == [c];
      HeardFirst(c);
    } else {
      HeardMore(heard, before.value, c);
    }
  }

  /**
   After any run, the IP known of a tracked node is one heard from it since it became tracked; none heard since has a
   greater timestamp, and of those with an equal one the first stays. Nothing is known only if nothing was heard.
   */
  lemma {:induction false} KnownIPIsNewestHeard(cfg: Config, h: seq<Event>, n: NodeID)
    requires WellFormed(h)
    ensures n in Peers(cfg, h).tracked <==> HasReason(cfg, h, n)
    ensures n in Peers(cfg, h).tracked ==> KnowsNewest(Heard(cfg, h, n), Peers(cfg, h).tracked[n].ip)
  {
    hide Inv, PeersStep, KnowsNewest, HasReason;
    TracksReasons(cfg, h, n);
    if h != [] && HasReason(cfg, h, n) {
      WellFormedInit(h);
      var st, e := Peers(cfg, Init(h)), Last(h);
      TracksReasons(cfg, Init(h), n);
      AllowedNext(cfg, h);
      CoreOf(st);
      assert Peers(cfg, h) == PeersStep(st, e);
      if HasReason(cfg, Init(h), n) {
        KnownIPIsNewestHeard(cfg, Init(h), n);
        StepKeepsNewest(st, e, n);
        var c := ClaimOf(e);
        if c.Some? && c.value.node == n {
          HeardExtends(Heard(cfg, Init(h), n), st.tracked[n].ip, c.value, PeersStep(st, e).tracked[n].ip);
        } else {
          assert Heard(cfg, Init(h), n) + [] == Heard(cfg, Init(h), n);
        }
      } else {
        LiveIPFollowsHistory(cfg, Init(h), n);
        StepStartsTracking(st, e, n);
        StartsKnown(LiveIP(Init(h), n));
      }
    } else if h == [] {
      NoReasons(cfg, n);
    }
  }

  lemma StartsKnown(live: Option<ClaimedIP>)
    ensures KnowsNewest(if live.Some? then [live.value] else [], live)
  {
    if live.Some? {
      HeardFirst(live.value);
    }
  }

  lemma NoReasons(cfg: Config, n: NodeID)
    ensures !HasReason(cfg, [], n)
  {
  }

  lemma TracksReasons(cfg: Config, h: seq<Event>, n: NodeID)
    requires WellFormed(h)
    ensures n in Peers(cfg, h).tracked <==> HasReason(cfg, h, n)
  {
    TrackedFollowsHistory(cfg, h, n);
  }

  lemma AllowedNext(cfg: Config, h: seq<Event>)
    requires WellFormed(h) && h != []
    ensures WellFormed(Init(h)) && Inv(Peers(cfg, Init(h))) && Allowed(Peers(cfg, Init(h)), Last(h))
  {
    WellFormedInit(h);
  }

  /** After any run, what is gossiped of a node on a subnet is the newest IP heard from it. */
  lemma GossipsNewestHeard(cfg: Config, h: seq<Event>, s: SubnetID, n: NodeID)
    requires WellFormed(h)
    ensures var entry := EntryOf(Peers(cfg, h), s, n); entry.Some? ==> IsFirstNewest(Heard(cfg, h, n), entry.value)
  {
    hide Inv, EntryOf, HasReason, Heard, IsFirstNewest;
    GossipFollowsHistory(cfg, h, s, n);
    KnownIPIsNewestHeard(cfg, h, n);
  }

  // ---------------------------------------------------------------------------------------
  // The counts of the filter.
  // ---------------------------------------------------------------------------------------

  /** The event replaces the filter, periodically or because it was full. */
  predicate Renews(t: Tracker, e: Event) {
    (e.Rebuild? && e.salt.Some?) || Replaces(t, e)
  }

  /** Another IP becomes known of the node, and the filter grows. */
  ghost predicate Grows(t: Tracker, t1: Tracker, n: NodeID) {
    && Known(t1.peers.tracked, n)
    && !(Known(t.peers.tracked, n) && t.peers.tracked[n].ip == t1.peers.tracked[n].ip)
    && t1.bloom.positions != t.bloom.positions
  }

  /** How often the filter grew by an IP of the node since it was built, which counts as one if the IP was known. */
  ghost function Growths(cfg: Config, hash: (GossipID, Salt) -> set<int>, salt: Salt, h: seq<Event>, n: NodeID): nat
    requires WellFormed(h)
  {
    if h == [] then 0
    else
      WellFormedInit(h);
      var t, t1 := Run(cfg, hash, salt, Init(h)), Run(cfg, hash, salt, h);
      if Renews(t, Last(h)) then if Known(t1.peers.tracked, n) then 1 else 0
      else Growths(cfg, hash, salt, Init(h), n) + if Grows(t, t1, n) then 1 else 0
  }

  lemma RecordedIsChange(st: State, e: Event, n: NodeID)
    requires Inv(st) && Allowed(st, e)
    ensures var tracked := PeersStep(st, e).tracked;
      (Recorded(st, e).Some? && Recorded(st, e).value.node == n) <==>
      (Known(tracked, n) && !(Known(st.tracked, n) && st.tracked[n].ip == tracked[n].ip))
  {
    hide Inv, PeersStep;
    CoreOf(st);
    StepRecords(st, e);
  }

  lemma RecordCounts(b: Bloom, tracked: map<NodeID, TrackedNode>, ip: ClaimedIP, r: Reset, n: NodeID)
    requires !(r.Fresh? && Additions(b, ip.node) < MAX_IP_ENTRIES_PER_NODE)
    ensures var b1 := Record(b, tracked, ip, r);
      Additions(b1, n) == Additions(b, n) + if ip.node == n && b1.positions != b.positions then 1 else 0
  {
    var more := b.positions + b.hash(ip.gossip, b.salt);
    assert b.hash(ip.gossip, b.salt) <= more;
  }

  lemma StepCounts(t: Tracker, e: Event, n: NodeID)
    requires Inv(t.peers) && Allowed(t.peers, e)
    ensures var t1 := Step(t, e);
      Additions(t1.bloom, n) ==
        if Renews(t, e) then if Known(t1.peers.tracked, n) then 1 else 0
        else Additions(t.bloom, n) + if Grows(t, t1, n) then 1 else 0
  {
    hide Inv, PeersStep;
    CoreOf(t.peers);
    RecordedIsChange(t.peers, e, n);
    var ip := Recorded(t.peers, e);
    if ip.Some? && !Renews(t, e) {
      RecordCounts(t.bloom, PeersStep(t.peers, e).tracked, ip.value, e.reset, n);
    }
  }

  /** After any run, a node's count is how often the filter grew by one of its IPs since it was built. */
  lemma {:induction false} CountsAreGrowths(cfg: Config, hash: (GossipID, Salt) -> set<int>, salt: Salt, h: seq<Event>,
      n: NodeID)
    requires WellFormed(h)
    ensures Additions(Run(cfg, hash, salt, h).bloom, n) == Growths(cfg, hash, salt, h, n)
  {
    hide Inv, Step, Grows, Renews;
    if h != [] {
      AllowedNext(cfg, h);
      CountsAreGrowths(cfg, hash, salt, Init(h), n);
      StepCounts(Run(cfg, hash, salt, Init(h)), Last(h), n);
    }
  }

  // ---------------------------------------------------------------------------------------
  // The positions of the filter.
  // ---------------------------------------------------------------------------------------

  /** The position is one of an IP that is known of some node. */
  ghost predicate Owned(b: Bloom, tracked: map<NodeID, TrackedNode>, p: int) {
    exists n :: Known(tracked, n) && p in b.hash(tracked[n].ip.value.gossip, b.salt)
  }

  /** What one event adds to the filter are positions of IPs known after it; a renewed filter has no others. */
  lemma StepOwns(t: Tracker, e: Event, p: int)
    requires Inv(t.peers) && Allowed(t.peers, e) && p in Step(t, e).bloom.positions
    ensures var t1 := Step(t, e);
      Owned(t1.bloom, t1.peers.tracked, p) || (p in t.bloom.positions && t1.bloom.salt == t.bloom.salt && !Renews(t, e))
    ensures Step(t, e).bloom.hash == t.bloom.hash
  {
    hide Inv, PeersStep;
    CoreOf(t.peers);
    StepRecords(t.peers, e);
    var t1 := Step(t, e);
    var ip := Recorded(t.peers, e);
    if Renews(t, e) {
      var n :| n in t1.peers.tracked && t1.peers.tracked[n].ip.Some? &&
        p in t.bloom.hash(t1.peers.tracked[n].ip.value.gossip, t1.bloom.salt);
      assert Known(t1.peers.tracked, n);
    } else if ip.Some? && p !in t.bloom.positions {
      assert Known(t1.peers.tracked, ip.value.node);
    }
  }

  /** A renewed filter has the salt that was drawn for it. */
  lemma RenewedSalt(t: Tracker, e: Event)
    requires Inv(t.peers) && Allowed(t.peers, e)
    ensures Step(t, e).bloom.salt ==
      if e.Rebuild? && e.salt.Some? then e.salt.value else if Replaces(t, e) then e.reset.salt else t.bloom.salt
  {
    hide Inv, PeersStep;
    CoreOf(t.peers);
  }

  /** The position was one of a known IP, at some point of the run at which the filter had the salt it has now. */
  ghost predicate OwnedBefore(cfg: Config, hash: (GossipID, Salt) -> set<int>, salt: Salt, h: seq<Event>, p: int)
    requires WellFormed(h)
  {
    exists k :: 0 <= k <= |h| && OwnedAt(cfg, hash, salt, h, k, p)
  }

  ghost predicate OwnedAt(cfg: Config, hash: (GossipID, Salt) -> set<int>, salt: Salt, h: seq<Event>, k: nat, p: int)
    requires WellFormed(h) && k <= |h|
  {
    var t := RunAt(cfg, hash, salt, h, k);
    t.bloom.salt == Run(cfg, hash, salt, h).bloom.salt && Owned(t.bloom, t.peers.tracked, p)
  }

  /** After any run, the filter has no position but those of IPs that were known while it had its salt. */
  lemma {:induction false} FilterHoldsOnlyKnown(cfg: Config, hash: (GossipID, Salt) -> set<int>, salt: Salt,
      h: seq<Event>, p: int)
    requires WellFormed(h) && p in Run(cfg, hash, salt, h).bloom.positions
    ensures OwnedBefore(cfg, hash, salt, h, p)
  {
    hide Inv, Step, Owned, Renews;
    if h != [] {
      AllowedNext(cfg, h);
      var front := Init(h);
      var t, t1 := Run(cfg, hash, salt, front), Run(cfg, hash, salt, h);
      StepOwns(t, Last(h), p);
      if Owned(t1.bloom, t1.peers.tracked, p) {
        assert h[..|h|] == h;
        assert OwnedAt(cfg, hash, salt, h, |h|, p);
      } else {
        FilterHoldsOnlyKnown(cfg, hash, salt, front, p);
        var k :| 0 <= k <= |front| && OwnedAt(cfg, hash, salt, front, k, p);
        assert front[..k] == h[..k];
        assert OwnedAt(cfg, hash, salt, h, k, p);
      }
    }
  }
}
