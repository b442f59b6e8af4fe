/**
 Which nodes the network dials, and at which address, over every interleaving: in terms of what happened, of what the
 tracker wants and of the IPs that were heard.
 */
module NetworkDials {
  import opened Wrappers
  import opened IPTrackerModel
  import opened NetworkModel
  import IPBloomModel
  import Newest = IPTrackerNewest
  import Runs = IPTrackerRuns

  /** The dial of a node, if it has one. */
  function Entry(t: Tables, n: NodeID): Option<Dial> {
    if n in t.dials then Some(t.dials[n]) else None
  }

  /** No IP heard from the node since it is tracked is as new as this one. */
  ghost predicate IsNews(cfg: Config, log: seq<Runs.Event>, ip: ClaimedIP) {
    Newest.HasReason(cfg, log, ip.node) &&
    forall c :: c in Newest.Heard(cfg, log, ip.node) ==> c.timestamp < ip.timestamp
  }

  /** The dial is of the newest IP heard from its node. */
  ghost predicate IsNewestHeard(cfg: Config, log: seq<Runs.Event>, d: Dial) {
    exists ip :: Newest.IsFirstNewest(Newest.Heard(cfg, log, d.node), ip) && d.addr == ip.addr
  }

  /** The action starts this dial. */
  ghost predicate StartsDial(w: Network, a: Action, d: Dial) {
    match a
    case DialManually(n, addr, id) =>
      d == Dial(id, n, addr) && n !in w.tables.connected && n !in w.tables.dials
    case DialClaim(ip, _, id) =>
      && d == Dial(id, ip.node, ip.addr) && ip.node !in w.tables.connected
      && Wants(w.cfg, w.tracker, ip.node) && IsNews(w.cfg, w.tracker, ip)
    case DropConnecting(p, id) =>
      && d.node == p.node && d.id == id && Wants(w.cfg, w.tracker, p.node)
      && p.node in w.tables.dials && w.tables.dials[p.node].addr == d.addr
    case DropConnected(p, id) =>
      d.node == p.node && d.id == id && Wants(w.cfg, w.tracker, p.node) && IsNewestHeard(w.cfg, w.tracker, d)
    case _ => false
  }

  /** The action ends the dialing of a node: the node connects, nobody wants it any more, or the network closes. */
  ghost predicate EndsDialing(w: Network, a: Action, n: NodeID) {
    match a
    case Promote(p) => p.node == n
    case DropConnecting(p, _) => p.node == n && !Wants(w.cfg, w.tracker, n)
    case GiveUp(d) => d.node == n
    case Close => !w.tables.closing
    case _ => false
  }

  // ---------------------------------------------------------------------------------------
  // What the tracker's history says about newness.
  // ---------------------------------------------------------------------------------------

  lemma NewsIsNewest(cfg: Config, log: seq<Runs.Event>, ip: ClaimedIP)
    requires Runs.WellFormed(log)
    ensures IsNews(cfg, log, ip) <==> IsNewest(Runs.Peers(cfg, log), ip)
  {
    hide IPTrackerModel.Inv, Newest.HasReason, Newest.Heard;
    Newest.KnownIPIsNewestHeard(cfg, log, ip.node);
    var heard := Newest.Heard(cfg, log, ip.node);
    assert forall i :: 0 <= i < |heard| ==> heard[i] in heard;
  }

  /** The address at which a connection is wanted is the one of the newest IP heard. */
  lemma WantedIsNewestHeard(cfg: Config, log: seq<Runs.Event>, d: Dial)
    requires Runs.WellFormed(log)
    ensures WantedAt(cfg, log, d.node) == Some(d.addr) <==> Wants(cfg, log, d.node) && IsNewestHeard(cfg, log, d)
  {
    hide IPTrackerModel.Inv, Newest.HasReason, Newest.Heard, Newest.IsFirstNewest;
    Newest.KnownIPIsNewestHeard(cfg, log, d.node);
    var heard := Newest.Heard(cfg, log, d.node);
    NothingIsNewest();
    if Wants(cfg, log, d.node) && IsNewestHeard(cfg, log, d) {
      var ip :| Newest.IsFirstNewest(heard, ip) && d.addr == ip.addr;
      Newest.FirstNewestIsUnique(heard, ip, Runs.Peers(cfg, log).tracked[d.node].ip.value);
    }
  }

  lemma NothingIsNewest()
    ensures forall ip :: !Newest.IsFirstNewest([], ip)
  {
  }

  // ---------------------------------------------------------------------------------------
  // One action.
  // ---------------------------------------------------------------------------------------

  /** The dial of a node after an action: the one the action starts, none if it ends the dialing, or the same. */
  ghost predicate Follows(w: Network, a: Action, n: NodeID)
    requires Enabled(w, a)
  {
    var before, after := Entry(w.tables, n), Entry(Step(w, a).tables, n);
    && (forall d: Dial :: d.node == n && StartsDial(w, a, d) ==> after == Some(d))
    && (after == before || after.None? || (after.value.node == n && StartsDial(w, a, after.value)))
    && (EndsDialing(w, a, n) ==> after.None?)
    && (before.Some? && after.None? ==> EndsDialing(w, a, n))
  }

  lemma StopFollows(t: Tables, n: NodeID, m: NodeID)
    ensures Entry(Stopped(t, m), n) == if n == m then None else Entry(t, n)
  {
  }

  lemma RedialFollows(t: Tables, d: Dial, n: NodeID)
    ensures Entry(Redialed(t, d), n) == if n == d.node then Some(d) else Entry(t, n)
  {
  }

  lemma DropConnectingFollows(w: Network, p: Peer, id: int, n: NodeID)
    requires NetworkModel.Inv(w) && Enabled(w, DropConnecting(p, id))
    ensures Follows(w, DropConnecting(p, id), n)
  {
    hide NetworkModel.Inv, Stopped, Redialed, Wants, PhaseStep;
    var t1 := w.tables.(connecting := w.tables.connecting - {p.node});
    StopFollows(t1, n, p.node);
    if p.node in w.tables.dials {
      RedialFollows(t1, Dial(id, p.node, w.tables.dials[p.node].addr), n);
    }
  }

  lemma ConnectedHasNoDial(w: Network, p: Peer)
    requires NetworkModel.Inv(w) && p in w.phases && IsConnected(w.phases[p])
    ensures p.node !in w.tables.dials && Runs.WellFormed(w.tracker)
  {
  }

  lemma DropConnectedFollows(w: Network, p: Peer, id: int, n: NodeID)
    requires NetworkModel.Inv(w) && Enabled(w, DropConnected(p, id))
    ensures Follows(w, DropConnected(p, id), n)
  {
    hide NetworkModel.Inv, Wants, WantedAt, IsNewestHeard, PhaseStep;
    ConnectedHasNoDial(w, p);
    forall d: Dial
      ensures WantedAt(w.cfg, w.tracker, d.node) == Some(d.addr) <==>
              Wants(w.cfg, w.tracker, d.node) && IsNewestHeard(w.cfg, w.tracker, d)
    {
      WantedIsNewestHeard(w.cfg, w.tracker, d);
    }
  }

  lemma DialClaimFollows(w: Network, ip: ClaimedIP, reset: IPBloomModel.Reset, id: int, n: NodeID)
    requires NetworkModel.Inv(w) && Enabled(w, DialClaim(ip, reset, id))
    ensures Follows(w, DialClaim(ip, reset, id), n)
  {
    hide Wants, IsNews, PhaseStep, PeersInv, DialsInv, RouterInv, Redialed;
    NewsIsNewest(w.cfg, w.tracker, ip);
    RedialFollows(w.tables, Dial(id, ip.node, ip.addr), n);
  }

  /** Every action starts and ends dials exactly as said. */
  lemma StepFollows(w: Network, a: Action, n: NodeID)
    requires NetworkModel.Inv(w) && Enabled(w, a)
    ensures Follows(w, a, n)
  {
    hide NetworkModel.Inv, Enabled, Follows;
    match a
    case DropConnecting(p, id) => DropConnectingFollows(w, p, id, n);
    case DropConnected(p, id) => DropConnectedFollows(w, p, id, n);
    case DialClaim(ip, reset, id) => DialClaimFollows(w, ip, reset, id, n);
    case Promote(p) => PromoteFollows(w, p, n);
    case _ => OtherFollows(w, a, n);
  }

  lemma PromoteFollows(w: Network, p: Peer, n: NodeID)
    requires NetworkModel.Inv(w) && Enabled(w, Promote(p))
    ensures Follows(w, Promote(p), n)
  {
    hide Wants, PhaseStep, DialsInv, TrackerInv, RouterInv, Stopped;
    assert IsConnecting(w.phases[p]);
    StopFollows(w.tables, n, p.node);
  }

  lemma OtherFollows(w: Network, a: Action, n: NodeID)
    requires Enabled(w, a) && !a.Promote? && !a.DropConnecting? && !a.DropConnected? && !a.DialClaim?
    ensures Follows(w, a, n)
  {
    hide Wants, PhaseStep;
  }

  // ---------------------------------------------------------------------------------------
  // Whole runs.
  // ---------------------------------------------------------------------------------------

  /** The action starts a dial of the node. */
  ghost predicate StartsDialing(w: Network, a: Action, n: NodeID) {
    exists d: Dial :: d.node == n && StartsDial(w, a, d)
  }

  /** The node was dialed at point `k`, and nothing has ended it before point `j`. */
  ghost predicate DialedSince(trace: seq<Network>, actions: seq<Action>, k: nat, j: nat, n: NodeID)
    requires |trace| == |actions| + 1 && k < j < |trace|
  {
    && StartsDialing(trace[k], actions[k], n)
    && forall m :: k < m < j ==> !EndsDialing(trace[m], actions[m], n)
  }

  ghost predicate Dialing(trace: seq<Network>, actions: seq<Action>, j: nat, n: NodeID)
    requires |trace| == |actions| + 1 && j < |trace|
  {
    exists k :: 0 <= k < j && DialedSince(trace, actions, k, j, n)
  }

  lemma DialingNext(trace: seq<Network>, actions: seq<Action>, j: nat, n: NodeID)
    requires |trace| == |actions| + 1 && 0 < j < |trace|
    ensures Dialing(trace, actions, j, n) <==>
      || StartsDialing(trace[j - 1], actions[j - 1], n)
      || (Dialing(trace, actions, j - 1, n) && !EndsDialing(trace[j - 1], actions[j - 1], n))
  {
    hide StartsDialing, EndsDialing;
    if StartsDialing(trace[j - 1], actions[j - 1], n) {
      assert DialedSince(trace, actions, j - 1, j, n);
    } else if Dialing(trace, actions, j - 1, n) && !EndsDialing(trace[j - 1], actions[j - 1], n) {
      var k :| 0 <= k < j - 1 && DialedSince(trace, actions, k, j - 1, n);
      assert DialedSince(trace, actions, k, j, n);
    }
    if Dialing(trace, actions, j, n) && !StartsDialing(trace[j - 1], actions[j - 1], n) {
      var k :| 0 <= k < j && DialedSince(trace, actions, k, j, n);
      assert k < j - 1 && DialedSince(trace, actions, k, j - 1, n);
    }
  }

  /** At every point of every interleaving a node has a dial exactly if one was started and nothing has ended it. */
  lemma {:induction false} DialedIff(me: NodeID, cfg: Config, trace: seq<Network>, actions: seq<Action>, j: nat,
      n: NodeID)
    requires IsRun(me, cfg, trace, actions) && j < |trace|
    ensures n in trace[j].tables.dials <==> Dialing(trace, actions, j, n)
  {
    hide NetworkModel.Inv, Enabled, Step, StartsDial, EndsDialing, DialedSince;
    if j > 0 {
      DialedIff(me, cfg, trace, actions, j - 1, n);
      RunKeepsInv(me, cfg, trace, actions, j - 1);
      assert Goes(trace[j - 1], actions[j - 1], trace[j]);
      StepFollows(trace[j - 1], actions[j - 1], n);
      DialingNext(trace, actions, j, n);
    }
  }

  /** The operator gave the address of the dial, or its node claimed it. */
  ghost predicate IsGiven(actions: seq<Action>, log: seq<Runs.Event>, d: Dial) {
    || (exists k :: 0 <= k < |actions| && actions[k].DialManually? && actions[k].node == d.node &&
          actions[k].addr == d.addr)
    || (exists k :: 0 <= k < |log| && Claims(log[k], d))
  }

  predicate Claims(e: Runs.Event, d: Dial) {
    var c := Runs.ClaimOf(e);
    c.Some? && c.value.node == d.node && c.value.addr == d.addr
  }

  lemma {:induction false} HeardIsClaimed(cfg: Config, log: seq<Runs.Event>, ip: ClaimedIP, n: NodeID, d: Dial)
    requires ip in Newest.Heard(cfg, log, n) && d.node == n && d.addr == ip.addr
    ensures exists k :: 0 <= k < |log| && Claims(log[k], d)
  {
    hide Newest.HasReason;
    var front, e := Runs.Init(log), Runs.Last(log);
    if Claims(e, d) {
      assert log[|log| - 1] == e;
    } else {
      if Newest.HasReason(cfg, front, n) {
        HeardIsClaimed(cfg, front, ip, n, d);
      } else {
        LiveIsClaimed(front, n, d);
      }
      var k :| 0 <= k < |front| && Claims(front[k], d);
      assert log[k] == front[k];
    }
  }

  lemma {:induction false} LiveIsClaimed(log: seq<Runs.Event>, n: NodeID, d: Dial)
    requires Newest.LiveIP(log, n).Some? && d.node == n && d.addr == Newest.LiveIP(log, n).value.addr
    ensures exists k :: 0 <= k < |log| && Claims(log[k], d)
  {
    var front, e := Runs.Init(log), Runs.Last(log);
    if e.Connect? && e.ip.node == n {
      assert log[|log| - 1] == e;
    } else {
      LiveIsClaimed(front, n, d);
      var k :| 0 <= k < |front| && Claims(front[k], d);
      assert log[k] == front[k];
    }
  }

  lemma GivenLater(actions: seq<Action>, log: seq<Runs.Event>, d: Dial, more: seq<Action>, log1: seq<Runs.Event>)
    requires IsGiven(actions, log, d) && log <= log1
    ensures IsGiven(actions + more, log1, d)
  {
    hide Claims;
    if k :| 0 <= k < |actions| && actions[k].DialManually? && actions[k].node == d.node && actions[k].addr == d.addr {
      assert (actions + more)[k] == actions[k];
    } else {
      var k :| 0 <= k < |log| && Claims(log[k], d);
      assert log1[k] == log[k];
    }
  }

  lemma StartIsGiven(w: Network, a: Action, d: Dial, actions: seq<Action>)
    requires Enabled(w, a) && StartsDial(w, a, d)
    requires forall n :: n in w.tables.dials ==>
      w.tables.dials[n].node == n && IsGiven(actions, w.tracker, w.tables.dials[n])
    ensures IsGiven(actions + [a], Step(w, a).tracker, d)
  {
    hide IsNews, Wants, TablesStep, PhaseStep;
    var actions1, log1 := actions + [a], Step(w, a).tracker;
    match a
    case DialManually(_, _, _) => assert actions1[|actions|] == a;
    case DialClaim(_, _, _) => assert Claims(log1[|w.tracker|], d);
    case DropConnecting(p, _) =>
      SameIsGiven(actions, w.tracker, w.tables.dials[p.node], d);
      GivenLater(actions, w.tracker, d, [a], log1);
    case DropConnected(p, _) =>
      var ip :| Newest.IsFirstNewest(Newest.Heard(w.cfg, w.tracker, d.node), ip) && d.addr == ip.addr;
      HeardIsClaimed(w.cfg, w.tracker, ip, d.node, d);
      assert IsGiven(actions, w.tracker, d);
      GivenLater(actions, w.tracker, d, [a], log1);
  }

  lemma SameIsGiven(actions: seq<Action>, log: seq<Runs.Event>, d: Dial, d1: Dial)
    requires IsGiven(actions, log, d) && d1.node == d.node && d1.addr == d.addr
    ensures IsGiven(actions, log, d1)
  {
    if k :| 0 <= k < |log| && Claims(log[k], d) {
      assert Claims(log[k], d1);
    }
  }

  /** In every interleaving, a node is only dialed where the operator said or where it said itself. */
  lemma {:induction false} DialedAddressIsGiven(me: NodeID, cfg: Config, trace: seq<Network>, actions: seq<Action>,
      j: nat, d: Dial)
    requires IsRun(me, cfg, trace, actions) && j < |trace| && d in trace[j].started
    ensures IsGiven(actions[..j], trace[j].tracker, d)
    decreases j
  {
    hide NetworkModel.Inv, Enabled, StartsDial, EndsDialing, IsGiven, TablesStep, PhaseStep;
    if j > 0 {
      var w, a := trace[j - 1], actions[j - 1];
      assert Goes(w, a, trace[j]);
      assert actions[..j] == actions[..j - 1] + [a];
      if d in w.started {
        DialedAddressIsGiven(me, cfg, trace, actions, j - 1, d);
        GivenLater(actions[..j - 1], w.tracker, d, [a], trace[j].tracker);
      } else {
        RunKeepsInv(me, cfg, trace, actions, j - 1);
        forall n | n in w.tables.dials
          ensures w.tables.dials[n].node == n && IsGiven(actions[..j - 1], w.tracker, w.tables.dials[n])
        {
          DialsAreStarted(w, n);
          DialedAddressIsGiven(me, cfg, trace, actions, j - 1, w.tables.dials[n]);
        }
        NewIsStarted(w, a, d);
        StartIsGiven(w, a, d, actions[..j - 1]);
      }
    }
  }

  lemma DialsAreStarted(w: Network, n: NodeID)
    requires NetworkModel.Inv(w) && n in w.tables.dials
    ensures w.tables.dials[n].node == n && w.tables.dials[n] in w.started
  {
  }

  lemma NewIsStarted(w: Network, a: Action, d: Dial)
    requires NetworkModel.Inv(w) && Enabled(w, a) && d in Step(w, a).started && d !in w.started
    ensures StartsDial(w, a, d)
  {
    hide NetworkModel.Inv, Enabled, TablesStep, PhaseStep, StartsDial, EndsDialing;
    StepKeepsInv(w, a);
    var n :| n in Step(w, a).tables.dials && Step(w, a).tables.dials[n] == d;
    if n in w.tables.dials {
      DialsAreStarted(w, n);
    }
    StepFollows(w, a, n);
  }
}
