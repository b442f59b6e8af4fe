/**
 That a Simplex chain can go on: in every reachable session the last indexed block is known, a block built on it can
 be verified and indexed, and the known blocks are those the session has verified and not left behind.
 */
module SimplexProgress {
  import opened Wrappers
  import opened BlockTree
  import opened SimplexStorageModel

  /** A run from a fresh database. */
  ghost predicate Reaches(p: Params, genesis: InnerBlock, trace: seq<Node>, actions: seq<Action>) {
    Configured(p, genesis) && IsRun(p, trace, actions) && trace[0] == Init(p, genesis)
  }

  /** The block comes next after the last one: by number, by digest, by inner parent and by inner height. */
  predicate ComesNext(p: Params, node: Node, b: Block) {
    && node.indexed != []
    && Built(p, b)
    && var tip := node.indexed[|node.indexed| - 1];
    && b.metadata.sequence == |node.indexed| && b.metadata.prev == tip.digest
    && b.inner.parent == tip.inner.id && p.height(b.inner.id) == p.height(tip.inner.id) + 1
  }

  /**
   In every reachable session, a block that comes next is verified if the VM agrees, and a finalization of it with a
   certificate is then indexed: the session goes on with the block as its last one.
   */
  lemma NextBlockIsIndexed(p: Params, genesis: InnerBlock, trace: seq<Node>, actions: seq<Action>, i: nat, b: Block,
      f: Finalization)
    requires Reaches(p, genesis, trace, actions) && i < |trace| && trace[i].session.Some?
    requires ComesNext(p, trace[i], b)
    requires f.digest == b.digest && f.metadata == b.metadata && f.qc.Some?
    ensures Allowed(p, trace[i], DoVerify(b, true, true))
    ensures var verified := Step(p, trace[i], DoVerify(b, true, true));
      && Verify(trace[i].session.value, b, true, true).Ok?
      && Allowed(p, verified, DoIndex(b, f, Complete))
      && var next := Step(p, verified, DoIndex(b, f, Complete));
         && next.session.Some? && next.indexed == trace[i].indexed + [b]
         && next.session.value.numBlocks == |next.indexed| && next.session.value.lastDigest == b.digest
         && b.digest in next.session.value.tracked && next.session.value.tracked[b.digest] == b
  {
    hide ChainInv, DiskInv, TrackedInv, CollisionFree;
    RunKeepsInv(p, genesis, trace, actions, i);
    var node := trace[i];
    VerifyKeepsInv(p, genesis, node, b, true, true);
    var verified := Step(p, node, DoVerify(b, true, true));
    IndexKeepsInv(p, genesis, verified, DoIndex(b, f, Complete));
  }

  // ---------------------------------------------------------------------------------------
  // Which blocks a session knows.
  // ---------------------------------------------------------------------------------------

  /** The action makes the session know the block: it verifies it, or starts from it as the last indexed one. */
  ghost predicate Learns(node: Node, a: Action, b: Block) {
    match a
    case DoVerify(c, vmOk, preferenceOk) =>
      && node.session.Some? && c == b && b.metadata.sequence > 0
      && var s := node.session.value;
         && (exists q :: q in s.tracked.Values && q.digest == b.metadata.prev && q.inner.id == b.inner.parent)
         && (b.inner in s.tree || (vmOk && preferenceOk))
    case DoRestart => node.indexed != [] && b == node.indexed[|node.indexed| - 1]
    case _ => false
  }

  /** The action makes the session forget the block: the session ends, or a block of a greater number is indexed. */
  ghost predicate Forgets(p: Params, node: Node, a: Action, b: Block)
    requires Allowed(p, node, a)
  {
    || Step(p, node, a).session.None?
    || (a.DoIndex? && a.indexed.metadata.sequence > b.metadata.sequence)
  }

  /** The node has a session that knows the block. */
  ghost predicate Knows(node: Node, b: Block) {
    node.session.Some? && b in node.session.value.tracked.Values
  }

  lemma KnowsByDigest(p: Params, genesis: InnerBlock, node: Node, b: Block)
    requires Inv(p, genesis, node)
    ensures Knows(node, b) <==>
      node.session.Some? && b.digest in node.session.value.tracked && node.session.value.tracked[b.digest] == b
  {
    hide ChainInv, DiskInv, TipInv, Linked, Built;
    if Knows(node, b) {
      var d :| d in node.session.value.tracked && node.session.value.tracked[d] == b;
    }
  }

  lemma VerifyLearns(p: Params, genesis: InnerBlock, node: Node, a: Action, b: Block)
    requires Configured(p, genesis) && Inv(p, genesis, node) && Allowed(p, node, a) && a.DoVerify? && Built(p, b)
    ensures Knows(Step(p, node, a), b) <==> Learns(node, a, b) || Knows(node, b)
  {
    hide ChainInv, DiskInv, TipInv, Linked, Built, CollisionFree;
    var s, c := node.session.value, a.block;
    VerifyKeepsInv(p, genesis, node, c, a.vmOk, a.preferenceOk);
    KnowsByDigest(p, genesis, node, b);
    KnowsByDigest(p, genesis, Step(p, node, a), b);
    if c.digest == b.digest {
      SameDigest(p, b, c);
    }
    if c.metadata.prev in s.tracked {
      assert s.tracked[c.metadata.prev] in s.tracked.Values;
    }
    PrevIsKnown(p, s, c);
  }

  lemma PrevIsKnown(p: Params, s: Session, b: Block)
    requires TrackedInv(p, s)
    ensures (exists q :: q in s.tracked.Values && q.digest == b.metadata.prev && q.inner.id == b.inner.parent) <==>
            b.metadata.prev in s.tracked && s.tracked[b.metadata.prev].inner.id == b.inner.parent
  {
    if b.metadata.prev in s.tracked {
      assert s.tracked[b.metadata.prev] in s.tracked.Values;
    }
  }

  lemma IndexForgets(p: Params, genesis: InnerBlock, node: Node, a: Action, b: Block)
    requires Configured(p, genesis) && Inv(p, genesis, node) && Allowed(p, node, a) && a.DoIndex?
    ensures Knows(Step(p, node, a), b) <==> Knows(node, b) && !Forgets(p, node, a, b)
  {
    hide ChainInv, DiskInv, Linked, CollisionFree;
    IndexKeepsInv(p, genesis, node, a);
    KnowsByDigest(p, genesis, node, b);
    KnowsByDigest(p, genesis, Step(p, node, a), b);
    if a.indexed.digest in node.session.value.tracked {
      SameDigest(p, node.session.value.tracked[a.indexed.digest], a.indexed);
    }
  }

  lemma RestartLearns(p: Params, genesis: InnerBlock, node: Node, b: Block)
    requires Configured(p, genesis) && Inv(p, genesis, node) && Allowed(p, node, DoRestart)
    ensures Knows(Step(p, node, DoRestart), b) <==> Learns(node, DoRestart, b)
  {
    hide ChainInv, DiskInv, CollisionFree;
    RestartRecoversTip(p, genesis, node);
    RestartKeepsInv(p, genesis, node);
    KnowsByDigest(p, genesis, Step(p, node, DoRestart), b);
  }

  /** A session knows a block after an action exactly if the action makes it, or it did and does not forget it. */
  lemma StepKnows(p: Params, genesis: InnerBlock, node: Node, a: Action, b: Block)
    requires Configured(p, genesis) && Inv(p, genesis, node) && Allowed(p, node, a) && Built(p, b)
    ensures Knows(Step(p, node, a), b) <==> Learns(node, a, b) || (Knows(node, b) && !Forgets(p, node, a, b))
  {
    hide Inv, Configured, Learns, Built;
    match a
    case DoVerify(_, _, _) =>
      VerifyLearns(p, genesis, node, a, b);
    case DoIndex(_, _, _) =>
      IndexForgets(p, genesis, node, a, b);
      IndexLearnsNothing(node, a, b);
    case Crash => IndexLearnsNothing(node, a, b);
    case DoRestart => RestartLearns(p, genesis, node, b);
  }

  lemma IndexLearnsNothing(node: Node, a: Action, b: Block)
    requires a.DoIndex? || a.Crash?
    ensures !Learns(node, a, b)
  {
  }

  /** The session learned the block at point `k`, and has not forgotten it before point `j`. */
  ghost predicate KnownSince(p: Params, trace: seq<Node>, actions: seq<Action>, k: nat, j: nat, b: Block)
    requires IsRun(p, trace, actions) && k < j < |trace|
  {
    && Learns(trace[k], actions[k], b)
    && forall m :: k < m < j ==> Allowed(p, trace[m], actions[m]) && !Forgets(p, trace[m], actions[m], b)
  }

  ghost predicate Known(p: Params, trace: seq<Node>, actions: seq<Action>, j: nat, b: Block)
    requires IsRun(p, trace, actions) && j < |trace|
  {
    exists k :: 0 <= k < j && KnownSince(p, trace, actions, k, j, b)
  }

  lemma KnownNext(p: Params, trace: seq<Node>, actions: seq<Action>, j: nat, b: Block)
    requires IsRun(p, trace, actions) && 0 < j < |trace| && Allowed(p, trace[j - 1], actions[j - 1])
    ensures Known(p, trace, actions, j, b) <==>
      || Learns(trace[j - 1], actions[j - 1], b)
      || (Known(p, trace, actions, j - 1, b) && !Forgets(p, trace[j - 1], actions[j - 1], b))
  {
    hide Learns, Forgets, Allowed, Step;
    if Learns(trace[j - 1], actions[j - 1], b) {
      assert KnownSince(p, trace, actions, j - 1, j, b);
    } else if Known(p, trace, actions, j - 1, b) && !Forgets(p, trace[j - 1], actions[j - 1], b) {
      var k :| 0 <= k < j - 1 && KnownSince(p, trace, actions, k, j - 1, b);
      assert KnownSince(p, trace, actions, k, j, b);
    }
    if Known(p, trace, actions, j, b) && !Learns(trace[j - 1], actions[j - 1], b) {
      var k :| 0 <= k < j && KnownSince(p, trace, actions, k, j, b);
      assert k < j - 1 && KnownSince(p, trace, actions, k, j - 1, b);
    }
  }

  /** At every point of every run, a block is known exactly if it was verified in this session, or is what the session
      started from, and no block of a greater number was indexed since. */
  lemma {:induction false} KnownIff(p: Params, genesis: InnerBlock, trace: seq<Node>, actions: seq<Action>, j: nat,
      b: Block)
    requires Reaches(p, genesis, trace, actions) && j < |trace| && Built(p, b)
    ensures Knows(trace[j], b) <==> Known(p, trace, actions, j, b)
  {
    hide Inv, Configured, Learns, Forgets, Knows, Allowed, Step, KnownSince;
    if j > 0 {
      KnownIff(p, genesis, trace, actions, j - 1, b);
      RunKeepsInv(p, genesis, trace, actions, j - 1);
      assert Allowed(p, trace[j - 1], actions[j - 1]) && trace[j] == Step(p, trace[j - 1], actions[j - 1]);
      StepKnows(p, genesis, trace[j - 1], actions[j - 1], b);
      KnownNext(p, trace, actions, j, b);
    } else {
      StartsUnknown(p, genesis, b);
    }
  }

  lemma StartsUnknown(p: Params, genesis: InnerBlock, b: Block)
    ensures !Knows(Init(p, genesis), b)
  {
  }
}
