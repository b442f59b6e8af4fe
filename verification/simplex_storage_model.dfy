/**
 The Simplex block tracker and block storage as a state machine: blocks are verified and indexed, the process may
 stop at any write, and a restart rebuilds its state from the database and the VM. Digests, inner block IDs and
 inner heights are parameters.
 */
module SimplexStorageModel {
  import opened Wrappers
  import opened BlockTree

  datatype Digest = Digest(value: nat)

  datatype Blacklist = Blacklist(bytes: nat)

  datatype Certificate = Certificate(bytes: nat)

  datatype Metadata = Metadata(version: nat, epoch: nat, round: nat, sequence: nat, prev: Digest)

  datatype Block = Block(digest: Digest, metadata: Metadata, inner: InnerBlock, blacklist: Blacklist)

  datatype Finalization = Finalization(metadata: Metadata, digest: Digest, qc: Option<Certificate>)

  /** What the hash, the VM and the chain's configuration fix. */
  datatype Params = Params(
    digest: (Metadata, InnerBlock, Blacklist) -> Digest,
    height: ID -> nat,
    genesisMetadata: Metadata,
    genesisBlacklist: Blacklist,
    emptyBlacklist: Blacklist)

  /** What survives a crash: the two kinds of database entries, and the blocks the VM accepted, by height. */
  datatype Disk = Disk(
    finalizations: map<nat, Finalization>,
    blacklists: map<nat, Blacklist>,
    accepted: seq<InnerBlock>)

  datatype Session = Session(
    numBlocks: nat,
    lastDigest: Digest,
    tracked: map<Digest, Block>,
    tree: set<InnerBlock>)

  /** A node, its session when it runs, and the blocks it has indexed so far. */
  datatype Node = Node(disk: Disk, session: Option<Session>, indexed: seq<Block>)

  function NewBlock(p: Params, m: Metadata, inner: InnerBlock, blacklist: Blacklist): Block {
    Block(p.digest(m, inner, blacklist), m, inner, blacklist)
  }

  predicate Built(p: Params, b: Block) {
    b.digest == p.digest(b.metadata, b.inner, b.blacklist)
  }

  function Genesis(p: Params, inner: InnerBlock): Block {
    NewBlock(p, p.genesisMetadata, inner, p.genesisBlacklist)
  }

  // ---------------------------------------------------------------------------------------
  // Operations.
  // ---------------------------------------------------------------------------------------

  datatype VerifyError =
    | GenesisVerification
    | DigestNotFound
    | MismatchedPrevDigest
    | InnerVerification
    | Preference

  /** Verifying a block; `vmOk` and `preferenceOk` are the VM's answers. */
  function Verify(s: Session, b: Block, vmOk: bool, preferenceOk: bool): Result<Session, VerifyError> {
    if b.metadata.sequence == 0 then Err(GenesisVerification)
    else if b.metadata.prev !in s.tracked then Err(DigestNotFound)
    else if b.inner.parent != s.tracked[b.metadata.prev].inner.id then Err(MismatchedPrevDigest)
    else if b.inner in s.tree then Ok(s.(tracked := s.tracked[b.digest := b]))
    else if !vmOk then Err(InnerVerification)
    else if !preferenceOk then Err(Preference)
    else Ok(s.(tracked := s.tracked[b.digest := b], tree := s.tree + {b.inner}))
  }

  /** The checks before anything is written. */
  predicate Indexable(s: Session, b: Block, f: Finalization) {
    && s.numBlocks == b.metadata.sequence
    && s.lastDigest == b.metadata.prev
    && b.digest == f.digest
    && f.qc.Some?
  }

  function PutFinalization(d: Disk, b: Block, f: Finalization): Disk {
    d.(finalizations := d.finalizations[b.metadata.sequence := f])
  }

  function PutBlacklist(d: Disk, b: Block): Disk {
    d.(blacklists := d.blacklists[b.metadata.sequence := b.blacklist])
  }

  function Accept(d: Disk, inner: InnerBlock): Disk {
    d.(accepted := d.accepted + [inner])
  }

  /** What is still tracked: nothing below the accepted sequence number. */
  function Pruned(tracked: map<Digest, Block>, sequence: nat): map<Digest, Block> {
    map d | d in tracked && tracked[d].metadata.sequence >= sequence :: tracked[d]
  }

  /** Where an indexing call stops. */
  datatype Stop = BeforeFinalization | AfterFinalization | AfterBlacklist | AfterAccept | Complete

  /** An index call; whenever it fails or is cut short, the session ends. */
  ghost function Index(node: Node, b: Block, f: Finalization, stop: Stop): Node
    requires node.session.Some?
  {
    var s := node.session.value;
    if !Indexable(s, b, f) || stop.BeforeFinalization? then node.(session := None)
    else
      var d1 := PutFinalization(node.disk, b, f);
      if stop.AfterFinalization? then node.(disk := d1, session := None)
      else
        var d2 := PutBlacklist(d1, b);
        if stop.AfterBlacklist? || b.digest !in s.tracked then node.(disk := d2, session := None)
        else
          var inner := s.tracked[b.digest].inner;
          var d3 := Accept(d2, inner);
          if stop.AfterAccept? then Node(d3, None, node.indexed + [b])
          else
            var pruned := Pruned(s.tracked, s.tracked[b.digest].metadata.sequence);
            Node(d3, Some(Session(s.numBlocks + 1, b.digest, pruned, Remaining(s.tree, inner))), node.indexed + [b])
  }

  function BlacklistAt(p: Params, d: Disk, height: nat): Blacklist {
    if height in d.blacklists then d.blacklists[height] else p.emptyBlacklist
  }

  /** The block at a height, rebuilt from what is stored. */
  function Retrieve(p: Params, d: Disk, height: nat): Option<Block> {
    if height == 0 then
      if d.accepted == [] then None else Some(Genesis(p, d.accepted[0]))
    else if height >= |d.accepted| || height !in d.finalizations then None
    else Some(NewBlock(p, d.finalizations[height].metadata, d.accepted[height], BlacklistAt(p, d, height)))
  }

  /** Starting from what is stored; fails when the last accepted block cannot be rebuilt. */
  function Restart(p: Params, d: Disk): Option<Session> {
    if d.accepted == [] then None
    else
      var height := p.height(d.accepted[|d.accepted| - 1].id);
      match Retrieve(p, d, height)
      case None => None
      case Some(tip) => Some(Session(height + 1, tip.digest, map[tip.digest := tip], {}))
  }

  // ---------------------------------------------------------------------------------------
  // Runs.
  // ---------------------------------------------------------------------------------------

  datatype Action =
    | DoVerify(block: Block, vmOk: bool, preferenceOk: bool)
    | DoIndex(indexed: Block, finalization: Finalization, stop: Stop)
    | Crash
    | DoRestart

  /** What callers and the VM guarantee: blocks carry their own digest, the VM only verifies blocks one above their
      parent, and a finalization of a digest has the header of the block with that digest. */
  predicate Allowed(p: Params, node: Node, a: Action) {
    match a
    case DoVerify(b, vmOk, _) =>
      && node.session.Some?
      && Built(p, b)
      && (vmOk ==> p.height(b.inner.id) == p.height(b.inner.parent) + 1)
    case DoIndex(b, f, _) =>
      && node.session.Some?
      && Built(p, b)
      && (f.digest == b.digest ==> f.metadata == b.metadata)
    case Crash => true
    case DoRestart => node.session.None?
  }

  ghost function Step(p: Params, node: Node, a: Action): Node
    requires Allowed(p, node, a)
  {
    match a
    case DoVerify(b, vmOk, preferenceOk) =>
      (match Verify(node.session.value, b, vmOk, preferenceOk)
       case Ok(s) => node.(session := Some(s))
       case Err(_) => node)
    case DoIndex(b, f, stop) => Index(node, b, f, stop)
    case Crash => node.(session := None)
    case DoRestart => node.(session := Restart(p, node.disk))
  }

  /** A fresh database over a VM that has accepted its genesis block only. */
  function Init(p: Params, genesis: InnerBlock): Node {
    Node(Disk(map[], map[], [genesis]), None, [Genesis(p, genesis)])
  }

  ghost predicate IsRun(p: Params, trace: seq<Node>, actions: seq<Action>) {
    && |trace| == |actions| + 1
    && forall i {:trigger actions[i]} :: 0 <= i < |actions| ==>
         Allowed(p, trace[i], actions[i]) && trace[i + 1] == Step(p, trace[i], actions[i])
  }

  // ---------------------------------------------------------------------------------------
  // The invariant.
  // ---------------------------------------------------------------------------------------

  /** No two blocks have the same digest. */
  ghost predicate CollisionFree(p: Params) {
    forall m, m', i, i', l, l' :: p.digest(m, i, l) == p.digest(m', i', l') ==> m == m' && i == i' && l == l'
  }

  ghost predicate Configured(p: Params, genesis: InnerBlock) {
    && CollisionFree(p)
    && p.genesisMetadata.sequence == 0
    && p.height(genesis.id) == 0
  }

  /** The block at height h continues the one before it: by number, by digest, by inner parent and by inner height. */
  ghost predicate Continues(p: Params, before: Block, after: Block, h: nat) {
    && after.metadata.sequence == h
    && after.metadata.prev == before.digest
    && after.inner.parent == before.inner.id
    && p.height(after.inner.id) == h
  }

  ghost predicate ChainInv(p: Params, genesis: InnerBlock, indexed: seq<Block>) {
    && |indexed| > 0
    && indexed[0] == Genesis(p, genesis)
    && (forall h :: 0 <= h < |indexed| ==> Built(p, indexed[h]))
    && (forall h :: 1 <= h < |indexed| ==> Continues(p, indexed[h - 1], indexed[h], h))
  }

  /** What is stored at an indexed height is that block, its finalization and its blacklist. */
  ghost predicate StoredAt(d: Disk, b: Block, h: nat) {
    && h in d.finalizations && h in d.blacklists
    && d.finalizations[h].digest == b.digest
    && d.finalizations[h].metadata == b.metadata
    && d.blacklists[h] == b.blacklist
  }

  ghost predicate DiskInv(d: Disk, indexed: seq<Block>) {
    && |d.accepted| == |indexed|
    && (forall h :: 0 <= h < |indexed| ==> d.accepted[h] == indexed[h].inner)
    && (forall h :: 1 <= h < |indexed| ==> StoredAt(d, indexed[h], h))
  }

  /** A tracked block extends whatever block its previous digest names. */
  ghost predicate Linked(p: Params, b: Block) {
    && p.height(b.inner.id) == p.height(b.inner.parent) + 1
    && forall q :: Built(p, q) && q.digest == b.metadata.prev ==> q.inner.id == b.inner.parent
  }

  ghost predicate TrackedInv(p: Params, s: Session) {
    && (forall d :: d in s.tracked ==> s.tracked[d].digest == d && Built(p, s.tracked[d]))
    && (forall d :: d in s.tracked && s.tracked[d].metadata.sequence >= s.numBlocks ==> Linked(p, s.tracked[d]))
    && (forall t :: t in s.tree ==> p.height(t.id) == p.height(t.parent) + 1)
  }

  /** The session goes on from the last indexed block, which it still knows. */
  ghost predicate TipInv(s: Session, indexed: seq<Block>) {
    && s.numBlocks == |indexed| > 0
    && s.lastDigest == indexed[|indexed| - 1].digest
    && s.lastDigest in s.tracked
    && s.tracked[s.lastDigest] == indexed[|indexed| - 1]
  }

  ghost predicate Inv(p: Params, genesis: InnerBlock, node: Node) {
    && ChainInv(p, genesis, node.indexed)
    && DiskInv(node.disk, node.indexed)
    && (node.session.Some? ==> TrackedInv(p, node.session.value) && TipInv(node.session.value, node.indexed))
  }

  /** Blocks with the same digest are the same block. */
  lemma SameDigest(p: Params, a: Block, b: Block)
    requires CollisionFree(p) && Built(p, a) && Built(p, b) && a.digest == b.digest
    ensures a == b
  {
    assert p.digest(a.metadata, a.inner, a.blacklist) == p.digest(b.metadata, b.inner, b.blacklist);
  }

  /** A block whose parent is the inner block of the one its previous digest names is linked. */
  lemma VerifiedIsLinked(p: Params, s: Session, b: Block)
    requires CollisionFree(p) && TrackedInv(p, s) && b.metadata.prev in s.tracked
    requires b.inner.parent == s.tracked[b.metadata.prev].inner.id
    requires p.height(b.inner.id) == p.height(b.inner.parent) + 1
    ensures Linked(p, b)
  {
    hide CollisionFree;
    forall q | Built(p, q) && q.digest == b.metadata.prev
      ensures q.inner.id == b.inner.parent
    {
      SameDigest(p, q, s.tracked[b.metadata.prev]);
    }
  }

  /** Tracking a linked block replaces no other one. */
  lemma TrackKeepsInv(p: Params, s: Session, indexed: seq<Block>, b: Block)
    requires CollisionFree(p) && TrackedInv(p, s) && TipInv(s, indexed) && Built(p, b) && Linked(p, b)
    ensures var s1 := s.(tracked := s.tracked[b.digest := b], tree := s.tree + {b.inner});
      TrackedInv(p, s1) && TipInv(s1, indexed)
  {
    hide CollisionFree;
    if b.digest == s.lastDigest {
      SameDigest(p, b, s.tracked[b.digest]);
    }
  }

  lemma VerifyKeepsInv(p: Params, genesis: InnerBlock, node: Node, b: Block, vmOk: bool, preferenceOk: bool)
    requires Configured(p, genesis) && Inv(p, genesis, node) && Allowed(p, node, DoVerify(b, vmOk, preferenceOk))
    ensures Inv(p, genesis, Step(p, node, DoVerify(b, vmOk, preferenceOk)))
  {
    hide ChainInv, DiskInv, CollisionFree, TipInv, Linked;
    var s := node.session.value;
    if Verify(s, b, vmOk, preferenceOk).Ok? {
      VerifiedIsLinked(p, s, b);
      TrackKeepsInv(p, s, node.indexed, b);
      assert b.inner in s.tree ==> s.tree + {b.inner} == s.tree;
    }
  }

  /** An indexed block continues the chain. */
  lemma IndexContinues(p: Params, genesis: InnerBlock, node: Node, b: Block, f: Finalization)
    requires Configured(p, genesis) && Inv(p, genesis, node) && node.session.Some? && Built(p, b)
    requires Indexable(node.session.value, b, f) && b.digest in node.session.value.tracked
    ensures node.session.value.tracked[b.digest] == b
    ensures Continues(p, node.indexed[|node.indexed| - 1], b, |node.indexed|)
    ensures ChainInv(p, genesis, node.indexed + [b])
  {
    var s := node.session.value;
    SameDigest(p, s.tracked[b.digest], b);
    var tip := node.indexed[|node.indexed| - 1];
    assert Linked(p, b) && Built(p, tip) && tip.digest == b.metadata.prev;
    if |node.indexed| > 1 {
      assert Continues(p, node.indexed[|node.indexed| - 2], tip, |node.indexed| - 1);
    }
  }

  /** Writes at the next height leave the stored chain alone. */
  lemma WritesKeepDisk(d: Disk, indexed: seq<Block>, b: Block, f: Finalization)
    requires DiskInv(d, indexed) && b.metadata.sequence == |indexed|
    requires b.digest == f.digest && b.metadata == f.metadata
    ensures DiskInv(PutFinalization(d, b, f), indexed)
    ensures DiskInv(PutBlacklist(PutFinalization(d, b, f), b), indexed)
    ensures |indexed| > 0 ==> DiskInv(Accept(PutBlacklist(PutFinalization(d, b, f), b), b.inner), indexed + [b])
  {
    var d2 := PutBlacklist(PutFinalization(d, b, f), b);
    forall h | 1 <= h < |indexed|
      ensures StoredAt(PutFinalization(d, b, f), indexed[h], h) && StoredAt(d2, indexed[h], h)
    {
      assert StoredAt(d, indexed[h], h);
    }
    assert StoredAt(d2, b, |indexed|);
  }

  lemma PruneKeepsTracked(p: Params, s: Session, s': Session, b: Block)
    requires TrackedInv(p, s) && b.digest in s.tracked
    requires s'.tracked == Pruned(s.tracked, s.tracked[b.digest].metadata.sequence)
    requires s'.tree <= s.tree && s'.numBlocks == s.numBlocks + 1
    ensures TrackedInv(p, s')
  {
  }

  /** What may go wrong in an indexing call: either write, the VM accepting the block, or its rejecting others. */
  datatype Faults = Faults(putFinalization: bool, putBlacklist: bool, accept: bool, reject: set<InnerBlock>)

  /** The call rejects a block that the VM fails to reject. */
  ghost predicate RejectFails(s: Session, b: Block, reject: set<InnerBlock>) {
    b.digest in s.tracked &&
    exists x :: x in reject && Conflicts(s.tree - {s.tracked[b.digest].inner}, s.tracked[b.digest].inner, x)
  }

  /** Where the faults stop the call. */
  ghost function StopOf(s: Session, b: Block, faults: Faults): Stop {
    if faults.putFinalization then BeforeFinalization
    else if faults.putBlacklist then AfterFinalization
    else if faults.accept then AfterBlacklist
    else if RejectFails(s, b, faults.reject) then AfterAccept
    else Complete
  }

  lemma IndexKeepsInv(p: Params, genesis: InnerBlock, node: Node, a: Action)
    requires Configured(p, genesis) && Inv(p, genesis, node) && a.DoIndex? && Allowed(p, node, a)
    ensures Inv(p, genesis, Step(p, node, a))
  {
    var b, f, s := a.indexed, a.finalization, node.session.value;
    if Indexable(s, b, f) && !a.stop.BeforeFinalization? {
      WritesKeepDisk(node.disk, node.indexed, b, f);
      if !a.stop.AfterFinalization? && !a.stop.AfterBlacklist? && b.digest in s.tracked {
        IndexContinues(p, genesis, node, b, f);
        var next := Step(p, node, a);
        if next.session.Some? {
          PruneKeepsTracked(p, s, next.session.value, b);
        }
      }
    }
  }

  /** The block rebuilt at an indexed height is the block that was indexed there. */
  lemma RetrieveReturnsIndexed(p: Params, genesis: InnerBlock, node: Node, h: nat)
    requires Configured(p, genesis) && Inv(p, genesis, node)
    ensures Retrieve(p, node.disk, h) == if h < |node.indexed| then Some(node.indexed[h]) else None
  {
    if 1 <= h < |node.indexed| {
      assert StoredAt(node.disk, node.indexed[h], h) && Built(p, node.indexed[h]);
    }
  }

  /** A restart always succeeds and recovers the tip. */
  lemma RestartRecoversTip(p: Params, genesis: InnerBlock, node: Node)
    requires Configured(p, genesis) && Inv(p, genesis, node)
    ensures Restart(p, node.disk).Some?
    ensures var s := Restart(p, node.disk).value;
      var tip := node.indexed[|node.indexed| - 1];
      TipInv(s, node.indexed) && s.tracked == map[tip.digest := tip] && s.tree == {}
  {
    var n := |node.indexed|;
    RetrieveReturnsIndexed(p, genesis, node, n - 1);
    if n > 1 {
      assert Continues(p, node.indexed[n - 2], node.indexed[n - 1], n - 1);
    }
  }

  lemma RestartKeepsInv(p: Params, genesis: InnerBlock, node: Node)
    requires Configured(p, genesis) && Inv(p, genesis, node) && Allowed(p, node, DoRestart)
    ensures Inv(p, genesis, Step(p, node, DoRestart))
  {
    RestartRecoversTip(p, genesis, node);
    var tip := node.indexed[|node.indexed| - 1];
    assert Built(p, tip);
    if |node.indexed| > 1 {
      assert Continues(p, node.indexed[|node.indexed| - 2], tip, |node.indexed| - 1);
    }
  }

  lemma StepKeepsInv(p: Params, genesis: InnerBlock, node: Node, a: Action)
    requires Configured(p, genesis) && Inv(p, genesis, node) && Allowed(p, node, a)
    ensures Inv(p, genesis, Step(p, node, a))
  {
    match a
    case DoVerify(b, vmOk, preferenceOk) => VerifyKeepsInv(p, genesis, node, b, vmOk, preferenceOk);
    case DoIndex(_, _, _) => IndexKeepsInv(p, genesis, node, a);
    case Crash =>
    case DoRestart => RestartKeepsInv(p, genesis, node);
  }

  /** Over every run with crashes and restarts. */
  lemma {:induction false} RunKeepsInv(p: Params, genesis: InnerBlock, trace: seq<Node>, actions: seq<Action>, i: nat)
    requires Configured(p, genesis) && IsRun(p, trace, actions) && trace[0] == Init(p, genesis) && i < |trace|
    ensures Inv(p, genesis, trace[i])
  {
    if i > 0 {
      RunKeepsInv(p, genesis, trace, actions, i - 1);
      StepKeepsInv(p, genesis, trace[i - 1], actions[i - 1]);
    }
  }

  /** In every reachable state the accepted inner blocks form a chain and each of them but the first has its
      finalization stored. */
  lemma AcceptedFormAChain(p: Params, genesis: InnerBlock, trace: seq<Node>, actions: seq<Action>, i: nat, h: nat)
    requires Configured(p, genesis) && IsRun(p, trace, actions) && trace[0] == Init(p, genesis) && i < |trace|
    requires 1 <= h < |trace[i].disk.accepted|
    ensures var d := trace[i].disk;
      && d.accepted[h].parent == d.accepted[h - 1].id && p.height(d.accepted[h].id) == h
      && h in d.finalizations && Retrieve(p, d, h).Some? && Retrieve(p, d, h - 1).Some?
      && d.finalizations[h].digest == Retrieve(p, d, h).value.digest
      && d.finalizations[h].metadata.sequence == h
      && d.finalizations[h].metadata.prev == Retrieve(p, d, h - 1).value.digest
  {
    RunKeepsInv(p, genesis, trace, actions, i);
    var node := trace[i];
    RetrieveReturnsIndexed(p, genesis, node, h);
    RetrieveReturnsIndexed(p, genesis, node, h - 1);
    assert Continues(p, node.indexed[h - 1], node.indexed[h], h) && StoredAt(node.disk, node.indexed[h], h);
  }

  /** Nothing that was indexed is ever taken back or replaced. */
  lemma {:induction false} IndexedOnlyGrows(
    p: Params, genesis: InnerBlock, trace: seq<Node>, actions: seq<Action>, i: nat, j: nat)
    requires Configured(p, genesis) && IsRun(p, trace, actions) && trace[0] == Init(p, genesis) && i <= j < |trace|
    ensures trace[i].indexed <= trace[j].indexed && trace[i].disk.accepted <= trace[j].disk.accepted
    decreases j
  {
    if i < j {
      IndexedOnlyGrows(p, genesis, trace, actions, i, j - 1);
      assert trace[j] == Step(p, trace[j - 1], actions[j - 1]);
      assert trace[j - 1].indexed <= trace[j].indexed && trace[j - 1].disk.accepted <= trace[j].disk.accepted;
    }
  }

  /** The header matters: after a block was indexed, a restart recovers its digest exactly when the finalization that
      was stored with it has the block's metadata. Index itself only compares digests. */
  lemma RestartNeedsHeader(p: Params, genesis: InnerBlock, node: Node, b: Block, f: Finalization)
    requires Configured(p, genesis) && Inv(p, genesis, node) && node.session.Some? && Built(p, b)
    requires Indexable(node.session.value, b, f) && b.digest in node.session.value.tracked
    ensures var next := Index(node, b, f, Complete);
      && next.session.Some? && Restart(p, next.disk).Some?
      && (Restart(p, next.disk).value.lastDigest == next.session.value.lastDigest <==> f.metadata == b.metadata)
  {
    IndexContinues(p, genesis, node, b, f);
    var next := Index(node, b, f, Complete);
    var h := b.metadata.sequence;
    assert next.disk.accepted[h] == b.inner && next.disk.finalizations[h] == f;
    assert next.disk.blacklists[h] == b.blacklist;
    if Restart(p, next.disk).value.lastDigest == b.digest {
      SameDigest(p, NewBlock(p, f.metadata, b.inner, b.blacklist), b);
    }
  }

  /** Index does store a finalization with another header, and the restart after it loses the tip. */
  lemma OtherHeaderLosesTip(p: Params, genesis: InnerBlock, inner: InnerBlock)
    returns (trace: seq<Node>, actions: seq<Action>, b: Block, f: Finalization)
    requires Configured(p, genesis) && inner.parent == genesis.id && p.height(inner.id) == 1
    ensures IsRun(p, trace, actions) && trace[0] == Init(p, genesis)
    ensures var node := trace[|actions|];
      && node.session.Some? && Built(p, b)
      && Indexable(node.session.value, b, f) && b.digest in node.session.value.tracked
      && var next := Index(node, b, f, Complete);
         && next.session.Some? && Restart(p, next.disk).Some?
         && Restart(p, next.disk).value.lastDigest != next.session.value.lastDigest
  {
    var first := Init(p, genesis);
    RestartRecoversTip(p, genesis, first);
    var started := Step(p, first, DoRestart);
    b := NewBlock(p, Metadata(0, 0, 1, 1, Genesis(p, genesis).digest), inner, p.emptyBlacklist);
    var node := Step(p, started, DoVerify(b, true, true));
    trace, actions := [first, started, node], [DoRestart, DoVerify(b, true, true)];
    RunKeepsInv(p, genesis, trace, actions, 2);
    f := Finalization(b.metadata.(round := 2), b.digest, Some(Certificate(0)));
    RestartNeedsHeader(p, genesis, node, b, f);
  }
}
