/**
 The block tracker and the block storage of a Simplex chain, updated in place.
 */
module SimplexStorage {
  import opened Wrappers
  import opened BlockTree
  import opened SimplexStorageModel

  class BlockTracker {
    var tracked: map<Digest, Block>
    const tree: Tree

    ghost predicate Valid()
      reads this, tree
    {
      tree.Valid()
    }

    constructor ()
      ensures Valid() && fresh(tree) && tracked == map[] && Blocks(tree.nodes) == {}
    {
      tracked := map[];
      tree := new Tree();
    }

    method Init(latest: Block)
      modifies this
      ensures tracked == old(tracked)[latest.digest := latest]
    {
      tracked := tracked[latest.digest := latest];
    }

    /** The view of a session with the given counters. */
    ghost function View(numBlocks: nat, lastDigest: Digest): Session
      reads this, tree
    {
      Session(numBlocks, lastDigest, tracked, Blocks(tree.nodes))
    }

    /** Verifies a block and tracks it; the counters are those of the storage and play no part. */
    method Verify(b: Block, vmOk: bool, preferenceOk: bool, ghost numBlocks: nat, ghost lastDigest: Digest)
        returns (r: Result<(), VerifyError>)
      requires Valid()
      modifies this, tree
      ensures Valid()
      ensures r.Ok? <==>
        && b.metadata.sequence > 0
        && b.metadata.prev in old(tracked) && old(tracked)[b.metadata.prev].inner.id == b.inner.parent
        && (b.inner in old(Blocks(tree.nodes)) || (vmOk && preferenceOk))
      ensures r.Ok? ==> tracked == old(tracked)[b.digest := b]
      ensures r.Ok? ==> Blocks(tree.nodes) == old(Blocks(tree.nodes)) + {b.inner}
      ensures r.Err? ==> tracked == old(tracked) && Blocks(tree.nodes) == old(Blocks(tree.nodes))
      ensures
        match SimplexStorageModel.Verify(old(View(numBlocks, lastDigest)), b, vmOk, preferenceOk)
        case Ok(s) => r == Ok(()) && View(numBlocks, lastDigest) == s
        case Err(e) => r == Err(e) && View(numBlocks, lastDigest) == old(View(numBlocks, lastDigest))
    {
      if b.metadata.sequence == 0 {
        return Err(GenesisVerification);
      }
      if b.metadata.prev !in tracked {
        return Err(DigestNotFound);
      }
      if b.inner.parent != tracked[b.metadata.prev].inner.id {
        return Err(MismatchedPrevDigest);
      }
      var verified := tree.Get(b.inner);
      if verified {
        tracked := tracked[b.digest := b];
        return Ok(());
      }
      if !vmOk {
        return Err(InnerVerification);
      }
      if !preferenceOk {
        return Err(Preference);
      }
      tracked := tracked[b.digest := b];
      tree.Add(b.inner);
      return Ok(());
    }

    /** Forgets every block below a sequence number. */
    method Prune(sequence: nat)
      modifies this
      ensures tracked == Pruned(old(tracked), sequence)
      ensures forall d :: d in tracked <==> d in old(tracked) && old(tracked)[d].metadata.sequence >= sequence
      ensures forall d :: d in tracked ==> tracked[d] == old(tracked)[d]
    {
      ghost var before := tracked;
      var left := tracked.Keys;
      while left != {}
        invariant left <= before.Keys && left <= tracked.Keys <= before.Keys
        invariant forall d :: d in tracked ==> tracked[d] == before[d]
        invariant forall d :: d in before && d !in left ==>
          (d in tracked <==> before[d].metadata.sequence >= sequence)
        decreases |left|
      {
        var d :| d in left;
        left := left - {d};
        if tracked[d].metadata.sequence < sequence {
          tracked := tracked - {d};
        }
      }
      assert tracked.Keys == Pruned(before, sequence).Keys;
    }

    /** Accepts the block with the given digest; says whether the VM accepted it, and whether all went well. */
    method IndexBlock(digest: Digest, acceptFails: bool, failing: set<InnerBlock>)
        returns (inner: Option<InnerBlock>, ok: bool)
      requires Valid()
      modifies this, tree
      ensures Valid()
      ensures inner == if digest in old(tracked) && !acceptFails then Some(old(tracked)[digest].inner) else None
      ensures ok <==> inner.Some? && forall x :: x in failing ==>
        !Conflicts(old(Blocks(tree.nodes)) - {inner.value}, inner.value, x)
      ensures ok ==> tracked == Pruned(old(tracked), old(tracked)[digest].metadata.sequence)
      ensures ok ==> digest in tracked && forall d :: d in tracked <==>
        d in old(tracked) && old(tracked)[d].metadata.sequence >= old(tracked)[digest].metadata.sequence
      ensures ok ==> forall d :: d in tracked ==> tracked[d] == old(tracked)[d]
      ensures ok ==> Blocks(tree.nodes) == Remaining(old(Blocks(tree.nodes)), inner.value)
    {
      if digest !in tracked {
        return None, false;
      }
      var bd := tracked[digest];
      Prune(bd.metadata.sequence);
      var accepted, _ := tree.Accept(bd.inner, acceptFails, failing);
      return if acceptFails then None else Some(bd.inner), accepted;
    }
  }

  datatype IndexError =
    | UnexpectedSequence
    | PrevMismatch
    | DigestMismatch
    | InvalidCertificate
    | PutFailed
    | IndexingFailed

  /** The storage, with the entries of its database and the blocks its VM accepted. */
  class Storage {
    const params: Params
    const tracker: BlockTracker
    var numBlocks: nat
    var lastDigest: Digest
    var finalizations: map<nat, Finalization>
    var blacklists: map<nat, Blacklist>
    var accepted: seq<InnerBlock>
    ghost var indexed: seq<Block>

    ghost predicate Valid()
      reads this, tracker, tracker.tree
    {
      tracker.Valid()
    }

    ghost function Stored(): Disk
      reads this
    {
      Disk(finalizations, blacklists, accepted)
    }

    /** The node, running or stopped. */
    ghost function Value(running: bool): Node
      reads this, tracker, tracker.tree
    {
      Node(Stored(), if running then Some(tracker.View(numBlocks, lastDigest)) else None, indexed)
    }

    /** The block at a height. */
    method Retrieve(height: nat) returns (r: Option<Block>)
      ensures r == SimplexStorageModel.Retrieve(params, Stored(), height)
    {
      if height == 0 {
        return if accepted == [] then None else Some(Genesis(params, accepted[0]));
      }
      if height >= |accepted| || height !in finalizations {
        return None;
      }
      var blacklist := if height in blacklists then blacklists[height] else params.emptyBlacklist;
      return Some(NewBlock(params, finalizations[height].metadata, accepted[height], blacklist));
    }

    constructor (p: Params, f: map<nat, Finalization>, b: map<nat, Blacklist>, a: seq<InnerBlock>,
        ghost history: seq<Block>)
      ensures params == p && fresh(tracker) && fresh(tracker.tree) && Valid()
      ensures Stored() == Disk(f, b, a) && indexed == history
      ensures tracker.tracked == map[] && Blocks(tracker.tree.nodes) == {}
    {
      params := p;
      tracker := new BlockTracker();
      finalizations, blacklists, accepted, indexed := f, b, a, history;
      numBlocks, lastDigest := 0, Digest(0);
    }

    /** Takes over a database and a VM; there is a storage exactly when the last accepted block can be rebuilt. */
    static method New(p: Params, f: map<nat, Finalization>, b: map<nat, Blacklist>, a: seq<InnerBlock>,
        ghost history: seq<Block>) returns (r: Option<Storage>)
      ensures r.Some? <==> Restart(p, Disk(f, b, a)).Some?
      ensures r.Some? ==> fresh(r.value) && fresh(r.value.tracker) && fresh(r.value.tracker.tree)
      ensures r.Some? ==> r.value.Valid() && r.value.params == p
      ensures r.Some? ==> r.value.Value(true) == Node(Disk(f, b, a), Restart(p, Disk(f, b, a)), history)
    {
      var storage := new Storage(p, f, b, a, history);
      if a == [] {
        return None;
      }
      var height := p.height(a[|a| - 1].id);
      storage.numBlocks := height + 1;
      var tip := storage.Retrieve(height);
      if tip.None? {
        return None;
      }
      storage.lastDigest := tip.value.digest;
      storage.tracker.Init(tip.value);
      return Some(storage);
    }

    /** The checks before anything is written. */
    method Check(b: Block, f: Finalization) returns (e: Option<IndexError>)
      ensures e.None? <==> Indexable(tracker.View(numBlocks, lastDigest), b, f)
      ensures e.None? <==>
        numBlocks == b.metadata.sequence && lastDigest == b.metadata.prev && b.digest == f.digest && f.qc.Some?
      ensures e == Some(UnexpectedSequence) <==> numBlocks != b.metadata.sequence
      ensures e == Some(PrevMismatch) <==> numBlocks == b.metadata.sequence && lastDigest != b.metadata.prev
      ensures e == Some(DigestMismatch) <==>
        numBlocks == b.metadata.sequence && lastDigest == b.metadata.prev && b.digest != f.digest
      ensures e == Some(InvalidCertificate) <==>
        numBlocks == b.metadata.sequence && lastDigest == b.metadata.prev && b.digest == f.digest && f.qc.None?
      ensures e.Some? ==> !e.value.PutFailed? && !e.value.IndexingFailed?
    {
      if numBlocks != b.metadata.sequence {
        return Some(UnexpectedSequence);
      }
      if lastDigest != b.metadata.prev {
        return Some(PrevMismatch);
      }
      if b.digest != f.digest {
        return Some(DigestMismatch);
      }
      if f.qc.None? {
        return Some(InvalidCertificate);
      }
      return None;
    }

    /** Indexes a finalized block. The database is written before the VM accepts, so a call that ends early leaves the
        node in the state of an indexing that stopped where the fault is. */
    method Index(b: Block, f: Finalization, faults: Faults) returns (r: Result<(), IndexError>)
      requires Valid()
      modifies this, tracker, tracker.tree
      ensures Valid()
      ensures Value(r.Ok?) ==
        SimplexStorageModel.Index(old(Value(true)), b, f, StopOf(old(tracker.View(numBlocks, lastDigest)), b, faults))
      ensures r == Err(UnexpectedSequence) <==> old(numBlocks) != b.metadata.sequence
      ensures r == Err(PrevMismatch) <==> old(numBlocks) == b.metadata.sequence && old(lastDigest) != b.metadata.prev
      ensures var s := old(tracker.View(numBlocks, lastDigest));
        && (Indexable(s, b, f) <==> r.Ok? || r.error == PutFailed || r.error == IndexingFailed)
        && (r == Err(PutFailed) <==> Indexable(s, b, f) && (faults.putFinalization || faults.putBlacklist))
      ensures r == Err(DigestMismatch) <==>
        old(numBlocks) == b.metadata.sequence && old(lastDigest) == b.metadata.prev && b.digest != f.digest
      ensures r == Err(InvalidCertificate) <==>
        && old(numBlocks) == b.metadata.sequence && old(lastDigest) == b.metadata.prev
        && b.digest == f.digest && f.qc.None?
      ensures r.Ok? ==> numBlocks == old(numBlocks) + 1 && lastDigest == b.digest && lastDigest in tracker.tracked
      ensures r.Ok? ==> accepted == old(accepted) + [old(tracker.tracked)[b.digest].inner]
      ensures r.Ok? ==> finalizations == old(finalizations)[old(numBlocks) := f]
      ensures r.Ok? ==> blacklists == old(blacklists)[old(numBlocks) := b.blacklist]
    {
      hide Pruned, Remaining, Conflicts, Blocks;
      var e := Check(b, f);
      if e.Some? {
        return Err(e.value);
      }
      if faults.putFinalization {
        return Err(PutFailed);
      }
      finalizations := finalizations[b.metadata.sequence := f];
      if faults.putBlacklist {
        return Err(PutFailed);
      }
      blacklists := blacklists[b.metadata.sequence := b.blacklist];

      var inner, ok := tracker.IndexBlock(b.digest, faults.accept, faults.reject);
      if inner.Some? {
        accepted := accepted + [inner.value];
        indexed := indexed + [b];
      }
      if !ok {
        return Err(IndexingFailed);
      }
      numBlocks := numBlocks + 1;
      lastDigest := b.digest;
      return Ok(());
    }
  }
}
