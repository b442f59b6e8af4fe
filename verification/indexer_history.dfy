/**
 When a chain is indexed, when it is passed over and when the node shuts down, over any number of node runs: in terms
 of what happened before.
 */
module IndexerHistory {
  import opened Wrappers
  import opened Indexer

  /** Before point `i`, a run passed the chain over. */
  ghost predicate WasSkipped(trace: seq<Node>, events: seq<Event>, i: nat, chain: ChainID)
    requires IsRun(trace, events) && i <= |events|
  {
    exists k :: 0 <= k < i && events[k].Registered? && events[k].chain == chain && DecisionAt(trace, events, k).Skipped?
  }

  /** Before point `i`, a run set out to index the chain. */
  ghost predicate WasIndexed(trace: seq<Node>, events: seq<Event>, i: nat, chain: ChainID)
    requires IsRun(trace, events) && i <= |events|
  {
    exists k :: 0 <= k < i && events[k].Registered? && events[k].chain == chain && DecisionAt(trace, events, k).Indexed?
  }

  /** The flags of the run that goes on at point `i`, if one does. */
  function Flags(events: seq<Event>, i: nat): Option<(bool, bool)>
    requires i <= |events|
  {
    if i == 0 || events[i - 1].Exited? then None
    else if events[i - 1].Started? then Some((events[i - 1].indexingEnabled, events[i - 1].allowIncomplete))
    else Flags(events, i - 1)
  }

  /** Some index of the chain cannot be created, or its VM is of no known kind. */
  predicate Breaks(e: Event)
    requires e.Registered?
  {
    || !e.faults.blockIndex.Works? || e.vm.Unknown?
    || (e.vm.DAG? && !(e.faults.vertexIndex.Works? && e.faults.transactionIndex.Works?))
  }

  /** In the run that goes on at point `i`, the indexer was closed, a registration shut the node down, or one broke. */
  ghost predicate IsClosed(trace: seq<Node>, events: seq<Event>, i: nat)
    requires IsRun(trace, events) && i <= |events|
  {
    i > 0 &&
    match events[i - 1]
    case Started(_, _) => false
    case Exited => false
    case Closed => true
    case Registered(_, _, _, _) =>
      var decision := DecisionAt(trace, events, i - 1);
      IsClosed(trace, events, i - 1) || decision.ShutDown? || (decision.Indexed? && Breaks(events[i - 1]))
  }

  /** The indices a registration creates: of blocks for every chain, of vertices and transactions for a DAG, in this
      order until one fails. */
  predicate Creates(e: Event, key: Key)
    requires e.Registered?
  {
    && key.chain == e.chain && e.faults.blockIndex.Works?
    && (key.kind.Block? || (e.vm.DAG? && e.faults.vertexIndex.Works?))
    && (key.kind.Transaction? ==> e.faults.transactionIndex.Works?)
  }

  /** In the run that goes on at point `i`, the index was created. */
  ghost predicate HasIndex(trace: seq<Node>, events: seq<Event>, i: nat, key: Key)
    requires IsRun(trace, events) && i <= |events|
  {
    i > 0 &&
    match events[i - 1]
    case Started(_, _) => false
    case Exited => false
    case Closed => HasIndex(trace, events, i - 1, key)
    case Registered(_, _, _, _) =>
      || HasIndex(trace, events, i - 1, key)
      || (DecisionAt(trace, events, i - 1).Indexed? && Creates(events[i - 1], key))
  }

  // ---------------------------------------------------------------------------------------
  // The state follows the history.
  // ---------------------------------------------------------------------------------------

  lemma SkippedNext(trace: seq<Node>, events: seq<Event>, i: nat, chain: ChainID)
    requires IsRun(trace, events) && i < |events|
    ensures WasSkipped(trace, events, i + 1, chain) <==>
      || WasSkipped(trace, events, i, chain)
      || (events[i].Registered? && events[i].chain == chain && DecisionAt(trace, events, i).Skipped?)
    ensures WasIndexed(trace, events, i + 1, chain) <==>
      || WasIndexed(trace, events, i, chain)
      || (events[i].Registered? && events[i].chain == chain && DecisionAt(trace, events, i).Indexed?)
  {
    hide DecisionAt;
  }

  lemma {:induction false} MarksFollowHistory(trace: seq<Node>, events: seq<Event>, i: nat, chain: ChainID)
    requires IsRun(trace, events) && i < |trace|
    ensures chain in trace[i].marks.incomplete <==> WasSkipped(trace, events, i, chain)
    ensures chain in trace[i].marks.indexed <==> WasIndexed(trace, events, i, chain)
  {
    hide WasSkipped, WasIndexed, Decision;
    if i > 0 {
      MarksFollowHistory(trace, events, i - 1, chain);
      SkippedNext(trace, events, i - 1, chain);
      assert trace[i] == Step(trace[i - 1], events[i - 1]);
    } else {
      NothingBefore(trace, events, chain);
    }
  }

  lemma NothingBefore(trace: seq<Node>, events: seq<Event>, chain: ChainID)
    requires IsRun(trace, events)
    ensures !WasSkipped(trace, events, 0, chain) && !WasIndexed(trace, events, 0, chain)
  {
  }

  /** One index more, if it can be created. */
  lemma IndexFollows(run: Run, key: Key, fault: IndexFault, k: Key)
    ensures var r := WithIndex(run, key, fault);
      && r.closed == run.closed
      && r.indexingEnabled == run.indexingEnabled && r.allowIncomplete == run.allowIncomplete
      && (k in r.indices <==> k in run.indices || (k == key && fault.Works?))
  {
  }

  lemma CloseFollows(run: Run)
    ensures var r := Close(run);
      && r.closed && r.indices == run.indices
      && r.indexingEnabled == run.indexingEnabled && r.allowIncomplete == run.allowIncomplete
  {
  }

  /** What a run becomes when a chain is to be indexed. */
  lemma IndexingFollows(run: Run, e: Event, key: Key)
    requires e.Registered? && !run.closed
    ensures var r := WithIndices(run, e.chain, e.vm, e.faults);
      && (r.closed <==> Breaks(e))
      && r.indexingEnabled == run.indexingEnabled && r.allowIncomplete == run.allowIncomplete
      && (key in r.indices <==> key in run.indices || Creates(e, key))
  {
    hide WithIndex, Close;
    var chain, faults := e.chain, e.faults;
    var r1 := WithIndex(run, Key(chain, Block), faults.blockIndex);
    var r2 := WithIndex(r1, Key(chain, Vertex), faults.vertexIndex);
    var r3 := WithIndex(r2, Key(chain, Transaction), faults.transactionIndex);
    IndexFollows(run, Key(chain, Block), faults.blockIndex, key);
    IndexFollows(r1, Key(chain, Vertex), faults.vertexIndex, key);
    IndexFollows(r2, Key(chain, Transaction), faults.transactionIndex, key);
    CloseFollows(r1);
    CloseFollows(r2);
    CloseFollows(r3);
    KeyParts(key, chain);
  }

  lemma KeyParts(key: Key, chain: ChainID)
    ensures key == Key(chain, Block) <==> key.chain == chain && key.kind.Block?
    ensures key == Key(chain, Vertex) <==> key.chain == chain && key.kind.Vertex?
    ensures key == Key(chain, Transaction) <==> key.chain == chain && key.kind.Transaction?
    ensures key.kind.Block? || key.kind.Vertex? || key.kind.Transaction?
  {
  }

  /** The run that goes on has the flags it was started with, and is closed and has its indices as the history says. */
  lemma {:induction false} RunFollowsHistory(trace: seq<Node>, events: seq<Event>, i: nat, key: Key)
    requires IsRun(trace, events) && i < |trace|
    ensures trace[i].run.Some? <==> Flags(events, i).Some?
    ensures trace[i].run.Some? ==>
      var run := trace[i].run.value;
      && (run.indexingEnabled, run.allowIncomplete) == Flags(events, i).value
      && (run.closed <==> IsClosed(trace, events, i))
      && (key in run.indices <==> HasIndex(trace, events, i, key))
  {
    hide Decision, Breaks, Creates, WithIndices;
    if i > 0 {
      RunFollowsHistory(trace, events, i - 1, key);
      var node, e := trace[i - 1], events[i - 1];
      assert Allowed(node, e) && trace[i] == Step(node, e);
      if e.Registered? {
        OpenWhenDecided(node, e);
        if DecisionAt(trace, events, i - 1).Indexed? {
          IndexingFollows(node.run.value, e, key);
        }
      }
    }
  }

  /** A chain has some index exactly if it has its block index. */
  lemma {:induction false} BlocksComeFirst(trace: seq<Node>, events: seq<Event>, i: nat, key: Key)
    requires IsRun(trace, events) && i < |trace| && HasIndex(trace, events, i, key)
    ensures HasIndex(trace, events, i, Key(key.chain, Block))
  {
    hide DecisionAt;
    if HasIndex(trace, events, i - 1, key) {
      BlocksComeFirst(trace, events, i - 1, key);
    }
  }

  lemma AlreadyIndexedIff(trace: seq<Node>, events: seq<Event>, i: nat, chain: ChainID)
    requires IsRun(trace, events) && i < |trace| && trace[i].run.Some?
    ensures AlreadyIndexed(trace[i].run.value, chain) <==> HasIndex(trace, events, i, Key(chain, Block))
  {
    hide HasIndex;
    forall kind
      ensures Key(chain, kind) in trace[i].run.value.indices <==> HasIndex(trace, events, i, Key(chain, kind))
      ensures HasIndex(trace, events, i, Key(chain, kind)) ==> HasIndex(trace, events, i, Key(chain, Block))
    {
      RunFollowsHistory(trace, events, i, Key(chain, kind));
      if HasIndex(trace, events, i, Key(chain, kind)) {
        BlocksComeFirst(trace, events, i, Key(chain, kind));
      }
    }
  }

  lemma OpenWhenDecided(node: Node, e: Event)
    requires e.Registered? && node.run.Some?
    ensures !Decision(node.marks, node.run.value, e.chain, e.primary, e.faults).Ignored? ==> !node.run.value.closed
  {
  }

  // ---------------------------------------------------------------------------------------
  // The decision.
  // ---------------------------------------------------------------------------------------

  /** The indexer looks at the registration: it is open, the chain is of the primary network and has no index yet. */
  ghost predicate Considered(trace: seq<Node>, events: seq<Event>, i: nat)
    requires IsRun(trace, events) && i < |events| && events[i].Registered?
  {
    events[i].primary && !IsClosed(trace, events, i) && !HasIndex(trace, events, i, Key(events[i].chain, Block))
  }

  /**
   A registration that is considered is indexed exactly if indexing is on, the chain was never passed over or
   incomplete indices are allowed, and its marks can be read and written. It is passed over exactly if indexing is off,
   the chain was never indexed or incomplete indices are allowed, and its marks can be read and written. In all other
   cases the node shuts down. A registration that is not considered comes to nothing.
   */
  lemma DecisionFollowsHistory(trace: seq<Node>, events: seq<Event>, i: nat)
    requires IsRun(trace, events) && i < |events| && events[i].Registered?
    ensures Flags(events, i).Some?
    ensures
      var e, (enabled, allow), decision := events[i], Flags(events, i).value, DecisionAt(trace, events, i);
      var readable := !e.faults.readIncomplete && !e.faults.readIndexed;
      && (decision.Ignored? <==> !Considered(trace, events, i))
      && (decision.Indexed? <==>
            && Considered(trace, events, i) && enabled && readable && !e.faults.writeIndexed
            && (allow || !WasSkipped(trace, events, i, e.chain)))
      && (decision.Skipped? <==>
            && Considered(trace, events, i) && !enabled && readable && !e.faults.writeIncomplete
            && (allow || !WasIndexed(trace, events, i, e.chain)))
  {
    hide WasSkipped, WasIndexed, IsClosed, HasIndex, AlreadyIndexed;
    var chain := events[i].chain;
    assert Allowed(trace[i], events[i]);
    RunKeepsInv(trace, events, i);
    MarksFollowHistory(trace, events, i, chain);
    RunFollowsHistory(trace, events, i, Key(chain, Block));
    AlreadyIndexedIff(trace, events, i, chain);
  }
}
