/**
 Which chains the indexer indexes, over any number of node runs with any flags. Three kinds of marks persist: the node
 has run, a chain was indexed, a chain's index is incomplete.
 */
module Indexer {
  import opened Wrappers

  datatype ChainID = ChainID(value: nat)

  datatype Marks = Marks(hasRun: bool, indexed: set<ChainID>, incomplete: set<ChainID>)

  datatype Kind = Block | Vertex | Transaction

  /** One of a chain's indices. */
  datatype Key = Key(chain: ChainID, kind: Kind)

  /** A run of the node: its indices, those of them that are open, the acceptors registered for new containers, and
      how often the node was told to shut down. */
  datatype Run = Run(
    hasRunBefore: bool,
    indexingEnabled: bool,
    allowIncomplete: bool,
    closed: bool,
    indices: set<Key>,
    open: set<Key>,
    accepting: set<Key>,
    shutdowns: nat)

  datatype VM = DAG | Linear | Unknown

  /** Creating an index fails before its acceptor is registered, or after that, when its endpoint is added. */
  datatype IndexFault = Works | FailsEarly | FailsLate

  /** The accesses that fail. */
  datatype Faults = Faults(
    readIncomplete: bool,
    readIndexed: bool,
    writeIncomplete: bool,
    writeIndexed: bool,
    blockIndex: IndexFault,
    vertexIndex: IndexFault,
    transactionIndex: IndexFault)

  /** The marks, the current run, and the chains that some run passed over without shutting down. */
  datatype Node = Node(marks: Marks, run: Option<Run>, skipped: set<ChainID>)

  function Start(marks: Marks, indexingEnabled: bool, allowIncomplete: bool): (Marks, Run) {
    (marks.(hasRun := true), Run(marks.hasRun, indexingEnabled, allowIncomplete, false, {}, {}, {}, 0))
  }

  /** What a registration comes to. */
  datatype Outcome =
    | Ignored
    | ShutDown
    | Skipped
    | Indexed

  predicate AlreadyIndexed(run: Run, chain: ChainID) {
    Key(chain, Block) in run.indices || Key(chain, Transaction) in run.indices || Key(chain, Vertex) in run.indices
  }

  function Decision(marks: Marks, run: Run, chain: ChainID, primary: bool, faults: Faults): Outcome {
    if run.closed || !primary || AlreadyIndexed(run, chain) then Ignored
    else if faults.readIncomplete || faults.readIndexed then ShutDown
    else if !run.indexingEnabled then
      if chain in marks.indexed && !run.allowIncomplete then ShutDown
      else if faults.writeIncomplete then ShutDown
      else Skipped
    else if !run.allowIncomplete && chain in marks.incomplete && (chain in marks.indexed || run.hasRunBefore)
    then ShutDown
    else if faults.writeIndexed then ShutDown
    else Indexed
  }

  /** Closing the indices and deregistering their acceptors, once. */
  function Close(run: Run): Run {
    if run.closed then run
    else run.(closed := true, open := run.open - run.indices, accepting := run.accepting - run.indices,
              shutdowns := run.shutdowns + 1)
  }

  /** One index is created, or not; the acceptor of one that fails late stays registered. */
  function WithIndex(run: Run, key: Key, fault: IndexFault): Run {
    match fault
    case Works => run.(indices := run.indices + {key}, open := run.open + {key}, accepting := run.accepting + {key})
    case FailsEarly => run
    case FailsLate => run.(accepting := run.accepting + {key})
  }

  /** The indices of a chain that is to be indexed, as far as they can be created. */
  function WithIndices(run: Run, chain: ChainID, vm: VM, faults: Faults): Run {
    var r1 := WithIndex(run, Key(chain, Block), faults.blockIndex);
    if !faults.blockIndex.Works? || vm.Unknown? then Close(r1)
    else if vm.Linear? then r1
    else
      var r2 := WithIndex(r1, Key(chain, Vertex), faults.vertexIndex);
      if !faults.vertexIndex.Works? then Close(r2)
      else
        var r3 := WithIndex(r2, Key(chain, Transaction), faults.transactionIndex);
        if !faults.transactionIndex.Works? then Close(r3) else r3
  }

  function Register(node: Node, chain: ChainID, primary: bool, vm: VM, faults: Faults): Node
    requires node.run.Some?
  {
    var run := node.run.value;
    match Decision(node.marks, run, chain, primary, faults)
    case Ignored => node
    case ShutDown => node.(run := Some(Close(run)))
    case Skipped =>
      node.(marks := node.marks.(incomplete := node.marks.incomplete + {chain}), skipped := node.skipped + {chain})
    case Indexed =>
      node.(marks := node.marks.(indexed := node.marks.indexed + {chain}),
            run := Some(WithIndices(run, chain, vm, faults)))
  }

  // ---------------------------------------------------------------------------------------
  // Node runs.
  // ---------------------------------------------------------------------------------------

  datatype Event =
    | Started(indexingEnabled: bool, allowIncomplete: bool)
    | Registered(chain: ChainID, primary: bool, vm: VM, faults: Faults)
    | Closed
    | Exited

  predicate Allowed(node: Node, e: Event) {
    match e
    case Started(_, _) => node.run.None?
    case Exited => true
    case _ => node.run.Some?
  }

  function Step(node: Node, e: Event): Node
    requires Allowed(node, e)
  {
    match e
    case Started(enabled, allow) =>
      var (marks, run) := Start(node.marks, enabled, allow);
      node.(marks := marks, run := Some(run))
    case Registered(chain, primary, vm, faults) => Register(node, chain, primary, vm, faults)
    case Closed => node.(run := Some(Close(node.run.value)))
    case Exited => node.(run := None)
  }

  function Init(): Node {
    Node(Marks(false, {}, {}), None, {})
  }

  ghost predicate IsRun(trace: seq<Node>, events: seq<Event>) {
    && |trace| == |events| + 1
    && trace[0] == Init()
    && forall i {:trigger events[i]} :: 0 <= i < |events| ==>
         Allowed(trace[i], events[i]) && trace[i + 1] == Step(trace[i], events[i])
  }

  /** Exactly the chains passed over are marked incomplete, no chain is before the node has run, and a run that indexes
      knows of earlier runs as soon as there is an incomplete chain. */
  ghost predicate Inv(node: Node) {
    && node.marks.incomplete == node.skipped
    && (node.skipped != {} ==> node.marks.hasRun)
    && (node.run.Some? ==> node.marks.hasRun)
    && (node.run.Some? && node.run.value.indexingEnabled && node.skipped != {} ==> node.run.value.hasRunBefore)
  }

  lemma StepKeepsInv(node: Node, e: Event)
    requires Inv(node) && Allowed(node, e)
    ensures Inv(Step(node, e))
  {
  }

  lemma {:induction false} RunKeepsInv(trace: seq<Node>, events: seq<Event>, i: nat)
    requires IsRun(trace, events) && i < |trace|
    ensures Inv(trace[i])
  {
    if i > 0 {
      RunKeepsInv(trace, events, i - 1);
      StepKeepsInv(trace[i - 1], events[i - 1]);
    }
  }

  /** The decision on the chain of a registration. */
  ghost function DecisionAt(trace: seq<Node>, events: seq<Event>, i: nat): Outcome
    requires IsRun(trace, events) && i < |events| && events[i].Registered?
  {
    var e := events[i];
    Decision(trace[i].marks, trace[i].run.value, e.chain, e.primary, e.faults)
  }

  /** A run that disallows incomplete indices never indexes a chain that was passed over before. */
  lemma NeverIndexesSkipped(trace: seq<Node>, events: seq<Event>, i: nat, j: nat)
    requires IsRun(trace, events) && i < j < |events| && events[i].Registered? && events[j].Registered?
    requires DecisionAt(trace, events, i) == Skipped && events[i].chain == events[j].chain
    requires !trace[j].run.value.allowIncomplete
    ensures DecisionAt(trace, events, j) != Indexed
  {
    RunKeepsInv(trace, events, j);
    SkippedStays(trace, events, i + 1, j, events[i].chain);
  }

  lemma {:induction false} SkippedStays(trace: seq<Node>, events: seq<Event>, i: nat, j: nat, chain: ChainID)
    requires IsRun(trace, events) && i <= j < |trace|
    requires i > 0 && events[i - 1].Registered? && events[i - 1].chain == chain
    requires DecisionAt(trace, events, i - 1) == Skipped
    ensures chain in trace[j].skipped
    decreases j
  {
    if i == j {
      assert trace[i] == Step(trace[i - 1], events[i - 1]);
    } else {
      SkippedStays(trace, events, i, j - 1, chain);
      assert trace[j] == Step(trace[j - 1], events[j - 1]);
    }
  }

  /** If no run so far allows incomplete indices, no chain has both been indexed and been passed over. */
  lemma {:induction false} NeverBoth(trace: seq<Node>, events: seq<Event>, i: nat)
    requires IsRun(trace, events) && i < |trace|
    requires forall k :: 0 <= k < i && events[k].Started? ==> !events[k].allowIncomplete
    ensures trace[i].marks.indexed !! trace[i].skipped
    ensures trace[i].run.Some? ==> !trace[i].run.value.allowIncomplete
  {
    if i > 0 {
      NeverBoth(trace, events, i - 1);
      RunKeepsInv(trace, events, i - 1);
      assert trace[i] == Step(trace[i - 1], events[i - 1]);
    }
  }

  // ---------------------------------------------------------------------------------------
  // What a run holds, and what closing gives back.
  // ---------------------------------------------------------------------------------------

  /** An open indexer has all its indices open and accepting; a closed one has none open and shut the node down once. */
  ghost predicate Holds(run: Run) {
    if run.closed then run.open == {} && run.shutdowns == 1
    else run.open == run.indices == run.accepting && run.shutdowns == 0
  }

  /** The index whose creation fails late, if a registration comes to that. */
  function LateFailure(chain: ChainID, vm: VM, faults: Faults): Option<Key> {
    if faults.blockIndex.FailsLate? then Some(Key(chain, Block))
    else if !faults.blockIndex.Works? || !vm.DAG? then None
    else if faults.vertexIndex.FailsLate? then Some(Key(chain, Vertex))
    else if faults.vertexIndex.Works? && faults.transactionIndex.FailsLate? then Some(Key(chain, Transaction))
    else None
  }

  /** A registration that closes the indexer leaves an acceptor registered exactly if an index fails late. */
  lemma IndicesLeftBehind(run: Run, chain: ChainID, vm: VM, faults: Faults)
    requires Holds(run) && !run.closed && !AlreadyIndexed(run, chain)
    ensures var r := WithIndices(run, chain, vm, faults); var late := LateFailure(chain, vm, faults);
      && Holds(r)
      && (late.Some? ==> r.closed)
      && (r.closed ==> r.accepting == if late.Some? then {late.value} else {})
  {
    var r1 := WithIndex(run, Key(chain, Block), faults.blockIndex);
    assert r1.accepting - r1.indices == if faults.blockIndex.FailsLate? then {Key(chain, Block)} else {};
    var r2 := WithIndex(r1, Key(chain, Vertex), faults.vertexIndex);
    assert faults.blockIndex.Works? ==>
        r2.accepting - r2.indices == if faults.vertexIndex.FailsLate? then {Key(chain, Vertex)} else {};
    var r3 := WithIndex(r2, Key(chain, Transaction), faults.transactionIndex);
    assert faults.blockIndex.Works? && faults.vertexIndex.Works? ==>
        r3.accepting - r3.indices == if faults.transactionIndex.FailsLate? then {Key(chain, Transaction)} else {};
  }

  /** The event is a registration in which the creation of an index fails late. */
  ghost predicate FailsLateAt(node: Node, e: Event) {
    && e.Registered?
    && node.run.Some?
    && Decision(node.marks, node.run.value, e.chain, e.primary, e.faults) == Indexed
    && LateFailure(e.chain, e.vm, e.faults).Some?
  }

  /** Nothing is left registered by a closed indexer. */
  ghost predicate Clean(node: Node) {
    node.run.Some? && node.run.value.closed ==> node.run.value.accepting == {}
  }

  ghost predicate HoldsAll(node: Node) {
    node.run.Some? ==> Holds(node.run.value)
  }

  lemma StepHolds(node: Node, e: Event)
    requires HoldsAll(node) && Allowed(node, e)
    ensures HoldsAll(Step(node, e))
    ensures Clean(node) ==> (Clean(Step(node, e)) <==> !FailsLateAt(node, e))
  {
    if e.Registered? {
      var run := node.run.value;
      if Decision(node.marks, run, e.chain, e.primary, e.faults) == Indexed {
        IndicesLeftBehind(run, e.chain, e.vm, e.faults);
      }
    }
  }

  /** At every point of every history, a closed indexer has closed all indices and told the node to shut down once. */
  lemma {:induction false} RunHolds(trace: seq<Node>, events: seq<Event>, i: nat)
    requires IsRun(trace, events) && i < |trace|
    ensures HoldsAll(trace[i])
  {
    if i > 0 {
      RunHolds(trace, events, i - 1);
      StepHolds(trace[i - 1], events[i - 1]);
    }
  }

  /** Throughout a history no closed indexer leaves an acceptor registered, exactly if no index ever fails late. */
  lemma CleanIff(trace: seq<Node>, events: seq<Event>)
    requires IsRun(trace, events)
    ensures (forall i :: 0 <= i < |trace| ==> Clean(trace[i])) <==>
      (forall i :: 0 <= i < |events| ==> !FailsLateAt(trace[i], events[i]))
  {
    if forall i :: 0 <= i < |events| ==> !FailsLateAt(trace[i], events[i]) {
      forall i | 0 <= i < |trace|
        ensures Clean(trace[i])
      {
        StaysClean(trace, events, i);
      }
    }
    if forall i :: 0 <= i < |trace| ==> Clean(trace[i]) {
      forall i | 0 <= i < |events|
        ensures !FailsLateAt(trace[i], events[i])
      {
        RunHolds(trace, events, i);
        assert Clean(trace[i]) && Clean(trace[i + 1]) && trace[i + 1] == Step(trace[i], events[i]);
        StepHolds(trace[i], events[i]);
      }
    }
  }

  lemma {:induction false} StaysClean(trace: seq<Node>, events: seq<Event>, i: nat)
    requires IsRun(trace, events) && i < |trace|
    requires forall k :: 0 <= k < |events| ==> !FailsLateAt(trace[k], events[k])
    ensures Clean(trace[i])
  {
    if i > 0 {
      StaysClean(trace, events, i - 1);
      RunHolds(trace, events, i - 1);
      assert !FailsLateAt(trace[i - 1], events[i - 1]) && trace[i] == Step(trace[i - 1], events[i - 1]);
      StepHolds(trace[i - 1], events[i - 1]);
    }
  }

  // ---------------------------------------------------------------------------------------
  // The indexer, updated in place.
  // ---------------------------------------------------------------------------------------

  class Indexer {
    const hasRunBefore: bool
    const indexingEnabled: bool
    const allowIncomplete: bool
    var marks: Marks
    var closed: bool
    var blockIndices: set<ChainID>
    var vertexIndices: set<ChainID>
    var transactionIndices: set<ChainID>
    var open: set<Key>
    var accepting: set<Key>
    var shutdowns: nat
    ghost var skipped: set<ChainID>

    ghost function Value(): Node
      reads this
    {
      var run := Run(hasRunBefore, indexingEnabled, allowIncomplete, closed, Indices(), open, accepting, shutdowns);
      Node(marks, Some(run), skipped)
    }

    ghost function Indices(): set<Key>
      reads this
    {
      Keys(blockIndices, Block) + Keys(vertexIndices, Vertex) + Keys(transactionIndices, Transaction)
    }

    constructor (stored: Marks, indexingEnabled: bool, allowIncomplete: bool, ghost skipped: set<ChainID>)
      ensures Value() == Step(Node(stored, None, skipped), Started(indexingEnabled, allowIncomplete))
    {
      this.indexingEnabled, this.allowIncomplete := indexingEnabled, allowIncomplete;
      hasRunBefore := stored.hasRun;
      marks := stored.(hasRun := true);
      closed, blockIndices, vertexIndices, transactionIndices := false, {}, {}, {};
      open, accepting, shutdowns := {}, {}, 0;
      this.skipped := skipped;
      new;
      assert Indices() == {};
    }

    method CloseIndices(chains: set<ChainID>, kind: Kind)
      modifies this`open, this`accepting
      ensures open == old(open) - Keys(chains, kind) && accepting == old(accepting) - Keys(chains, kind)
    {
      var left := chains;
      while left != {}
        invariant left <= chains
        invariant open == old(open) - Keys(chains - left, kind)
        invariant accepting == old(accepting) - Keys(chains - left, kind)
      {
        var chain :| chain in left;
        assert Keys(chains - (left - {chain}), kind) == Keys(chains - left, kind) + {Key(chain, kind)};
        left := left - {chain};
        open := open - {Key(chain, kind)};
        accepting := accepting - {Key(chain, kind)};
      }
      assert chains - left == chains;
    }

    method Close()
      modifies this`closed, this`open, this`accepting, this`shutdowns
      ensures Value() == Step(old(Value()), Closed)
    {
      if closed {
        return;
      }
      closed := true;
      CloseIndices(transactionIndices, Transaction);
      CloseIndices(vertexIndices, Vertex);
      CloseIndices(blockIndices, Block);
      shutdowns := shutdowns + 1;
      assert open == old(open) - Indices() && accepting == old(accepting) - Indices();
    }

    /** Creates an index and stores it, unless that fails. */
    method RegisterChainHelper(chain: ChainID, kind: Kind, fault: IndexFault) returns (ok: bool)
      requires Key(chain, kind) !in open
      modifies this`open, this`accepting, this`blockIndices, this`vertexIndices, this`transactionIndices
      ensures ok <==> fault.Works?
      ensures Value() == old(Value()).(run := Some(WithIndex(old(Value()).run.value, Key(chain, kind), fault)))
    {
      var key := Key(chain, kind);
      open := open + {key};
      if fault.FailsEarly? {
        open := open - {key};
        return false;
      }
      accepting := accepting + {key};
      if fault.FailsLate? {
        open := open - {key};
        return false;
      }
      match kind {
        case Block => blockIndices := blockIndices + {chain};
        case Vertex => vertexIndices := vertexIndices + {chain};
        case Transaction => transactionIndices := transactionIndices + {chain};
      }
      assert Indices() == old(Indices()) + {key};
      return true;
    }

    /** The indices of a chain that is to be indexed. */
    method CreateIndices(chain: ChainID, vm: VM, faults: Faults)
      requires Key(chain, Block) !in open && Key(chain, Vertex) !in open && Key(chain, Transaction) !in open
      modifies this
      ensures Value() == old(Value()).(run := Some(WithIndices(old(Value()).run.value, chain, vm, faults)))
    {
      var blockOk := RegisterChainHelper(chain, Block, faults.blockIndex);
      if !blockOk || vm.Unknown? {
        Close();
        return;
      }
      if vm.Linear? {
        return;
      }
      var vertexOk := RegisterChainHelper(chain, Vertex, faults.vertexIndex);
      if !vertexOk {
        Close();
        return;
      }
      var transactionOk := RegisterChainHelper(chain, Transaction, faults.transactionIndex);
      if !transactionOk {
        Close();
      }
    }

    method RegisterChain(chain: ChainID, primary: bool, vm: VM, faults: Faults)
      requires Holds(Value().run.value)
      modifies this
      ensures Value() == Register(old(Value()), chain, primary, vm, faults)
      ensures Holds(Value().run.value) && (Inv(old(Value())) ==> Inv(Value()))
    {
      if Inv(Value()) {
        StepKeepsInv(Value(), Registered(chain, primary, vm, faults));
      }
      StepHolds(Value(), Registered(chain, primary, vm, faults));
      if closed || !primary {
        return;
      }
      if chain in blockIndices || chain in transactionIndices || chain in vertexIndices {
        return;
      }
      if faults.readIncomplete {
        Close();
        return;
      }
      var isIncomplete := chain in marks.incomplete;
      if faults.readIndexed {
        Close();
        return;
      }
      var previouslyIndexed := chain in marks.indexed;

      if !indexingEnabled {
        if previouslyIndexed && !allowIncomplete {
          Close();
          return;
        }
        if faults.writeIncomplete {
          Close();
          return;
        }
        marks := marks.(incomplete := marks.incomplete + {chain});
        skipped := skipped + {chain};
        return;
      }

      if !allowIncomplete && isIncomplete && (previouslyIndexed || hasRunBefore) {
        Close();
        return;
      }
      if faults.writeIndexed {
        Close();
        return;
      }
      marks := marks.(indexed := marks.indexed + {chain});
      CreateIndices(chain, vm, faults);
    }
  }

  function Keys(chains: set<ChainID>, kind: Kind): set<Key> {
    set c | c in chains :: Key(c, kind)
  }
}
