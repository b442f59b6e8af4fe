/**
 The gate in front of the API routes: requests are parked while it is blocked, and draining waits for the requests
 in flight. Waiting happens on one condition variable; `waiting` are the waiters no broadcast has woken yet.
 */
module HTTPGate {
  datatype Thread = Thread(id: int)

  datatype Gate = Gate(blocked: bool, inflight: int, waiting: set<Thread>)

  /** One pass of the loop in enter: go through, or wait. */
  function EnterOnce(g: Gate, t: Thread): Gate {
    if g.blocked then g.(waiting := g.waiting + {t}) else g.(inflight := g.inflight + 1)
  }

  /** One pass of the loop in Drain: return, or wait. */
  function DrainOnce(g: Gate, t: Thread): Gate {
    if g.inflight > 0 then g.(waiting := g.waiting + {t}) else g
  }

  function Left(g: Gate): Gate {
    g.(inflight := g.inflight - 1, waiting := if g.inflight == 1 then {} else g.waiting)
  }

  function Unblocked(g: Gate): Gate {
    g.(blocked := false, waiting := {})
  }

  function Canceled(g: Gate, t: Thread): Gate {
    g.(waiting := g.waiting - {t})
  }

  class MutableHTTPHandlers {
    var blocked: bool
    var inflight: int
    var waiting: set<Thread>

    function Value(): Gate
      reads this
    {
      Gate(blocked, inflight, waiting)
    }

    constructor ()
      ensures Value() == Gate(false, 0, {})
    {
      blocked, inflight, waiting := false, 0, {};
    }

    method Block()
      modifies this
      ensures Value() == old(Value()).(blocked := true)
    {
      blocked := true;
    }

    method Unblock()
      modifies this
      ensures !blocked && waiting == {} && inflight == old(inflight) && Value() == Unblocked(old(Value()))
    {
      blocked := false;
      Broadcast();
    }

    method Broadcast()
      modifies this`waiting
      ensures waiting == {}
    {
      waiting := {};
    }

    method TryEnter(t: Thread) returns (entered: bool)
      modifies this
      ensures Value() == EnterOnce(old(Value()), t) && (entered <==> !old(blocked)) && blocked == old(blocked)
      ensures inflight == old(inflight) + (if entered then 1 else 0)
      ensures waiting == old(waiting) + (if entered then {} else {t})
    {
      if blocked {
        waiting := waiting + {t};
        return false;
      }
      inflight := inflight + 1;
      return true;
    }

    method TryDrain(t: Thread) returns (drained: bool)
      modifies this
      ensures Value() == DrainOnce(old(Value()), t) && (drained <==> old(inflight) <= 0)
      ensures blocked == old(blocked) && inflight == old(inflight)
      ensures waiting == old(waiting) + (if drained then {} else {t})
    {
      if inflight > 0 {
        waiting := waiting + {t};
        return false;
      }
      return true;
    }

    /** The context of a waiter is cancelled: it returns an error without another pass. */
    method CancelWait(t: Thread)
      modifies this
      ensures Value() == Canceled(old(Value()), t)
    {
      waiting := waiting - {t};
    }

    method Leave()
      modifies this
      ensures Value() == Left(old(Value())) && blocked == old(blocked) && inflight == old(inflight) - 1
      ensures waiting == if inflight == 0 then {} else old(waiting)
    {
      inflight := inflight - 1;
      if inflight == 0 {
        Broadcast();
      }
    }
  }

  // ---------------------------------------------------------------------------------------
  // Any number of requests and drains.
  // ---------------------------------------------------------------------------------------

  datatype Pc = Out | AtEnter | Serving | AtDrain

  datatype World = World(gate: Gate, pcs: map<Thread, Pc>)

  datatype Action =
    | Block
    | Unblock
    | Enter(t: Thread)       // first pass, or another pass after waking up
    | GiveUp(t: Thread)      // the context of a waiter is cancelled
    | Leave(t: Thread)
    | Drain(t: Thread)       // first pass, or another pass after waking up

  predicate Awake(w: World, t: Thread, pc: Pc) {
    t in w.pcs && (w.pcs[t] == Out || (w.pcs[t] == pc && t !in w.gate.waiting))
  }

  predicate Enabled(w: World, a: Action) {
    match a
    case Block => true
    case Unblock => true
    case Enter(t) => Awake(w, t, AtEnter)
    case GiveUp(t) => t in w.pcs && (w.pcs[t] == AtEnter || w.pcs[t] == AtDrain)
    case Leave(t) => t in w.pcs && w.pcs[t] == Serving
    case Drain(t) => Awake(w, t, AtDrain)
  }

  function Step(w: World, a: Action): World
    requires Enabled(w, a)
  {
    match a
    case Block => w.(gate := w.gate.(blocked := true))
    case Unblock => w.(gate := Unblocked(w.gate))
    case Enter(t) => World(EnterOnce(w.gate, t), w.pcs[t := if w.gate.blocked then AtEnter else Serving])
    case GiveUp(t) => World(Canceled(w.gate, t), w.pcs[t := Out])
    case Leave(t) => World(Left(w.gate), w.pcs[t := Out])
    case Drain(t) => World(DrainOnce(w.gate, t), w.pcs[t := if w.gate.inflight > 0 then AtDrain else Out])
  }

  /** The action is a call of Drain that returns nil. */
  predicate DrainReturns(w: World, a: Action) {
    a.Drain? && w.gate.inflight <= 0
  }

  function InFlight(pcs: map<Thread, Pc>): set<Thread> {
    set t | t in pcs && pcs[t] == Serving
  }

  /** The counter is exact, and a waiter that was not woken still waits for what it saw. */
  ghost predicate Inv(w: World) {
    w.gate.inflight == |InFlight(w.pcs)| && forall t :: t in w.gate.waiting ==> WaitsFor(w.gate, w.pcs, t)
  }

  /** A waiter in enter sees a blocked gate, one in Drain a request in flight. */
  ghost predicate WaitsFor(gate: Gate, pcs: map<Thread, Pc>, t: Thread) {
    t in pcs && ((pcs[t] == AtEnter && gate.blocked) || (pcs[t] == AtDrain && gate.inflight > 0))
  }

  lemma InFlightUpdate(pcs: map<Thread, Pc>, t: Thread, pc: Pc)
    requires t in pcs
    ensures InFlight(pcs[t := pc]) == if pc == Serving then InFlight(pcs) + {t} else InFlight(pcs) - {t}
    ensures t in InFlight(pcs) <==> pcs[t] == Serving
    ensures |InFlight(pcs[t := pc])| ==
      |InFlight(pcs)| + (if pc == Serving then 1 else 0) - if pcs[t] == Serving then 1 else 0
  {
    var now := InFlight(pcs[t := pc]);
    assert now == if pc == Serving then InFlight(pcs) + {t} else InFlight(pcs) - {t};
    if pc == Serving && pcs[t] == Serving {
      assert now == InFlight(pcs);
    } else if pc != Serving && pcs[t] != Serving {
      assert now == InFlight(pcs);
    }
  }

  lemma StepKeepsCount(w: World, a: Action)
    requires w.gate.inflight == |InFlight(w.pcs)| && Enabled(w, a)
    ensures Step(w, a).gate.inflight == |InFlight(Step(w, a).pcs)|
  {
    if !a.Block? && !a.Unblock? {
      InFlightUpdate(w.pcs, a.t, Step(w, a).pcs[a.t]);
    }
  }

  lemma StepKeepsWaiter(w: World, a: Action, t: Thread)
    requires Inv(w) && Enabled(w, a) && t in Step(w, a).gate.waiting
    ensures WaitsFor(Step(w, a).gate, Step(w, a).pcs, t)
  {
    assert t in w.gate.waiting ==> WaitsFor(w.gate, w.pcs, t);
  }

  lemma StepKeepsInv(w: World, a: Action)
    requires Inv(w) && Enabled(w, a)
    ensures Inv(Step(w, a))
  {
    StepKeepsCount(w, a);
    var w' := Step(w, a);
    forall t | t in w'.gate.waiting
      ensures WaitsFor(w'.gate, w'.pcs, t)
    {
      StepKeepsWaiter(w, a, t);
    }
  }

  function Start(threads: set<Thread>): World {
    World(Gate(false, 0, {}), map t | t in threads :: Out)
  }

  predicate Goes(w: World, a: Action, w1: World) {
    Enabled(w, a) && w1 == Step(w, a)
  }

  ghost predicate IsRun(threads: set<Thread>, trace: seq<World>, actions: seq<Action>) {
    && |trace| == |actions| + 1
    && trace[0] == Start(threads)
    && forall i {:trigger actions[i]} :: 0 <= i < |actions| ==> Goes(trace[i], actions[i], trace[i + 1])
  }

  lemma {:induction false} RunKeepsInv(threads: set<Thread>, trace: seq<World>, actions: seq<Action>, i: nat)
    requires IsRun(threads, trace, actions) && i < |trace|
    ensures Inv(trace[i])
  {
    if i > 0 {
      RunKeepsInv(threads, trace, actions, i - 1);
      assert Goes(trace[i - 1], actions[i - 1], trace[i]);
      StepKeepsInv(trace[i - 1], actions[i - 1]);
    } else {
      assert InFlight(Start(threads).pcs) == {};
    }
  }

  /** While the gate stays blocked, the requests in flight only get fewer. */
  lemma {:induction false} BlockedLetsNoneIn(threads: set<Thread>, trace: seq<World>, actions: seq<Action>, i: nat,
      j: nat)
    requires IsRun(threads, trace, actions) && i <= j < |trace|
    requires trace[i].gate.blocked && forall k :: i <= k < j ==> actions[k] != Unblock
    ensures trace[j].gate.blocked && InFlight(trace[j].pcs) <= InFlight(trace[i].pcs)
  {
    if i < j {
      BlockedLetsNoneIn(threads, trace, actions, i, j - 1);
      var w, a := trace[j - 1], actions[j - 1];
      assert Goes(w, a, trace[j]);
      if !a.Block? && !a.Unblock? {
        InFlightUpdate(w.pcs, a.t, Step(w, a).pcs[a.t]);
      }
    }
  }

  /**
   In every interleaving, once Drain returned nil while the gate was blocked, no request is in flight until the next
   Unblock. So whoever called Block and then Drain may swap the handlers.
   */
  lemma DrainedIsQuiet(threads: set<Thread>, trace: seq<World>, actions: seq<Action>, i: nat, j: nat)
    requires IsRun(threads, trace, actions) && i < j < |trace|
    requires trace[i].gate.blocked && DrainReturns(trace[i], actions[i])
    requires forall k :: i <= k < j ==> actions[k] != Unblock
    ensures InFlight(trace[j].pcs) == {} && trace[j].gate.inflight == 0
  {
    RunKeepsInv(threads, trace, actions, i);
    RunKeepsInv(threads, trace, actions, j);
    assert InFlight(trace[i].pcs) == {};
    BlockedLetsNoneIn(threads, trace, actions, i, j);
  }

  /** No wake-up is lost: a thread stuck in enter waits for a blocked gate, one in Drain for a request in flight. */
  lemma NoLostWakeup(threads: set<Thread>, trace: seq<World>, actions: seq<Action>, i: nat, t: Thread)
    requires IsRun(threads, trace, actions) && i < |trace| && t in trace[i].pcs
    ensures var w := trace[i];
      && (w.pcs[t] == AtEnter && !Enabled(w, Enter(t)) ==> w.gate.blocked)
      && (w.pcs[t] == AtDrain && !Enabled(w, Drain(t)) ==>
            exists u :: u in w.pcs && w.pcs[u] == Serving && Enabled(w, Leave(u)))
  {
    RunKeepsInv(threads, trace, actions, i);
    var w := trace[i];
    if w.pcs[t] == AtDrain && !Enabled(w, Drain(t)) {
      assert |InFlight(w.pcs)| > 0;
      var u :| u in InFlight(w.pcs);
      assert Enabled(w, Leave(u));
    }
  }

  lemma {:induction false} OpenUntilBlocked(threads: set<Thread>, trace: seq<World>, actions: seq<Action>, i: nat,
      j: nat)
    requires IsRun(threads, trace, actions) && i < j < |trace| && actions[i] == Unblock
    requires forall k :: i < k < j ==> actions[k] != Block
    ensures !trace[j].gate.blocked
    decreases j
  {
    assert Goes(trace[j - 1], actions[j - 1], trace[j]);
    if i < j - 1 {
      OpenUntilBlocked(threads, trace, actions, i, j - 1);
    }
  }

  /** In every interleaving, from an Unblock until the next Block, every request that was parked or arrives can enter
      and is then served. */
  lemma UnblockedServes(threads: set<Thread>, trace: seq<World>, actions: seq<Action>, i: nat, j: nat, t: Thread)
    requires IsRun(threads, trace, actions) && i < j < |trace| && actions[i] == Unblock
    requires forall k :: i < k < j ==> actions[k] != Block
    requires t in trace[j].pcs && (trace[j].pcs[t] == AtEnter || trace[j].pcs[t] == Out)
    ensures Enabled(trace[j], Enter(t)) && Step(trace[j], Enter(t)).pcs[t] == Serving
    ensures Step(trace[j], Enter(t)).gate.inflight == trace[j].gate.inflight + 1
  {
    OpenUntilBlocked(threads, trace, actions, i, j);
    RunKeepsInv(threads, trace, actions, j);
    assert t in trace[j].gate.waiting ==> WaitsFor(trace[j].gate, trace[j].pcs, t);
  }

  /** From a Block until the next Unblock, a request that arrives is parked and can do nothing but give up. */
  lemma BlockedParks(threads: set<Thread>, trace: seq<World>, actions: seq<Action>, i: nat, j: nat, t: Thread)
    requires IsRun(threads, trace, actions) && i < j < |actions| && actions[i] == Block
    requires forall k :: i < k < j ==> actions[k] != Unblock
    requires actions[j] == Enter(t)
    ensures trace[j + 1].pcs[t] == AtEnter && !Enabled(trace[j + 1], Enter(t)) && Enabled(trace[j + 1], GiveUp(t))
  {
    assert Goes(trace[i], actions[i], trace[i + 1]);
    BlockedLetsNoneIn(threads, trace, actions, i + 1, j);
    assert Goes(trace[j], actions[j], trace[j + 1]);
  }

  /** Whenever no request is in flight, whoever waits in Drain, or calls it, can return. */
  lemma QuietDrains(threads: set<Thread>, trace: seq<World>, actions: seq<Action>, i: nat, t: Thread)
    requires IsRun(threads, trace, actions) && i < |trace| && InFlight(trace[i].pcs) == {}
    requires t in trace[i].pcs && (trace[i].pcs[t] == AtDrain || trace[i].pcs[t] == Out)
    ensures Enabled(trace[i], Drain(t)) && DrainReturns(trace[i], Drain(t))
    ensures Step(trace[i], Drain(t)).pcs[t] == Out
  {
    RunKeepsInv(threads, trace, actions, i);
    assert t in trace[i].gate.waiting ==> WaitsFor(trace[i].gate, trace[i].pcs, t);
  }
}
