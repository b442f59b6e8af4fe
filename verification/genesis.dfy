/**
 How the genesis supply is divided: the initial balances of the X-chain, the locked outputs of the P-chain, and
 the stake of the initial validators. Amounts are numbers; nothing that is added up exceeds the total, so where that
 fits in 64 bits no operation overflows.

 The meaning of a list of allocations is its stream of units: one entry per locked nAVAX, in order, naming its
 owner and the time it unlocks.
 */
module Genesis {
  const MAX_UINT64: nat := 0xFFFF_FFFF_FFFF_FFFF

  datatype Address = Address(bytes: int)
  datatype LockedAmount = LockedAmount(amount: nat, locktime: nat)
  datatype Allocation = Allocation(ethAddr: Address, avaxAddr: Address, initialAmount: nat,
      unlockSchedule: seq<LockedAmount>)

  // ---------------------------------------------------------------------------------------
  // Units.
  // ---------------------------------------------------------------------------------------

  datatype Unit = Unit(ethAddr: Address, avaxAddr: Address, locktime: nat)

  function UnitOf(a: Allocation, l: LockedAmount): Unit {
    Unit(a.ethAddr, a.avaxAddr, l.locktime)
  }

  ghost function Repeat(u: Unit, n: nat): seq<Unit> {
    seq(n, _ => u)
  }

  /** The units of a schedule under the owners of `a`. */
  ghost function ScheduleUnits(a: Allocation, s: seq<LockedAmount>): seq<Unit> {
    if s == [] then []
    else ScheduleUnits(a, s[..|s| - 1]) + Repeat(UnitOf(a, s[|s| - 1]), s[|s| - 1].amount)
  }

  ghost function AllocationUnits(a: Allocation): seq<Unit> {
    ScheduleUnits(a, a.unlockSchedule)
  }

  ghost function Units(g: seq<Allocation>): seq<Unit> {
    if g == [] then [] else Units(g[..|g| - 1]) + AllocationUnits(g[|g| - 1])
  }

  lemma ScheduleUnitsAppend(a: Allocation, s: seq<LockedAmount>, l: LockedAmount)
    ensures ScheduleUnits(a, s + [l]) == ScheduleUnits(a, s) + Repeat(UnitOf(a, l), l.amount)
  {
    assert (s + [l])[..|s|] == s;
  }

  lemma UnitsAppend(g: seq<Allocation>, a: Allocation)
    ensures Units(g + [a]) == Units(g) + AllocationUnits(a)
  {
    assert (g + [a])[..|g|] == g;
  }

  /** Units depend on the allocation through its owners only. */
  lemma {:induction false} SameOwners(a: Allocation, b: Allocation, s: seq<LockedAmount>)
    requires a.ethAddr == b.ethAddr && a.avaxAddr == b.avaxAddr
    ensures ScheduleUnits(a, s) == ScheduleUnits(b, s)
  {
    if s != [] {
      SameOwners(a, b, s[..|s| - 1]);
    }
  }

  lemma {:induction false} SchedulePrefix(a: Allocation, s: seq<LockedAmount>, i: nat)
    requires i <= |s|
    ensures ScheduleUnits(a, s[..i]) <= ScheduleUnits(a, s)
  {
    if i == |s| {
      assert s[..i] == s;
    } else {
      SchedulePrefix(a, s[..|s| - 1], i);
      assert s[..|s| - 1][..i] == s[..i];
    }
  }

  lemma {:induction false} UnitsPrefix(g: seq<Allocation>, i: nat)
    requires i <= |g|
    ensures Units(g[..i]) <= Units(g)
  {
    if i == |g| {
      assert g[..i] == g;
    } else {
      UnitsPrefix(g[..|g| - 1], i);
      assert g[..|g| - 1][..i] == g[..i];
    }
  }

  // ---------------------------------------------------------------------------------------
  // Splitting.
  // ---------------------------------------------------------------------------------------

  /** `k * w`, by repeated addition: the proofs below only ever add one more slice. */
  ghost function Times(k: nat, w: nat): nat {
    if k == 0 then 0 else Times(k - 1, w) + w
  }

  lemma {:induction false} TimesIsProduct(k: nat, w: nat)
    ensures Times(k, w) == k * w
  {
    if k > 0 {
      TimesIsProduct(k - 1, w);
      assert k * w == (k - 1) * w + w;
    }
  }

  /** The units of groups, one group after the other. */
  ghost function AllUnits(groups: seq<seq<Allocation>>): seq<Unit> {
    if groups == [] then [] else AllUnits(groups[..|groups| - 1]) + Units(groups[|groups| - 1])
  }

  lemma AllUnitsAppend(groups: seq<seq<Allocation>>, g: seq<Allocation>)
    ensures AllUnits(groups + [g]) == AllUnits(groups) + Units(g)
  {
    assert (groups + [g])[..|groups|] == groups;
  }

  /** Allocations with no initial amount and something in the schedule. */
  ghost predicate Clean(g: seq<Allocation>) {
    forall a :: a in g ==> a.initialAmount == 0 && a.unlockSchedule != []
  }

  lemma CleanAppend(g: seq<Allocation>, a: Allocation)
    requires Clean(g) && a.initialAmount == 0 && a.unlockSchedule != []
    ensures Clean(g + [a])
  {
  }

  /** Clean groups of `w` units each. */
  ghost predicate Even(groups: seq<seq<Allocation>>, w: nat) {
    forall i :: 0 <= i < |groups| ==> |Units(groups[i])| == w && Clean(groups[i])
  }

  lemma EvenAppend(groups: seq<seq<Allocation>>, w: nat, g: seq<Allocation>)
    requires Even(groups, w) && |Units(g)| == w && Clean(g)
    ensures Even(groups + [g], w)
  {
  }

  lemma {:induction false} EvenTotal(groups: seq<seq<Allocation>>, w: nat, k: nat)
    requires k <= |groups| && forall i :: 0 <= i < k ==> |Units(groups[i])| == w
    ensures |AllUnits(groups[..k])| == Times(k, w)
  {
    if k > 0 {
      EvenTotal(groups, w, k - 1);
      assert groups[..k] == groups[..k - 1] + [groups[k - 1]];
      AllUnitsAppend(groups[..k - 1], groups[k - 1]);
    }
  }

  method TotalLocked(allocations: seq<Allocation>) returns (total: nat)
    ensures total == |Units(allocations)|
  {
    total := 0;
    for i := 0 to |allocations|
      invariant total == |Units(allocations[..i])|
    {
      var a := allocations[i];
      UnitsPrefix(allocations, i + 1);
      UnitsAppend(allocations[..i], a);
      assert allocations[..i + 1] == allocations[..i] + [a];
      for j := 0 to |a.unlockSchedule|
        invariant total == |Units(allocations[..i])| + |ScheduleUnits(a, a.unlockSchedule[..j])|
      {
        SchedulePrefix(a, a.unlockSchedule, j + 1);
        ScheduleUnitsAppend(a, a.unlockSchedule[..j], a.unlockSchedule[j]);
        assert a.unlockSchedule[..j + 1] == a.unlockSchedule[..j] + [a.unlockSchedule[j]];
        total := total + a.unlockSchedule[j].amount;
      }
      assert a.unlockSchedule[..|a.unlockSchedule|] == a.unlockSchedule;
    }
    assert allocations[..|allocations|] == allocations;
  }

  /** A split under way: groups that are closed, and a group and an allocation under construction. */
  datatype Split = Split(closed: seq<seq<Allocation>>, group: seq<Allocation>, current: Allocation)

  /** The units in the group and the allocation under construction. */
  ghost function Open(s: Split): seq<Unit> {
    Units(s.group) + AllocationUnits(s.current)
  }

  /** All units dealt out so far. */
  ghost function Flow(s: Split): seq<Unit> {
    AllUnits(s.closed) + Open(s)
  }

  ghost function AddLocked(s: Split, l: LockedAmount): Split {
    s.(current := s.current.(unlockSchedule := s.current.unlockSchedule + [l]))
  }

  lemma AddLockedFlow(s: Split, l: LockedAmount)
    ensures Open(AddLocked(s, l)) == Open(s) + Repeat(UnitOf(s.current, l), l.amount)
    ensures Flow(AddLocked(s, l)) == Flow(s) + Repeat(UnitOf(s.current, l), l.amount)
  {
    var a, b := s.current, AddLocked(s, l).current;
    ScheduleUnitsAppend(a, a.unlockSchedule, l);
    SameOwners(a, b, b.unlockSchedule);
  }

  /** The next allocation's owners, with an empty schedule. */
  function Opened(a: Allocation): Allocation {
    a.(initialAmount := 0, unlockSchedule := [])
  }

  lemma OpenedIsEmpty(g: seq<Allocation>, a: Allocation)
    ensures Units(g) + AllocationUnits(Opened(a)) == Units(g)
  {
  }

  ghost function Closed(s: Split, next: Allocation): Split {
    Split(s.closed + [s.group + [s.current]], [], Opened(next))
  }

  lemma CloseFlow(s: Split, next: Allocation)
    ensures Flow(Closed(s, next)) == Flow(s) && Open(Closed(s, next)) == []
    ensures Units(s.group + [s.current]) == Open(s)
  {
    UnitsAppend(s.group, s.current);
    AllUnitsAppend(s.closed, s.group + [s.current]);
    OpenedIsEmpty([], next);
  }

  ghost function Ended(s: Split, next: Allocation): Split {
    Split(s.closed, if s.current.unlockSchedule != [] then s.group + [s.current] else s.group, Opened(next))
  }

  lemma EndFlow(s: Split, next: Allocation)
    ensures Flow(Ended(s, next)) == Flow(s) && Open(Ended(s, next)) == Open(s)
  {
    UnitsAppend(s.group, s.current);
    OpenedIsEmpty(Ended(s, next).group, next);
    if s.current.unlockSchedule == [] {
      assert AllocationUnits(s.current) == [];
      assert Open(s) == Units(s.group);
    }
  }

  /** Where the units of the `j`th unlock of the `i`th allocation begin. */
  ghost function Offset(allocations: seq<Allocation>, i: nat, j: nat): nat
    requires i < |allocations| && j <= |allocations[i].unlockSchedule|
  {
    |Units(allocations[..i])| + |ScheduleUnits(allocations[i], allocations[i].unlockSchedule[..j])|
  }

  lemma UnlockUnits(allocations: seq<Allocation>, i: nat, j: nat)
    requires i < |allocations| && j < |allocations[i].unlockSchedule|
    ensures var a := allocations[i]; var l := a.unlockSchedule[j];
      && Offset(allocations, i, j + 1) == Offset(allocations, i, j) + l.amount
      && NextAre(Units(allocations), Offset(allocations, i, j), l.amount, UnitOf(a, l))
  {
    var a := allocations[i];
    var s := a.unlockSchedule;
    assert s[..j + 1] == s[..j] + [s[j]];
    ScheduleUnitsAppend(a, s[..j], s[j]);
    SchedulePrefix(a, s, j + 1);
    assert allocations[..i + 1] == allocations[..i] + [a];
    UnitsAppend(allocations[..i], a);
    UnitsPrefix(allocations, i + 1);
  }

  lemma AllocationEnds(allocations: seq<Allocation>, i: nat)
    requires i < |allocations|
    ensures Offset(allocations, i, 0) == |Units(allocations[..i])|
    ensures Offset(allocations, i, |allocations[i].unlockSchedule|) == |Units(allocations[..i + 1])|
  {
    assert allocations[..i + 1] == allocations[..i] + [allocations[i]];
    UnitsAppend(allocations[..i], allocations[i]);
    assert allocations[i].unlockSchedule[..|allocations[i].unlockSchedule|] == allocations[i].unlockSchedule;
  }

  lemma FirstGroupsAreSmall(k: nat, n: nat, w: nat, amount: nat)
    requires k < n - 1 && amount <= w
    ensures k * w + amount <= (n - 1) * w
  {
    MulMono(k + 1, n - 1, w);
    assert (k + 1) * w == k * w + w;
  }

  /** Unless there is nothing to deal, all groups but the last are closed by the time all is dealt. */
  lemma AllClosed(total: nat, n: nat, w: nat, k: nat, amount: nat)
    requires n >= 1 && w == total / n && k <= n - 1 && total == k * w + amount
    requires k < n - 1 ==> amount <= w
    requires total > 0
    ensures k == n - 1
  {
    DivFloor(total, n);
    assert (n - 1) * w == n * w - w;
    assert (n - 1) * w < total;
    if k < n - 1 {
      FirstGroupsAreSmall(k, n, w, amount);
    }
  }

  lemma MulMono(a: nat, b: nat, w: nat)
    requires a <= b
    ensures a * w <= b * w
  {
  }

  lemma DivFloor(total: nat, n: nat)
    requires n >= 1
    ensures n * (total / n) <= total < n * (total / n) + n
    ensures total == n * (total / n) + total % n
  {
  }

  ghost predicate NextAre(units: seq<Unit>, pos: nat, n: nat, u: Unit) {
    pos + n <= |units| && forall k :: pos <= k < pos + n ==> units[k] == u
  }

  lemma PrefixGrows(flow: seq<Unit>, units: seq<Unit>, pos: nat, n: nat, u: Unit)
    requires pos <= |units| && flow == units[..pos] && NextAre(units, pos, n, u)
    ensures flow + Repeat(u, n) == units[..pos + n]
  {
    assert Repeat(u, n) == units[pos..pos + n];
    assert units[..pos] + units[pos..pos + n] == units[..pos + n];
  }

  /** A split into `n` groups of `w` units under way: `pos` units are dealt out, `amount` of them still open. */
  ghost predicate Going(s: Split, amount: nat, units: seq<Unit>, w: nat, n: nat, pos: nat) {
    && pos <= |units| && Flow(s) == units[..pos] && |Open(s)| == amount
    && Even(s.closed, w) && Clean(s.group) && s.current.initialAmount == 0
    && |s.closed| <= n - 1 && (|s.closed| < n - 1 ==> amount <= w)
    && (|units| == 0 ==> s.closed == [])
  }

  /** What is open and what comes next never exceeds the total, so the sums of the dealing do not overflow. */
  lemma SumsStayBelowTotal(s: Split, amount: nat, units: seq<Unit>, w: nat, n: nat, pos: nat, l: LockedAmount)
    requires Going(s, amount, units, w, n, pos) && NextAre(units, pos, l.amount, UnitOf(s.current, l))
    ensures amount + l.amount <= |units|
  {
    assert |Flow(s)| == |AllUnits(s.closed)| + |Open(s)|;
  }

  lemma AddRest(s: Split, amount: nat, units: seq<Unit>, w: nat, n: nat, pos: nat, l: LockedAmount)
    requires Going(s, amount, units, w, n, pos) && NextAre(units, pos, l.amount, UnitOf(s.current, l))
    requires |s.closed| == n - 1 || amount + l.amount <= w
    ensures Going(AddLocked(s, l), amount + l.amount, units, w, n, pos + l.amount)
  {
    AddLockedFlow(s, l);
    PrefixGrows(Flow(s), units, pos, l.amount, UnitOf(s.current, l));
  }

  lemma CloseGroup(s: Split, units: seq<Unit>, w: nat, n: nat, pos: nat, next: Allocation)
    requires Going(s, w, units, w, n, pos) && |s.closed| < n - 1 && s.current.unlockSchedule != [] && units != []
    ensures Going(Closed(s, next), 0, units, w, n, pos)
  {
    CloseFlow(s, next);
    CleanAppend(s.group, s.current);
    EvenAppend(s.closed, w, s.group + [s.current]);
  }

  lemma TurnTo(s: Split, amount: nat, units: seq<Unit>, w: nat, n: nat, pos: nat, next: Allocation)
    requires Going(s, amount, units, w, n, pos)
    ensures Going(Ended(s, next), amount, units, w, n, pos)
  {
    EndFlow(s, next);
    if s.current.unlockSchedule != [] {
      CleanAppend(s.group, s.current);
    }
  }

  /** Fills the open group up to the weight and closes it. */
  method FillGroup(s: Split, amount: nat, unlock: LockedAmount, nodeWeight: nat, allocation: Allocation,
                   ghost units: seq<Unit>, ghost n: nat, ghost pos: nat)
    returns (s': Split, rest: LockedAmount)
    requires Going(s, amount, units, nodeWeight, n, pos) && |s.closed| < n - 1
    requires NextAre(units, pos, unlock.amount, UnitOf(s.current, unlock))
    requires amount + unlock.amount > nodeWeight && Opened(s.current) == Opened(allocation)
    ensures |s'.closed| == |s.closed| + 1 && s'.current == Opened(allocation)
    ensures rest == unlock.(amount := unlock.amount - (nodeWeight - amount))
    ensures Going(s', 0, units, nodeWeight, n, pos + (nodeWeight - amount))
  {
    var part := LockedAmount(nodeWeight - amount, unlock.locktime);
    AddRest(s, amount, units, nodeWeight, n, pos, part);
    var current := s.current.(unlockSchedule := s.current.unlockSchedule + [part]);
    SumsStayBelowTotal(s, amount, units, nodeWeight, n, pos, unlock);
    CloseGroup(AddLocked(s, part), units, nodeWeight, n, pos + part.amount, allocation);
    s' := Split(s.closed + [s.group + [current]], [], Opened(allocation));
    rest := unlock.(amount := unlock.amount - part.amount);
  }

  method DealUnlock(s: Split, amount: nat, unlock: LockedAmount, nodeWeight: nat, numSplits: nat,
      allocation: Allocation, ghost units: seq<Unit>, ghost pos: nat)
    returns (s': Split, amount': nat)
    requires Going(s, amount, units, nodeWeight, numSplits, pos) && Opened(s.current) == Opened(allocation)
    requires NextAre(units, pos, unlock.amount, UnitOf(s.current, unlock))
    ensures Going(s', amount', units, nodeWeight, numSplits, pos + unlock.amount)
    ensures Opened(s'.current) == Opened(allocation)
  {
    s', amount' := s, amount;
    var rest := unlock;
    ghost var at: nat := pos;
    while amount' + rest.amount > nodeWeight && |s'.closed| < numSplits - 1
      invariant at + rest.amount == pos + unlock.amount
      invariant Going(s', amount', units, nodeWeight, numSplits, at) && Opened(s'.current) == Opened(allocation)
      invariant NextAre(units, at, rest.amount, UnitOf(s.current, unlock)) && rest.locktime == unlock.locktime
      decreases numSplits - |s'.closed|
    {
      ghost var added := (nodeWeight - amount');
      s', rest := FillGroup(s', amount', rest, nodeWeight, allocation, units, numSplits, at);
      amount', at := 0, at + added;
    }
    if rest.amount != 0 {
      AddRest(s', amount', units, nodeWeight, numSplits, at, rest);
      s' := s'.(current := s'.current.(unlockSchedule := s'.current.unlockSchedule + [rest]));
      amount' := amount' + rest.amount;
    }
  }

  /** Where the units of each unlock of an allocation begin, and where the last ones end. */
  ghost predicate Marks(units: seq<Unit>, a: Allocation, marks: seq<nat>) {
    && |marks| == |a.unlockSchedule| + 1
    && forall j {:trigger a.unlockSchedule[j]} :: 0 <= j < |a.unlockSchedule| ==>
         && marks[j + 1] == marks[j] + a.unlockSchedule[j].amount
         && NextAre(units, marks[j], a.unlockSchedule[j].amount, UnitOf(a, a.unlockSchedule[j]))
  }

  lemma MarksOf(allocations: seq<Allocation>, i: nat) returns (marks: seq<nat>)
    requires i < |allocations|
    ensures Marks(Units(allocations), allocations[i], marks)
    ensures marks[0] == |Units(allocations[..i])| && marks[|marks| - 1] == |Units(allocations[..i + 1])|
  {
    var n := |allocations[i].unlockSchedule|;
    AllocationEnds(allocations, i);
    marks := seq(n + 1, j requires 0 <= j < n + 1 => Offset(allocations, i, j));
    forall j | 0 <= j < n
      ensures marks[j + 1] == marks[j] + allocations[i].unlockSchedule[j].amount
      ensures NextAre(Units(allocations), marks[j], allocations[i].unlockSchedule[j].amount,
                      UnitOf(allocations[i], allocations[i].unlockSchedule[j]))
    {
      UnlockUnits(allocations, i, j);
    }
  }

  /** Deals out the unlocks of one allocation. */
  method DealSchedule(s: Split, amount: nat, nodeWeight: nat, numSplits: nat, allocation: Allocation,
                      ghost units: seq<Unit>, ghost marks: seq<nat>)
    returns (s': Split, amount': nat)
    requires Marks(units, allocation, marks) && Opened(s.current) == Opened(allocation)
    requires Going(s, amount, units, nodeWeight, numSplits, marks[0])
    ensures Going(s', amount', units, nodeWeight, numSplits, marks[|marks| - 1])
  {
    s', amount' := s, amount;
    for j := 0 to |allocation.unlockSchedule|
      invariant Going(s', amount', units, nodeWeight, numSplits, marks[j])
      invariant Opened(s'.current) == Opened(allocation)
    {
      var unlock := allocation.unlockSchedule[j];
      assert UnitOf(s'.current, unlock) == UnitOf(allocation, unlock);
      s', amount' := DealUnlock(s', amount', unlock, nodeWeight, numSplits, allocation, units, marks[j]);
    }
  }

  method DealAllocation(closed: seq<seq<Allocation>>, group: seq<Allocation>, amount: nat, nodeWeight: nat,
      numSplits: nat, allocation: Allocation, ghost units: seq<Unit>, ghost marks: seq<nat>)
    returns (closed': seq<seq<Allocation>>, group': seq<Allocation>, amount': nat)
    requires Marks(units, allocation, marks)
    requires Going(Split(closed, group, NOTHING), amount, units, nodeWeight, numSplits, marks[0])
    ensures Going(Split(closed', group', NOTHING), amount', units, nodeWeight, numSplits, marks[|marks| - 1])
  {
    TurnTo(Split(closed, group, NOTHING), amount, units, nodeWeight, numSplits, marks[0], allocation);
    var s := Split(closed, group, Opened(allocation));
    s, amount' := DealSchedule(s, amount, nodeWeight, numSplits, allocation, units, marks);
    TurnTo(s, amount', units, nodeWeight, numSplits, marks[|marks| - 1], NOTHING);
    closed' := s.closed;
    group' := if |s.current.unlockSchedule| > 0 then s.group + [s.current] else s.group;
  }

  /** Deals out all allocations. */
  method DealAll(allocations: seq<Allocation>, nodeWeight: nat, numSplits: nat, ghost units: seq<Unit>)
    returns (closed: seq<seq<Allocation>>, group: seq<Allocation>, amount: nat)
    requires units == Units(allocations) && numSplits >= 1
    ensures Going(Split(closed, group, NOTHING), amount, units, nodeWeight, numSplits, |units|)
  {
    closed, group, amount := [], [], 0;
    ghost var pos := 0;
    for i := 0 to |allocations|
      invariant pos == |Units(allocations[..i])|
      invariant Going(Split(closed, group, NOTHING), amount, units, nodeWeight, numSplits, pos)
    {
      ghost var marks := MarksOf(allocations, i);
      var next := allocations[i];
      closed, group, amount := DealAllocation(closed, group, amount, nodeWeight, numSplits, next, units, marks);
      pos := marks[|marks| - 1];
    }
    assert allocations[..|allocations|] == allocations;
  }

  const NOTHING := Allocation(Address(0), Address(0), 0, [])

  /**
   Deals the locked units of the allocations out to `numSplits` groups, in order: every group but the last gets
   an equal slice, the last gets the rest. If nothing is locked there is only one group, whatever was asked for.
   */
  method SplitAllocations(allocations: seq<Allocation>, numSplits: nat) returns (groups: seq<seq<Allocation>>)
    requires 1 <= numSplits
    ensures |groups| == if |Units(allocations)| > 0 then numSplits else 1
    ensures IsSplit(allocations, Quotient(|Units(allocations)|, numSplits), groups)
  {
    hide *;
    var totalAmount := TotalLocked(allocations);
    var nodeWeight := Weight(totalAmount, numSplits);
    var closed, group, amount := DealAll(allocations, nodeWeight, numSplits, Units(allocations));
    groups := closed + [group];
    FinishSplit(allocations, numSplits, nodeWeight, closed, group, amount);
  }

  function Quotient(total: nat, n: nat): nat
    requires n >= 1
  {
    total / n
  }

  method Weight(total: nat, numSplits: nat) returns (w: nat)
    requires 1 <= numSplits
    ensures w == Quotient(total, numSplits)
  {
    w := total / numSplits;
  }

  lemma FinishSplit(allocations: seq<Allocation>, n: nat, w: nat, closed: seq<seq<Allocation>>,
      group: seq<Allocation>, amount: nat)
    requires n >= 1 && w == Quotient(|Units(allocations)|, n)
    requires Going(Split(closed, group, NOTHING), amount, Units(allocations), w, n, |Units(allocations)|)
    ensures |closed| + 1 == if |Units(allocations)| > 0 then n else 1
    ensures IsSplit(allocations, w, closed + [group])
  {
    hide Units, AllUnits, Clean;
    var units, groups := Units(allocations), closed + [group];
    var s := Split(closed, group, NOTHING);
    OpenedIsEmpty(group, NOTHING);
    AllUnitsAppend(closed, group);
    assert units[..|units|] == units;
    assert forall g :: g in groups ==> g == group || exists i :: 0 <= i < |closed| && closed[i] == g;
    EvenTotal(closed, w, |closed|);
    assert closed[..|closed|] == closed;
    FinalCount(|units|, n, w, |closed|, amount);
  }

  lemma FinalCount(total: nat, n: nat, w: nat, k: nat, amount: nat)
    requires n >= 1 && w == total / n && k <= n - 1 && total - amount == Times(k, w)
    requires k < n - 1 ==> amount <= w
    ensures total > 0 ==> k == n - 1
  {
    TimesIsProduct(k, w);
    if total > 0 {
      AllClosed(total, n, w, k, amount);
    }
  }

  /** The groups, one after the other, are the input: no unit is lost, made, given away or reordered. All groups but the
      last have `w` units, and none carries an initial amount. */
  ghost predicate IsSplit(allocations: seq<Allocation>, w: nat, groups: seq<seq<Allocation>>) {
    && |groups| >= 1
    && AllUnits(groups) == Units(allocations)
    && (forall i :: 0 <= i < |groups| - 1 ==> |Units(groups[i])| == w)
    && (forall g :: g in groups ==> Clean(g))
  }

  // ---------------------------------------------------------------------------------------
  // What a split conserves.
  // ---------------------------------------------------------------------------------------

  lemma LastGroup(groups: seq<seq<Allocation>>, w: nat)
    requires groups != [] && forall i :: 0 <= i < |groups| - 1 ==> |Units(groups[i])| == w
    ensures |Units(groups[|groups| - 1])| == |AllUnits(groups)| - Times(|groups| - 1, w)
  {
    var k := |groups| - 1;
    EvenTotal(groups, w, k);
    assert groups == groups[..k] + [groups[k]];
    AllUnitsAppend(groups[..k], groups[k]);
  }

  lemma LastShare(total: nat, n: nat, w: nat)
    requires n >= 1 && w == total / n
    ensures total - Times(n - 1, w) == w + total % n
  {
    DivFloor(total, n);
    TimesIsProduct(n - 1, w);
    assert (n - 1) * w == n * w - w;
  }

  /** Every group but the last weighs exactly the quotient, the last one the quotient and the remainder. */
  lemma SplitWeights(allocations: seq<Allocation>, n: nat, w: nat, groups: seq<seq<Allocation>>, i: nat)
    requires n >= 1 && |groups| == n && i < n && w == |Units(allocations)| / n
    requires IsSplit(allocations, w, groups)
    ensures |Units(groups[i])| == w + if i == n - 1 then |Units(allocations)| % n else 0
  {
    if i == n - 1 {
      LastGroup(groups, w);
      LastShare(|Units(allocations)|, n, w);
    }
  }

  /** The amount an owner has locked until one time. */
  ghost function ScheduleAmount(a: Allocation, s: seq<LockedAmount>, u: Unit): nat {
    if s == [] then 0
    else ScheduleAmount(a, s[..|s| - 1], u) + if UnitOf(a, s[|s| - 1]) == u then s[|s| - 1].amount else 0
  }

  ghost function AmountOf(g: seq<Allocation>, u: Unit): nat {
    if g == [] then 0 else AmountOf(g[..|g| - 1], u) + ScheduleAmount(g[|g| - 1], g[|g| - 1].unlockSchedule, u)
  }

  ghost function AllAmounts(groups: seq<seq<Allocation>>, u: Unit): nat {
    if groups == [] then 0 else AllAmounts(groups[..|groups| - 1], u) + AmountOf(groups[|groups| - 1], u)
  }

  lemma RepeatCount(v: Unit, n: nat, u: Unit)
    ensures multiset(Repeat(v, n))[u] == if u == v then n else 0
  {
    if n > 0 {
      RepeatCount(v, n - 1, u);
      assert Repeat(v, n) == Repeat(v, n - 1) + [v];
    }
  }

  lemma {:induction false} ScheduleCount(a: Allocation, s: seq<LockedAmount>, u: Unit)
    ensures multiset(ScheduleUnits(a, s))[u] == ScheduleAmount(a, s, u)
  {
    if s != [] {
      ScheduleCount(a, s[..|s| - 1], u);
      RepeatCount(UnitOf(a, s[|s| - 1]), s[|s| - 1].amount, u);
    }
  }

  lemma {:induction false} AmountIsCount(g: seq<Allocation>, u: Unit)
    ensures multiset(Units(g))[u] == AmountOf(g, u)
  {
    if g != [] {
      AmountIsCount(g[..|g| - 1], u);
      ScheduleCount(g[|g| - 1], g[|g| - 1].unlockSchedule, u);
    }
  }

  lemma {:induction false} AllAmountsIsCount(groups: seq<seq<Allocation>>, u: Unit)
    ensures multiset(AllUnits(groups))[u] == AllAmounts(groups, u)
  {
    if groups != [] {
      AllAmountsIsCount(groups[..|groups| - 1], u);
      AmountIsCount(groups[|groups| - 1], u);
    }
  }

  /** For every owner and unlock time, the groups together hold what the input held. */
  lemma SplitKeepsAmounts(allocations: seq<Allocation>, w: nat, groups: seq<seq<Allocation>>, u: Unit)
    requires IsSplit(allocations, w, groups)
    ensures AllAmounts(groups, u) == AmountOf(allocations, u)
  {
    AllAmountsIsCount(groups, u);
    AmountIsCount(allocations, u);
  }
}
