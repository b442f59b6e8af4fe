/**
 Building the genesis state from a configuration: where every nAVAX of the initial supply goes.
 */
module GenesisBuild {
  import opened Collections
  import opened Genesis
  import opened Wrappers

  datatype Staker = Staker(nodeID: int)
  /** Times are in seconds; every staker ends its stake the offset earlier than the one before. */
  datatype Config = Config(
    allocations: seq<Allocation>,
    initialStakedFunds: seq<Address>,
    initialStakers: seq<Staker>,
    startTime: nat,
    initialStakeDuration: nat,
    initialStakeDurationOffset: nat)

  datatype Holder = Holder(amount: nat, address: Address)
  datatype Output = Output(locktime: nat, amount: nat, address: Address, message: Address)
  datatype Validator = Validator(staker: Staker, endTime: int, staked: seq<Output>)
  datatype GenesisState = GenesisState(
    fixedCap: seq<Holder>,
    outputs: seq<Output>,
    validators: seq<Validator>,
    initialSupply: nat)

  /** The supply does not fit in 64 bits; the program divides by zero or indexes out of range; a validator has no stake,
      or ends its stake no later than the network starts. */
  datatype Failure = Overflow | Panic | NoWeight | AlreadyExited

  // ---------------------------------------------------------------------------------------
  // The supply.
  // ---------------------------------------------------------------------------------------

  ghost function InitialTotal(g: seq<Allocation>): nat {
    if g == [] then 0 else InitialTotal(g[..|g| - 1]) + g[|g| - 1].initialAmount
  }

  ghost function Supply(g: seq<Allocation>): nat {
    InitialTotal(g) + |Units(g)|
  }

  lemma SupplyAppend(g: seq<Allocation>, a: Allocation)
    ensures Supply(g + [a]) == Supply(g) + a.initialAmount + |AllocationUnits(a)|
  {
    assert (g + [a])[..|g|] == g;
    UnitsAppend(g, a);
  }

  lemma {:induction false} SupplyPrefix(g: seq<Allocation>, i: nat)
    requires i <= |g|
    ensures Supply(g[..i]) <= Supply(g)
    decreases |g| - i
  {
    if i == |g| {
      assert g[..i] == g;
    } else {
      SupplyPrefix(g, i + 1);
      assert g[..i + 1] == g[..i] + [g[i]];
      SupplyAppend(g[..i], g[i]);
    }
  }

  method CheckedAdd(a: nat, b: nat) returns (r: Result<nat, Failure>)
    ensures r.Ok? <==> a + b <= MAX_UINT64
    ensures r.Ok? ==> r.value == a + b
    ensures r.Err? ==> r.error == Overflow
  {
    if a > MAX_UINT64 - b {
      return Err(Overflow);
    }
    return Ok(a + b);
  }

  method AddSchedule(start: nat, a: Allocation) returns (r: Result<nat, Failure>)
    requires start <= MAX_UINT64
    ensures r.Ok? <==> start + |AllocationUnits(a)| <= MAX_UINT64
    ensures r.Ok? ==> r.value == start + |AllocationUnits(a)|
    ensures r.Err? ==> r.error == Overflow
  {
    var s := a.unlockSchedule;
    var sum := start;
    for j := 0 to |s|
      invariant sum == start + |ScheduleUnits(a, s[..j])| <= MAX_UINT64
    {
      assert s[..j + 1] == s[..j] + [s[j]];
      ScheduleUnitsAppend(a, s[..j], s[j]);
      SchedulePrefix(a, s, j + 1);
      var next := CheckedAdd(sum, s[j].amount);
      if next.Err? {
        return next;
      }
      sum := next.value;
    }
    assert s[..|s|] == s;
    return Ok(sum);
  }

  /** The checked sum fails exactly when the supply does not fit. */
  method InitialSupply(g: seq<Allocation>) returns (r: Result<nat, Failure>)
    ensures r.Ok? <==> Supply(g) <= MAX_UINT64
    ensures r.Ok? ==> r.value == Supply(g)
    ensures r.Err? ==> r.error == Overflow
  {
    var supply: nat := 0;
    for i := 0 to |g|
      invariant supply == Supply(g[..i]) <= MAX_UINT64
    {
      assert g[..i + 1] == g[..i] + [g[i]];
      SupplyAppend(g[..i], g[i]);
      SupplyPrefix(g, i + 1);
      var next := CheckedAdd(supply, g[i].initialAmount);
      if next.Err? {
        return next;
      }
      next := AddSchedule(next.value, g[i]);
      if next.Err? {
        return next;
      }
      supply := next.value;
    }
    assert g[..|g|] == g;
    return Ok(supply);
  }

  // ---------------------------------------------------------------------------------------
  // The X-chain: initial balances, sorted.
  // ---------------------------------------------------------------------------------------

  /** The order of allocations: by initial amount, then by address. */
  predicate ByAmount(a: Allocation, b: Allocation) {
    || a.initialAmount < b.initialAmount
    || (a.initialAmount == b.initialAmount && a.avaxAddr.bytes <= b.avaxAddr.bytes)
  }

  ghost function HolderTotal(h: seq<Holder>): nat {
    if h == [] then 0 else HolderTotal(h[..|h| - 1]) + h[|h| - 1].amount
  }

  function HolderOf(a: Allocation): Holder {
    Holder(a.initialAmount, a.avaxAddr)
  }

  function HoldersOf(g: seq<Allocation>): seq<Holder> {
    seq(|g|, i requires 0 <= i < |g| => HolderOf(g[i]))
  }

  /** The allocations with an initial amount. */
  function Positive(g: seq<Allocation>): seq<Allocation> {
    if g == [] then []
    else Positive(g[..|g| - 1]) + if g[|g| - 1].initialAmount > 0 then [g[|g| - 1]] else []
  }

  lemma InitialTotalAppend(g: seq<Allocation>, a: Allocation)
    ensures InitialTotal(g + [a]) == InitialTotal(g) + a.initialAmount
  {
    assert (g + [a])[..|g|] == g;
  }

  lemma {:induction false} InitialTotalCons(a: Allocation, g: seq<Allocation>)
    ensures InitialTotal([a] + g) == a.initialAmount + InitialTotal(g)
  {
    if g == [] {
      assert [a] + g == [] + [a];
      InitialTotalAppend([], a);
    } else {
      var front, last := g[..|g| - 1], g[|g| - 1];
      InitialTotalCons(a, front);
      assert [a] + g == ([a] + front) + [last];
      InitialTotalAppend([a] + front, last);
    }
  }

  lemma {:induction false} PositiveTotal(g: seq<Allocation>)
    ensures InitialTotal(Positive(g)) == InitialTotal(g)
  {
    if g != [] {
      var front, last := g[..|g| - 1], g[|g| - 1];
      PositiveTotal(front);
      if last.initialAmount > 0 {
        InitialTotalAppend(Positive(front), last);
      } else {
        assert Positive(g) == Positive(front);
      }
    }
  }

  lemma HoldersOfCons(a: Allocation, g: seq<Allocation>)
    ensures HoldersOf([a] + g) == [HolderOf(a)] + HoldersOf(g)
  {
  }

  lemma {:induction false} InsertHolder(g: seq<Allocation>, a: Allocation)
    ensures InitialTotal(Insert(g, a, ByAmount)) == InitialTotal(g) + a.initialAmount
    ensures multiset(HoldersOf(Insert(g, a, ByAmount))) == multiset(HoldersOf(g)) + multiset{HolderOf(a)}
  {
    hide InitialTotal, HoldersOf, HolderOf;
    if g == [] || ByAmount(a, g[0]) {
      InitialTotalCons(a, g);
      HoldersOfCons(a, g);
    } else {
      var rest := Insert(g[1..], a, ByAmount);
      InsertHolder(g[1..], a);
      assert g == [g[0]] + g[1..];
      InitialTotalCons(g[0], g[1..]);
      InitialTotalCons(g[0], rest);
      HoldersOfCons(g[0], g[1..]);
      HoldersOfCons(g[0], rest);
    }
  }

  lemma {:induction false} SortedHolders(g: seq<Allocation>)
    ensures InitialTotal(Sort(g, ByAmount)) == InitialTotal(g)
    ensures multiset(HoldersOf(Sort(g, ByAmount))) == multiset(HoldersOf(g))
  {
    hide InitialTotal, HoldersOf, HolderOf;
    if g != [] {
      SortedHolders(g[1..]);
      InsertHolder(Sort(g[1..], ByAmount), g[0]);
      assert g == [g[0]] + g[1..];
      InitialTotalCons(g[0], g[1..]);
      HoldersOfCons(g[0], g[1..]);
    }
  }

  lemma {:induction false} HoldersTotal(g: seq<Allocation>)
    ensures HolderTotal(HoldersOf(g)) == InitialTotal(g)
  {
    if g != [] {
      HoldersTotal(g[..|g| - 1]);
      assert HoldersOf(g)[..|g| - 1] == HoldersOf(g[..|g| - 1]);
    }
  }

  // ---------------------------------------------------------------------------------------
  // Who holds what.
  // ---------------------------------------------------------------------------------------

  /** What the configuration grants an address from the start. */
  ghost function GrantedTo(g: seq<Allocation>, who: Address): nat {
    if g == [] then 0
    else (if g[0].avaxAddr == who then g[0].initialAmount else 0) + GrantedTo(g[1..], who)
  }

  ghost function HeldBy(h: seq<Holder>, who: Address): nat {
    if h == [] then 0 else (if h[0].address == who then h[0].amount else 0) + HeldBy(h[1..], who)
  }

  lemma GrantedCons(a: Allocation, g: seq<Allocation>, who: Address)
    ensures GrantedTo([a] + g, who) == (if a.avaxAddr == who then a.initialAmount else 0) + GrantedTo(g, who)
  {
    assert ([a] + g)[1..] == g;
  }

  lemma {:induction false} GrantedAppend(g: seq<Allocation>, a: Allocation, who: Address)
    ensures GrantedTo(g + [a], who) == GrantedTo(g, who) + if a.avaxAddr == who then a.initialAmount else 0
  {
    if g == [] {
      assert g + [a] == [a] + [];
      GrantedCons(a, [], who);
    } else {
      GrantedAppend(g[1..], a, who);
      assert g + [a] == [g[0]] + (g[1..] + [a]);
      GrantedCons(g[0], g[1..] + [a], who);
    }
  }

  lemma {:induction false} PositiveGranted(g: seq<Allocation>, who: Address)
    ensures GrantedTo(Positive(g), who) == GrantedTo(g, who)
  {
    if g != [] {
      var front, last := g[..|g| - 1], g[|g| - 1];
      PositiveGranted(front, who);
      assert g == front + [last];
      GrantedAppend(front, last, who);
      GrantedAppend(Positive(front), last, who);
      assert Positive(front) + [] == Positive(front);
    }
  }

  lemma {:induction false} InsertGranted(g: seq<Allocation>, a: Allocation, who: Address)
    ensures GrantedTo(Insert(g, a, ByAmount), who) == GrantedTo([a] + g, who)
  {
    hide GrantedTo;
    GrantedCons(a, g, who);
    if g != [] && !ByAmount(a, g[0]) {
      InsertGranted(g[1..], a, who);
      assert g == [g[0]] + g[1..];
      GrantedCons(g[0], g[1..], who);
      GrantedCons(a, g[1..], who);
      GrantedCons(g[0], Insert(g[1..], a, ByAmount), who);
    }
  }

  lemma {:induction false} SortedGranted(g: seq<Allocation>, who: Address)
    ensures GrantedTo(Sort(g, ByAmount), who) == GrantedTo(g, who)
  {
    hide GrantedTo;
    if g != [] {
      SortedGranted(g[1..], who);
      InsertGranted(Sort(g[1..], ByAmount), g[0], who);
      GrantedCons(g[0], Sort(g[1..], ByAmount), who);
      assert g == [g[0]] + g[1..];
      GrantedCons(g[0], g[1..], who);
    }
  }

  lemma {:induction false} HoldersHold(g: seq<Allocation>, who: Address)
    ensures HeldBy(HoldersOf(g), who) == GrantedTo(g, who)
  {
    if g != [] {
      HoldersHold(g[1..], who);
      assert HoldersOf(g)[1..] == HoldersOf(g[1..]);
    }
  }

  /** Every address holds what it was granted. */
  ghost predicate HoldsGrants(holders: seq<Holder>, g: seq<Allocation>) {
    forall who :: HeldBy(holders, who) == GrantedTo(g, who)
  }

  lemma SortedHoldGrants(g: seq<Allocation>)
    ensures HoldsGrants(HoldersOf(Sort(Positive(g), ByAmount)), g)
  {
    hide GrantedTo, HeldBy, HoldersOf, Positive;
    forall who
      ensures HeldBy(HoldersOf(Sort(Positive(g), ByAmount)), who) == GrantedTo(g, who)
    {
      PositiveGranted(g, who);
      SortedGranted(Positive(g), who);
      HoldersHold(Sort(Positive(g), ByAmount), who);
    }
  }

  lemma {:induction false} PositiveIsPositive(g: seq<Allocation>, a: Allocation)
    requires a in Positive(g)
    ensures a.initialAmount > 0
  {
    if a in Positive(g[..|g| - 1]) {
      PositiveIsPositive(g[..|g| - 1], a);
    }
  }

  /** No holder is listed with nothing. */
  ghost predicate NoneEmpty(holders: seq<Holder>) {
    forall h :: h in holders ==> h.amount > 0
  }

  lemma HoldersArePositive(g: seq<Allocation>, x: seq<Allocation>)
    requires multiset(x) == multiset(Positive(g))
    ensures NoneEmpty(HoldersOf(x))
  {
    var holders := HoldersOf(x);
    forall h | h in holders
      ensures h.amount > 0
    {
      var i :| 0 <= i < |holders| && holders[i] == h;
      assert x[i] in multiset(x);
      PositiveIsPositive(g, x[i]);
    }
  }

  method FilterPositive(g: seq<Allocation>) returns (x: seq<Allocation>)
    ensures x == Positive(g)
  {
    x := [];
    for i := 0 to |g|
      invariant x == Positive(g[..i])
    {
      assert g[..i + 1][..i] == g[..i];
      if g[i].initialAmount > 0 {
        x := x + [g[i]];
      }
    }
    assert g[..|g|] == g;
  }

  /** By amount, and by address among equal amounts. */
  ghost predicate Ordered(holders: seq<Holder>) {
    forall i, j :: 0 <= i < j < |holders| ==>
      holders[i].amount < holders[j].amount ||
      (holders[i].amount == holders[j].amount && holders[i].address.bytes <= holders[j].address.bytes)
  }

  lemma SortedIsOrdered(g: seq<Allocation>)
    requires Sorted(g, ByAmount)
    ensures Ordered(HoldersOf(g))
  {
    var holders := HoldersOf(g);
    forall i, j | 0 <= i < j < |holders|
      ensures holders[i].amount < holders[j].amount ||
        (holders[i].amount == holders[j].amount && holders[i].address.bytes <= holders[j].address.bytes)
    {
      assert ByAmount(g[i], g[j]);
    }
  }

  lemma ByAmountIsTotal()
    ensures TotalOrder(ByAmount)
  {
  }

  /** The X-chain holders: every positive initial amount, by amount and address. */
  method FixedCap(g: seq<Allocation>) returns (holders: seq<Holder>)
    ensures multiset(holders) == multiset(HoldersOf(Positive(g)))
    ensures Ordered(holders) && HolderTotal(holders) == InitialTotal(g)
    ensures HoldsGrants(holders, g) && NoneEmpty(holders)
  {
    hide *;
    var x := FilterPositive(g);
    PositiveTotal(g);
    SortedHolders(x);
    ByAmountIsTotal();
    SortSorts(x, ByAmount);
    SortedHoldGrants(g);
    x := Sort(x, ByAmount);
    HoldersArePositive(g, x);
    HoldersTotal(x);
    SortedIsOrdered(x);
    holders := HoldersOf(x);
  }

  // ---------------------------------------------------------------------------------------
  // The P-chain: locked outputs and stake.
  // ---------------------------------------------------------------------------------------

  ghost function OutputUnits(outputs: seq<Output>): seq<Unit> {
    if outputs == [] then []
    else
      var o := outputs[|outputs| - 1];
      OutputUnits(outputs[..|outputs| - 1]) + Repeat(Unit(o.message, o.address, o.locktime), o.amount)
  }

  lemma OutputUnitsAppend(outputs: seq<Output>, o: Output)
    ensures OutputUnits(outputs + [o]) ==
      OutputUnits(outputs) + Repeat(Unit(o.message, o.address, o.locktime), o.amount)
  {
    assert (outputs + [o])[..|outputs|] == outputs;
  }

  function OutputOf(a: Allocation, l: LockedAmount): Output {
    Output(l.locktime, l.amount, a.avaxAddr, a.ethAddr)
  }

  /** The outputs of one allocation, with or without those of amount zero. */
  method AppendOutputs(outputs: seq<Output>, a: Allocation, keepEmpty: bool) returns (r: seq<Output>)
    ensures OutputUnits(r) == OutputUnits(outputs) + AllocationUnits(a)
    ensures !keepEmpty && (forall o :: o in outputs ==> o.amount > 0) ==> forall o :: o in r ==> o.amount > 0
  {
    r := outputs;
    var s := a.unlockSchedule;
    assert OutputUnits(outputs) + ScheduleUnits(a, s[..0]) == OutputUnits(outputs);
    for j := 0 to |s|
      invariant OutputUnits(r) == OutputUnits(outputs) + ScheduleUnits(a, s[..j])
      invariant !keepEmpty && (forall o :: o in outputs ==> o.amount > 0) ==> forall o :: o in r ==> o.amount > 0
    {
      assert s[..j + 1] == s[..j] + [s[j]];
      ScheduleUnitsAppend(a, s[..j], s[j]);
      if keepEmpty || s[j].amount > 0 {
        OutputUnitsAppend(r, OutputOf(a, s[j]));
        r := r + [OutputOf(a, s[j])];
      } else {
        assert Repeat(UnitOf(a, s[j]), 0) == [];
      }
    }
    assert s[..|s|] == s;
  }

  /** `units` is dealt out between `left` and `right`. */
  ghost predicate Parts(left: seq<Unit>, right: seq<Unit>, units: seq<Unit>) {
    multiset(left) + multiset(right) == multiset(units) && |left| + |right| == |units|
  }

  lemma PartsGrow(left: seq<Unit>, right: seq<Unit>, units: seq<Unit>, more: seq<Unit>)
    requires Parts(left, right, units)
    ensures Parts(left + more, right, units + more) && Parts(left, right + more, units + more)
  {
  }

  /** The two sides after `g`: everything, and on the right exactly what is on staked addresses. */
  ghost predicate Divided(left: seq<Unit>, right: seq<Unit>, g: seq<Allocation>, staked: seq<Address>) {
    Parts(left, right, Units(g)) && right == StakedUnits(g, staked)
  }

  lemma DivideOne(left: seq<Unit>, right: seq<Unit>, g: seq<Allocation>, a: Allocation, staked: seq<Address>)
    requires Divided(left, right, g, staked)
    ensures a.avaxAddr in staked ==> Divided(left, right + AllocationUnits(a), g + [a], staked)
    ensures a.avaxAddr !in staked ==> Divided(left + AllocationUnits(a), right, g + [a], staked)
  {
    UnitsAppend(g, a);
    StakedUnitsAppend(g, a, staked);
    PartsGrow(left, right, Units(g), AllocationUnits(a));
  }

  lemma DivideNone(staked: seq<Address>)
    ensures Divided(OutputUnits([]), Units([]), [], staked)
  {
  }

  /** All the units are on these addresses. */
  ghost predicate AllOn(units: seq<Unit>, addresses: seq<Address>) {
    forall u :: u in units ==> u.avaxAddr in addresses
  }

  ghost predicate NoneOn(units: seq<Unit>, addresses: seq<Address>) {
    forall u :: u in units ==> u.avaxAddr !in addresses
  }

  lemma {:induction false} ScheduleIsOn(a: Allocation, s: seq<LockedAmount>, u: Unit)
    requires u in ScheduleUnits(a, s)
    ensures u.avaxAddr == a.avaxAddr
  {
    if u in ScheduleUnits(a, s[..|s| - 1]) {
      ScheduleIsOn(a, s[..|s| - 1], u);
    }
  }

  lemma AllocationIsOn(units: seq<Unit>, a: Allocation, addresses: seq<Address>)
    ensures AllOn(units, addresses) && a.avaxAddr in addresses ==> AllOn(units + AllocationUnits(a), addresses)
    ensures NoneOn(units, addresses) && a.avaxAddr !in addresses ==> NoneOn(units + AllocationUnits(a), addresses)
  {
    forall u | u in AllocationUnits(a)
      ensures u.avaxAddr == a.avaxAddr
    {
      ScheduleIsOn(a, a.unlockSchedule, u);
    }
  }

  lemma NothingIsOn(addresses: seq<Address>)
    ensures AllOn(Units([]), addresses) && NoneOn(OutputUnits([]), addresses)
  {
  }

  /** Locked funds of staked addresses are set aside, all others become outputs; between them they are everything. */
  method Platform(g: seq<Allocation>, staked: seq<Address>) returns (outputs: seq<Output>, skipped: seq<Allocation>)
    ensures Divided(OutputUnits(outputs), Units(skipped), g, staked)
    ensures AllOn(Units(skipped), staked) && NoneOn(OutputUnits(outputs), staked)
    ensures forall o :: o in outputs ==> o.amount > 0
  {
    hide *;
    outputs, skipped := [], [];
    DivideNone(staked);
    NothingIsOn(staked);
    assert g[..0] == [];
    for i := 0 to |g|
      invariant Divided(OutputUnits(outputs), Units(skipped), g[..i], staked)
      invariant AllOn(Units(skipped), staked) && NoneOn(OutputUnits(outputs), staked)
      invariant forall o :: o in outputs ==> o.amount > 0
    {
      assert g[..i + 1] == g[..i] + [g[i]];
      DivideOne(OutputUnits(outputs), Units(skipped), g[..i], g[i], staked);
      if g[i].avaxAddr in staked {
        UnitsAppend(skipped, g[i]);
        AllocationIsOn(Units(skipped), g[i], staked);
        skipped := skipped + [g[i]];
      } else {
        AllocationIsOn(OutputUnits(outputs), g[i], staked);
        outputs := AppendOutputs(outputs, g[i], false);
      }
    }
    assert g[..|g|] == g;
  }

  /** The locked units on staked addresses. */
  ghost function StakedUnits(g: seq<Allocation>, staked: seq<Address>): seq<Unit> {
    if g == [] then []
    else StakedUnits(g[..|g| - 1], staked) + if g[|g| - 1].avaxAddr in staked then AllocationUnits(g[|g| - 1]) else []
  }

  lemma StakedUnitsAppend(g: seq<Allocation>, a: Allocation, staked: seq<Address>)
    ensures StakedUnits(g + [a], staked) ==
      StakedUnits(g, staked) + if a.avaxAddr in staked then AllocationUnits(a) else []
  {
    assert (g + [a])[..|g|] == g;
  }

  ghost function ValidatorUnits(validators: seq<Validator>): seq<Unit> {
    if validators == [] then []
    else ValidatorUnits(validators[..|validators| - 1]) + OutputUnits(validators[|validators| - 1].staked)
  }

  method Stake(group: seq<Allocation>) returns (outputs: seq<Output>)
    ensures OutputUnits(outputs) == Units(group)
  {
    outputs := [];
    for i := 0 to |group|
      invariant OutputUnits(outputs) == Units(group[..i])
    {
      assert group[..i + 1] == group[..i] + [group[i]];
      UnitsAppend(group[..i], group[i]);
      outputs := AppendOutputs(outputs, group[i], true);
    }
    assert group[..|group|] == group;
  }

  lemma ValidatorUnitsAppend(validators: seq<Validator>, v: Validator)
    ensures ValidatorUnits(validators + [v]) == ValidatorUnits(validators) + OutputUnits(v.staked)
  {
    assert (validators + [v])[..|validators|] == validators;
  }

  /** One validator per staker, each staking its own group. */
  ghost predicate Stakes(validators: seq<Validator>, stakers: seq<Staker>, groups: seq<seq<Allocation>>) {
    && |validators| <= |stakers| && |validators| <= |groups|
    && forall i {:trigger validators[i]} :: 0 <= i < |validators| ==>
         validators[i].staker == stakers[i] && OutputUnits(validators[i].staked) == Units(groups[i])
  }

  lemma StakesAppend(validators: seq<Validator>, stakers: seq<Staker>, groups: seq<seq<Allocation>>, v: Validator)
    requires Stakes(validators, stakers, groups) && |validators| < |stakers| && |validators| < |groups|
    requires v.staker == stakers[|validators|] && OutputUnits(v.staked) == Units(groups[|validators|])
    ensures Stakes(validators + [v], stakers, groups)
  {
    var next := validators + [v];
    forall i | 0 <= i < |next|
      ensures next[i].staker == stakers[i] && OutputUnits(next[i].staked) == Units(groups[i])
    {
      if i < |validators| {
        assert next[i] == validators[i];
      }
    }
  }

  lemma PrefixExtends(groups: seq<seq<Allocation>>, i: nat)
    requires i < |groups|
    ensures AllUnits(groups[..i + 1]) == AllUnits(groups[..i]) + Units(groups[i])
  {
    assert groups[..i + 1] == groups[..i] + [groups[i]];
    AllUnitsAppend(groups[..i], groups[i]);
  }

  /** The end of the stake of the staker at index i. */
  ghost function EndTime(config: Config, i: nat): int {
    config.startTime + config.initialStakeDuration - Times(i, config.initialStakeDurationOffset)
  }

  /** The stake of every validator ends when the configuration says. */
  ghost predicate Ends(validators: seq<Validator>, config: Config) {
    forall i :: 0 <= i < |validators| ==> validators[i].endTime == EndTime(config, i)
  }

  /** The validators built so far: their stakers, groups and ends. */
  ghost predicate Built(validators: seq<Validator>, groups: seq<seq<Allocation>>, config: Config) {
    && Stakes(validators, config.initialStakers, groups)
    && ValidatorUnits(validators) == AllUnits(groups[..|validators|])
    && Ends(validators, config)
  }

  lemma BuildNone(groups: seq<seq<Allocation>>, config: Config)
    ensures Built([], groups, config) && Times(0, config.initialStakeDurationOffset) == 0
  {
  }

  lemma BuildOne(validators: seq<Validator>, groups: seq<seq<Allocation>>, config: Config, v: Validator, offset: nat)
    requires Built(validators, groups, config) && offset == Times(|validators|, config.initialStakeDurationOffset)
    requires |validators| < |config.initialStakers| && |validators| < |groups|
    requires v.staker == config.initialStakers[|validators|]
    requires v.endTime == config.startTime + config.initialStakeDuration - offset
    requires OutputUnits(v.staked) == Units(groups[|validators|])
    ensures Built(validators + [v], groups, config)
    ensures Times(|validators| + 1, config.initialStakeDurationOffset) == offset + config.initialStakeDurationOffset
  {
    hide ScheduleUnits, Units, OutputUnits, Stakes, ValidatorUnits, AllUnits;
    StakesAppend(validators, config.initialStakers, groups, v);
    ValidatorUnitsAppend(validators, v);
    PrefixExtends(groups, |validators|);
  }

  /** Every group was used. */
  lemma AllBuilt(validators: seq<Validator>, groups: seq<seq<Allocation>>, config: Config)
    requires Built(validators, groups, config) && |validators| == |config.initialStakers|
    requires |groups| == |config.initialStakers| || |groups| == 1
    requires |config.initialStakers| >= 1
    ensures |groups| == |validators| && ValidatorUnits(validators) == AllUnits(groups)
    ensures Stakes(validators, config.initialStakers, groups) && Ends(validators, config)
  {
    assert groups[..|groups|] == groups;
  }

  /** The program panics where there are fewer groups than stakers. */
  method Validators(groups: seq<seq<Allocation>>, config: Config) returns (r: Result<seq<Validator>, Failure>)
    requires |groups| == |config.initialStakers| || |groups| == 1
    requires |config.initialStakers| >= 1
    ensures r.Ok? <==> |groups| == |config.initialStakers|
    ensures r.Ok? ==> |r.value| == |config.initialStakers| && ValidatorUnits(r.value) == AllUnits(groups)
    ensures r.Ok? ==> Stakes(r.value, config.initialStakers, groups) && Ends(r.value, config)
    ensures r.Err? ==> r.error == Panic
  {
    hide *;
    var stakers := config.initialStakers;
    var validators: seq<Validator> := [];
    var endStakingTime := config.startTime + config.initialStakeDuration;
    var stakingOffset := 0;
    BuildNone(groups, config);
    for i := 0 to |stakers|
      invariant |validators| == i <= |groups| && Built(validators, groups, config)
      invariant stakingOffset == Times(i, config.initialStakeDurationOffset)
    {
      if i >= |groups| {
        return Err(Panic);
      }
      var staked := Stake(groups[i]);
      var v := Validator(stakers[i], endStakingTime - stakingOffset, staked);
      BuildOne(validators, groups, config, v, stakingOffset);
      stakingOffset := stakingOffset + config.initialStakeDurationOffset;
      validators := validators + [v];
    }
    AllBuilt(validators, groups, config);
    return Ok(validators);
  }

  /** Divides the stake between the stakers; the program panics where nothing is locked and there are several. */
  method BuildValidators(skipped: seq<Allocation>, config: Config) returns (r: Result<seq<Validator>, Failure>)
    requires 1 <= |config.initialStakers|
    ensures r.Ok? <==> |config.initialStakers| == 1 || |Units(skipped)| > 0
    ensures r.Ok? ==> |r.value| == |config.initialStakers| && ValidatorUnits(r.value) == Units(skipped)
    ensures r.Ok? ==> Shares(r.value, |Units(skipped)|) && Ends(r.value, config)
    ensures r.Ok? ==> forall i :: 0 <= i < |r.value| ==> r.value[i].staker == config.initialStakers[i]
    ensures r.Err? ==> r.error == Panic
  {
    var n := |config.initialStakers|;
    ghost var w := |Units(skipped)| / n;
    var groups := SplitAllocations(skipped, n);
    r := Validators(groups, config);
    if r.Ok? {
      EqualShares(skipped, config.initialStakers, n, w, groups, r.value);
    }
  }

  /** The units a validator stakes, added up output by output. */
  method Weigh(staked: seq<Output>) returns (weight: nat)
    ensures weight == |OutputUnits(staked)|
  {
    weight := 0;
    for i := 0 to |staked|
      invariant weight == |OutputUnits(staked[..i])|
    {
      assert staked[..i + 1] == staked[..i] + [staked[i]];
      OutputUnitsAppend(staked[..i], staked[i]);
      weight := weight + staked[i].amount;
    }
    assert staked[..|staked|] == staked;
  }

  ghost predicate HasWeight(v: Validator) {
    |OutputUnits(v.staked)| > 0
  }

  ghost predicate SomeExited(validators: seq<Validator>, startTime: int) {
    exists i :: 0 <= i < |validators| && validators[i].endTime <= startTime
  }

  /** The checks on the validators; the first that fails decides. */
  method CheckValidators(validators: seq<Validator>, startTime: int) returns (failure: Option<Failure>)
    ensures failure.None? <==>
      forall i :: 0 <= i < |validators| ==> HasWeight(validators[i]) && validators[i].endTime > startTime
    ensures failure == Some(NoWeight) ==> exists i :: 0 <= i < |validators| && !HasWeight(validators[i])
    ensures failure == Some(AlreadyExited) ==>
      |validators| > 0 && HasWeight(validators[0]) && SomeExited(validators, startTime)
    ensures failure.Some? ==> failure.value == NoWeight || failure.value == AlreadyExited
  {
    for i := 0 to |validators|
      invariant forall j :: 0 <= j < i ==> HasWeight(validators[j]) && validators[j].endTime > startTime
    {
      var weight := Weigh(validators[i].staked);
      if weight == 0 {
        return Some(NoWeight);
      }
      if validators[i].endTime <= startTime {
        return Some(AlreadyExited);
      }
    }
    return None;
  }

  /** There are stakers, no more than units to stake. */
  ghost predicate Stakable(config: Config) {
    1 <= |config.initialStakers| <= |StakedUnits(config.allocations, config.initialStakedFunds)|
  }

  /** No staker to divide by, or several stakers and nothing to divide. */
  ghost predicate Panics(config: Config) {
    || |config.initialStakers| == 0
    || (|config.initialStakers| > 1 && |StakedUnits(config.allocations, config.initialStakedFunds)| == 0)
  }

  /** Even the last staker ends its stake after the start. */
  ghost predicate Lasting(config: Config) {
    |config.initialStakers| == 0 || EndTime(config, |config.initialStakers| - 1) > config.startTime
  }

  /** Every validator has stake exactly when there are as many units as validators. */
  lemma WeightsIff(validators: seq<Validator>, total: nat)
    requires |validators| >= 1 && Shares(validators, total)
    ensures (forall i :: 0 <= i < |validators| ==> HasWeight(validators[i])) <==> |validators| <= total
    ensures HasWeight(validators[0]) <==> |validators| <= total
  {
    var n := |validators|;
    ShareIsPositive(total, n);
    forall i | 0 <= i < n
      ensures |OutputUnits(validators[i].staked)| == Share(total, n, i)
    {
    }
  }

  lemma ShareIsPositive(total: nat, n: nat)
    requires n >= 1
    ensures n <= total ==> forall i :: 0 <= i < n ==> Share(total, n, i) > 0
    ensures n > total ==> Share(total, n, 0) == if n == 1 then total else 0
  {
    DivFloor(total, n);
    if n <= total {
      QuotientIsPositive(total, n);
    } else {
      QuotientIsZero(total, n);
    }
  }

  lemma QuotientIsPositive(total: nat, n: nat)
    requires 1 <= n <= total
    ensures total / n >= 1
  {
  }

  lemma QuotientIsZero(total: nat, n: nat)
    requires total < n
    ensures total / n == 0 && total % n == total
  {
  }

  lemma {:induction false} TimesGrows(i: nat, j: nat, w: nat)
    requires i <= j
    ensures Times(i, w) <= Times(j, w)
  {
    if i < j {
      TimesGrows(i, j - 1, w);
    }
  }

  lemma EndsIff(validators: seq<Validator>, config: Config)
    requires |validators| == |config.initialStakers| && Ends(validators, config)
    ensures (forall i :: 0 <= i < |validators| ==> validators[i].endTime > config.startTime) <==> Lasting(config)
  {
    forall i | 0 <= i < |validators|
      ensures EndTime(config, |validators| - 1) <= validators[i].endTime
    {
      TimesGrows(i, |validators| - 1, config.initialStakeDurationOffset);
    }
  }

  /**
   The genesis state accounts for exactly the initial supply: initial balances on the X-chain, and for every owner
   and unlock time the locked outputs and the stake on the P-chain together hold what the configuration locks.
   It is built exactly when the supply fits in 64 bits, there are stakers but no more than units locked on the staked
   addresses, and the last staker ends its stake after the start.
   */
  method FromConfig(config: Config) returns (r: Result<GenesisState, Failure>)
    ensures r.Ok? <==> Supply(config.allocations) <= MAX_UINT64 && Stakable(config) && Lasting(config)
    ensures r == Err(Overflow) <==> Supply(config.allocations) > MAX_UINT64
    ensures r == Err(AlreadyExited) <==>
      Supply(config.allocations) <= MAX_UINT64 && Stakable(config) && !Lasting(config)
    ensures r == Err(Panic) <==> Supply(config.allocations) <= MAX_UINT64 && Panics(config)
    ensures r.Ok? ==> Conserves(config, r.value) && EqualStake(config, r.value)
    ensures r.Ok? ==> Assigns(config, r.value) && Separates(config, r.value)
    ensures Validated(config) ==> (r.Ok? <==> StakedEnough(config) && EndsLate(config))
  {
    hide StakedUnits, Units, OutputUnits, ValidatorUnits, InitialTotal, HolderTotal, Ends, Shares, Lasting, EndTime,
      Validated, StakedEnough, EndsLate, HoldsGrants, NoneEmpty, Ordered, AllOn, NoneOn;
    if Validated(config) {
      ValidatedIsBuiltIff(config);
    }
    var fixedCap := FixedCap(config.allocations);
    var supply := InitialSupply(config.allocations);
    if supply.Err? {
      return Err(supply.error);
    }
    var outputs, skipped := Platform(config.allocations, config.initialStakedFunds);
    if |config.initialStakers| == 0 {
      return Err(Panic);
    }
    var validators := BuildValidators(skipped, config);
    if validators.Err? {
      return Err(validators.error);
    }
    WeightsIff(validators.value, |Units(skipped)|);
    EndsIff(validators.value, config);
    var failure := CheckValidators(validators.value, config.startTime);
    if failure.Some? {
      return Err(failure.value);
    }
    r := Ok(GenesisState(fixedCap, outputs, validators.value, supply.value));
    EndsAreOffsets(config, validators.value);
    Accounted(config, r.value, Units(skipped));
  }

  /** Every staker is the validator at its place, until the end of the stake less its place times the offset. */
  ghost predicate Assigns(config: Config, state: GenesisState) {
    && |state.validators| == |config.initialStakers|
    && forall i :: 0 <= i < |state.validators| ==>
         && state.validators[i].staker == config.initialStakers[i]
         && state.validators[i].endTime ==
              config.startTime + config.initialStakeDuration - i * config.initialStakeDurationOffset
  }

  lemma EndsAreOffsets(config: Config, validators: seq<Validator>)
    requires Ends(validators, config)
    ensures forall i :: 0 <= i < |validators| ==>
      validators[i].endTime == config.startTime + config.initialStakeDuration - i * config.initialStakeDurationOffset
  {
    forall i | 0 <= i < |validators| {
      TimesIsProduct(i, config.initialStakeDurationOffset);
    }
  }

  /**
   Every address holds on the X-chain what it was granted; funds locked on the staked addresses are staked, and only
   they; all others are in outputs, none of which is empty.
   */
  ghost predicate Separates(config: Config, state: GenesisState) {
    && HoldsGrants(state.fixedCap, config.allocations) && NoneEmpty(state.fixedCap) && Ordered(state.fixedCap)
    && AllOn(ValidatorUnits(state.validators), config.initialStakedFunds)
    && NoneOn(OutputUnits(state.outputs), config.initialStakedFunds)
    && (forall o :: o in state.outputs ==> o.amount > 0)
  }

  lemma Accounted(config: Config, state: GenesisState, stake: seq<Unit>)
    requires |state.validators| == |config.initialStakers|
    requires HolderTotal(state.fixedCap) == InitialTotal(config.allocations)
    requires state.initialSupply == Supply(config.allocations)
    requires Divided(OutputUnits(state.outputs), stake, config.allocations, config.initialStakedFunds)
    requires ValidatorUnits(state.validators) == stake && Shares(state.validators, |stake|)
    ensures Conserves(config, state) && EqualStake(config, state)
  {
  }

  lemma EqualShares(skipped: seq<Allocation>, stakers: seq<Staker>, n: nat, w: nat, groups: seq<seq<Allocation>>,
      validators: seq<Validator>)
    requires n >= 1 && |groups| == n == |validators| && w == |Units(skipped)| / n
    requires IsSplit(skipped, w, groups) && Stakes(validators, stakers, groups)
    ensures Shares(validators, |Units(skipped)|)
  {
    forall i | 0 <= i < n
      ensures |OutputUnits(validators[i].staked)| == Share(|Units(skipped)|, n, i)
    {
      SplitWeights(skipped, n, w, groups, i);
    }
  }

  function Share(total: nat, n: nat, i: nat): nat
    requires n >= 1
  {
    total / n + if i == n - 1 then total % n else 0
  }

  /** Every validator stakes the same, but the last one also what does not divide. */
  ghost predicate Shares(validators: seq<Validator>, total: nat) {
    forall i :: 0 <= i < |validators| ==> |OutputUnits(validators[i].staked)| == Share(total, |validators|, i)
  }

  ghost predicate EqualStake(config: Config, state: GenesisState) {
    && |state.validators| == |config.initialStakers|
    && Shares(state.validators, |StakedUnits(config.allocations, config.initialStakedFunds)|)
  }

  ghost predicate Conserves(config: Config, state: GenesisState) {
    && |state.validators| == |config.initialStakers|
    && HolderTotal(state.fixedCap) == InitialTotal(config.allocations)
    && ValidatorUnits(state.validators) == StakedUnits(config.allocations, config.initialStakedFunds)
    && multiset(OutputUnits(state.outputs)) + multiset(ValidatorUnits(state.validators)) ==
         multiset(Units(config.allocations))
    && HolderTotal(state.fixedCap) + |OutputUnits(state.outputs)| + |ValidatorUnits(state.validators)| ==
         state.initialSupply
    && state.initialSupply == Supply(config.allocations)
  }

  // ---------------------------------------------------------------------------------------
  // What validation promises.
  // ---------------------------------------------------------------------------------------

  /** The checks of a configuration on its funds and stakers. */
  ghost predicate Validated(config: Config) {
    && 0 < Supply(config.allocations) <= MAX_UINT64
    && |config.initialStakers| >= 1
    && config.initialStakedFunds != []
    && Distinct(config.initialStakedFunds)
    && (forall f :: f in config.initialStakedFunds ==> exists a :: a in config.allocations && a.avaxAddr == f)
    && |Units(config.allocations)| >= |config.initialStakers|
    && config.initialStakeDuration > 0
    && Times(|config.initialStakers| - 1, config.initialStakeDurationOffset) <= config.initialStakeDuration
  }

  /** What a validated configuration may still lack: stake for every staker, and a last staker that ends late enough. */
  lemma ValidatedIsBuiltIff(config: Config)
    requires Validated(config)
    ensures Supply(config.allocations) <= MAX_UINT64 && Stakable(config) && Lasting(config) <==>
      StakedEnough(config) && EndsLate(config)
  {
  }

  ghost predicate StakedEnough(config: Config) {
    |config.initialStakers| <= |StakedUnits(config.allocations, config.initialStakedFunds)|
  }

  /** The offsets do not use up the whole duration. */
  ghost predicate EndsLate(config: Config) {
    |config.initialStakers| >= 1 ==>
      Times(|config.initialStakers| - 1, config.initialStakeDurationOffset) != config.initialStakeDuration
  }

  /** Two allocations, one of them staked, with the given amounts locked. */
  ghost function Sample(unstaked: nat, staked: nat, stakers: seq<Staker>, duration: nat, offset: nat): Config {
    var a := Allocation(Address(1), Address(1), 0, [LockedAmount(unstaked, 0)]);
    var b := Allocation(Address(2), Address(2), 1, [LockedAmount(staked, 0)]);
    Config([a, b], [Address(2)], stakers, 0, duration, offset)
  }

  lemma SampleUnits(unstaked: nat, staked: nat, stakers: seq<Staker>, duration: nat, offset: nat)
    ensures var c := Sample(unstaked, staked, stakers, duration, offset);
      && |Units(c.allocations)| == unstaked + staked && Supply(c.allocations) == unstaked + staked + 1
      && |StakedUnits(c.allocations, c.initialStakedFunds)| == staked
  {
    var c := Sample(unstaked, staked, stakers, duration, offset);
    var a, b := c.allocations[0], c.allocations[1];
    UnitsAppend([], a);
    UnitsAppend([a], b);
    assert [] + [a] == [a] && [a] + [b] == c.allocations;
    ScheduleUnitsAppend(a, [], a.unlockSchedule[0]);
    ScheduleUnitsAppend(b, [], b.unlockSchedule[0]);
    assert [] + [a.unlockSchedule[0]] == a.unlockSchedule && [] + [b.unlockSchedule[0]] == b.unlockSchedule;
    SupplyAppend([], a);
    SupplyAppend([a], b);
    StakedUnitsAppend([], a, c.initialStakedFunds);
    StakedUnitsAppend([a], b, c.initialStakedFunds);
  }

  /**
   Validation compares the number of stakers with what is locked on all addresses, not on the staked ones: these
   configurations pass, yet cannot be built, for want of groups, of stake for one of three, and of any stake for one.
   */
  lemma ValidatedWithoutStake() returns (none: Config, few: Config, one: Config)
    ensures Validated(none) && |none.initialStakers| == 2 && !Stakable(none)
    ensures |StakedUnits(none.allocations, none.initialStakedFunds)| == 0
    ensures Validated(few) && |few.initialStakers| == 3 && !Stakable(few)
    ensures |StakedUnits(few.allocations, few.initialStakedFunds)| == 2
    ensures Validated(one) && |one.initialStakers| == 1 && !Stakable(one)
  {
    none := Sample(2, 0, [Staker(1), Staker(2)], 1, 0);
    few := Sample(2, 2, [Staker(1), Staker(2), Staker(3)], 1, 0);
    one := Sample(2, 0, [Staker(1)], 1, 0);
    SampleUnits(2, 0, none.initialStakers, 1, 0);
    SampleUnits(2, 2, few.initialStakers, 1, 0);
    SampleUnits(2, 0, one.initialStakers, 1, 0);
    assert forall c :: c in [none, few, one] ==>
      c.allocations[1] in c.allocations && c.allocations[1].avaxAddr == Address(2);
    assert Times(1, 0) == 0 && Times(2, 0) == 0;
  }

  /** Validation lets the offsets use up the whole duration; then the last validator ends with the start. */
  lemma ValidatedButExited() returns (config: Config)
    ensures Validated(config) && Stakable(config) && !Lasting(config)
  {
    config := Sample(0, 2, [Staker(1), Staker(2)], 1, 1);
    SampleUnits(0, 2, config.initialStakers, 1, 1);
    assert config.allocations[1] in config.allocations;
    assert Times(1, 1) == 1;
  }
}
