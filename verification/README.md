# Verified models of avalanchego's stateful cores

This project models parts of the avalanchego node in Dafny 4.11 and proves what they keep over whole runs:

- the peer IP tracker and the connection life cycle of the network layer, composed with each other;
- how the genesis supply is divided between chains and validators;
- the lock protocol of shared memory and the gate of the mutable HTTP handlers, over every interleaving;
- the Simplex block tracker, block storage, inner block tree, canonical codecs and quorum certificates;
- derived state that has to agree with a simple definition: health gauges, the acceptance index and its completeness
  marks, API route aliases, bit ranges of IDs, the sized LRU cache, prefix clearing and the byte buffer pool.

Where the program changes state in place, the model is a class whose methods are proved against pure transition
functions (`Value() == Step(old(Value()), ...)`). What the program promises is then proved of those functions, as
invariants and as lemmas over every run that say what the state is in terms of what happened, without naming the
functions. Interleavings are runs of atomic steps, one step per critical section.

Clocks, randomness, hashing, signatures, the VM, database faults and context cancellation are parameters of the
operations. Integers are unbounded; where a width matters (`MAX_UINT64`, varint limits, the buckets of the buffer pool)
it is written out.

Properties that turn out not to hold in general are stated with the exact condition under which they do:

- `HealthModel.RegisterKeepsExactIff`: a registration keeps every gauge exact if and only if a plain check has distinct
  tags, and an application check brings no new tag while another application check is failing. Over whole runs this is
  `HealthModel.ExactThroughoutIff`. `HealthModel.NewTagMissesApplications` and `HealthModel.RepeatedTagBreaks` give
  gauges that are too low and too high.
- `GenesisBuild.FromConfig`: building the genesis succeeds if and only if the supply fits in 64 bits, there is a staker,
  the staked addresses have at least one unit locked per staker, and the last staker ends after the start. Validation
  compares the stakers with the locked total of all addresses instead, and lets the last staker end at the start:
  `GenesisBuild.ValidatedWithoutStake` and `GenesisBuild.ValidatedButExited` give configurations that pass validation
  and cannot be built. What validation leaves open is exactly the stake and the duration.
- `SimplexStorageModel.RestartNeedsHeader`: a restart recovers the last indexed digest if and only if the stored
  finalization carries the block's own metadata; `Index` itself compares digests only.
  `SimplexStorageModel.OtherHeaderLosesTip` gives a run.
- `QuorumCertificates.AggregateVerifiesIff`: for votes that are all valid, aggregating succeeds, and the certificate
  verifies if and only if the first quorum of votes is by distinct members. The scheme is asked for one thing only, that
  the aggregate of these signatures verifies under the aggregate of their keys.
  `QuorumCertificates.RepeatedVoteAggregates` gives a certificate that verifies for no message.
- `QuorumCertificates.DeserializeSerialize`: a certificate survives serialization with its signer set if and only if all
  its signers are listed.
- `RouterReach.ForceAddSucceedsIff`: adding a route succeeds if and only if every base the aliases lead to lacks the
  endpoint and is led to in one way only.
- `RouterAlias.AddAliasConsistentIff`: adding aliases, even when it reports an error, leaves aliases serving what their
  base serves if and only if no base they lead to has an endpoint of the base under another handler.
  `RouterAlias.AliasMayClash` gives a router that is left inconsistent; `RouterAlias.AddAliasSucceedsIff` says when no
  error is reported.
- `IPTrackerRuns.FilterHoldsNewestIPs`: the bloom filter holds the newest IPs throughout a run if and only if no event
  misses, that is, records an IP that the filter lacks for a node within its quota while a full filter cannot be
  replaced. That no node adds more than two IPs holds in every run (`IPTrackerRuns.CountsStayWithinQuota`).
- `Indexer.CleanIff`: closing the indexer deregisters all its acceptors if and only if no index failed after its acceptor
  was registered.

The comment on `lastAcceptedIndex` in `indexer/index.go` says it returns 0 when nothing was accepted; the code returns
the largest 64-bit number with a false flag. The model has no index in that case. The comment above `GetContainerRange`
allows a count of zero; the code refuses it, and so does the model.

## Model

| member | source | states |
|---|---|---|
| `IPTrackerModel.SetIPSetsOneEntry` | network/ip_tracker.go:139-148 | setting a node's gossip slot changes that slot only and keeps slice and index map mutual inverses |
| `IPTrackerModel.RemoveIPRemovesOneEntry` | network/ip_tracker.go:150-169 | swap-remove empties exactly the node's slot and keeps slice and index map mutual inverses |
| `IPTrackerModel.IndexedIsDistinct` | network/ip_tracker.go:110-137 | a slice that its index map inverts holds every node once |
| `IPTrackerModel.AddIPPreservesInv` | network/ip_tracker.go:317-330 | a claimed IP keeps: slot present iff gossipable, connected and syncing, and equal to the newest tracked IP; gossipable iff validated |
| `IPTrackerModel.ConnectedPreservesInv` | network/ip_tracker.go:350-363 | a connection of a node not connected before keeps the invariant |
| `IPTrackerModel.DisconnectedPreservesInv` | network/ip_tracker.go:399-414 | a disconnection keeps the invariant |
| `IPTrackerModel.ValidatorAddedPreservesInv` | network/ip_tracker.go:416-483 | adding a validator keeps the invariant |
| `IPTrackerModel.ValidatorRemovedPreservesInv` | network/ip_tracker.go:487-528 | removing a validator, which may delete the subnet and the node, keeps the invariant |
| `IPTrackerModel.ManuallyTrackPreservesInv` | network/ip_tracker.go:246-251 | manual tracking keeps the invariant |
| `IPTrackerModel.ManuallyGossipPreservesInv` | network/ip_tracker.go:258-268 | manual gossiping, two trackings and an enrolment, keeps the invariant |
| `IPBloomModel.RebuiltIsCurrent` | network/ip_tracker.go:583-615 | a rebuilt filter holds the newest IP of every tracked node that may still add one, and no count exceeds 2 |
| `IPBloomModel.RecordIsCurrent` | network/ip_tracker.go:530-559 | recording an IP keeps the filter current exactly when no needed replacement fails, or it has the IP anyway, or the node's quota is used up |
| `IPTrackerRuns.StepPreservesInv` | network/ip_tracker.go:246-528 | every event keeps the tracker invariant |
| `IPTrackerRuns.ReasonsFollowHistory` | network/ip_tracker.go:258-268 | after any history, a node is a validator or manually gossiped in a subnet exactly as the history says |
| `IPTrackerRuns.GossipFollowsHistory` | network/ip_tracker.go:317-528 | after any history, a node has a slot on a subnet exactly when the history made it gossipable there and its open session syncs the subnet |
| `IPTrackerRuns.WantsConnectionFollowsHistory` | network/ip_tracker.go:275-281 | a connection is wanted exactly when the operator asked for the node, or it may be gossiped on the primary network, on a tracked subnet, or on any subnet where all validators are connected to |
| `IPTrackerRuns.TrackedFollowsHistory` | network/ip_tracker.go:425-454 | whether a node is tracked, from the history alone |
| `IPTrackerRuns.StepKeepsNewest` | network/ip_tracker.go:365-388 | while a node stays tracked, a claim or handshake of it becomes its IP exactly if it is the first or has a greater timestamp, and nothing else changes its IP |
| `IPTrackerRuns.TimestampsNeverDecrease` | network/ip_tracker.go:365-388 | between any two points at which a node is tracked throughout, its recorded timestamp does not decrease |
| `IPTrackerRuns.StepRecords` | network/ip_tracker.go:530-559 | an event changes the known IP of one node at most, the one it records |
| `IPTrackerRuns.CountsStayWithinQuota` | network/ip_tracker.go:530-559 | after any history, whatever resets failed, no node added more than two IPs since the filter was built |
| `IPTrackerRuns.StepKeepsCurrentIff` | network/ip_tracker.go:530-615 | an event keeps a current filter current exactly if it does not record an IP that a full filter lacks and cannot be replaced to hold, for a node within its quota |
| `IPTrackerRuns.FilterStaysCurrent` | network/ip_tracker.go:530-615 | from any point of a history where the filter holds the newest IPs, it does until the first such miss |
| `IPTrackerRuns.FilterHoldsNewestIPs` | network/ip_tracker.go:530-615 | throughout a history every tracked node with a known IP and a count below 2 has that IP in the filter, exactly if no event misses |
| `IPTrackerRuns.ReplacementIsCurrent` | network/ip_tracker.go:564-615 | replacing the filter makes up for every earlier miss |
| `IPTrackerNewest.KnownIPIsNewestHeard` | network/ip_tracker.go:365-388 | after any history, the IP known of a tracked node is one heard from it since it became tracked, the one of its connection at that moment included; none heard since has a greater timestamp, of equal ones the first stays, and none is known only if none was heard |
| `IPTrackerNewest.FirstNewestIsUnique` | network/ip_tracker.go:365-388 | there is one such IP at most |
| `IPTrackerNewest.GossipsNewestHeard` | network/ip_tracker.go:390-397 | after any history, the IP gossiped of a node is the newest heard from it |
| `IPTrackerNewest.LiveIPFollowsHistory` | network/ip_tracker.go:350-357 | a connected node is known to be connected with the IP of its last handshake |
| `IPTrackerNewest.CountsAreGrowths` | network/ip_tracker.go:530-559 | after any history, the count of a node is how often the filter grew by one of its IPs since it was built, which itself counts as one |
| `IPTrackerNewest.FilterHoldsOnlyKnown` | network/ip_tracker.go:530-615 | after any history, every position of the filter is one of an IP that was known while the filter had its present salt |
| `IPTrackerNewest.RenewedSalt` | network/ip_tracker.go:583-615 | the salt is the one drawn at the last replacement of the filter |
| `IPTracker.Tracker.New` | network/ip_tracker.go:43-84 | there is a tracker exactly when its gauges are registered and its first filter can be built; it is the empty tracker of the model, with exact gauges |
| `IPTracker.GossipableSubnet.SetGossipableIP` | network/ip_tracker.go:139-148 | refines SetIP and counts a new slot |
| `IPTracker.GossipableSubnet.RemoveGossipableIP` | network/ip_tracker.go:150-169 | refines the swap-remove and counts the slot out |
| `IPTracker.GossipableSubnet.GetGossipableIPs` | network/ip_tracker.go:174-202 | adds wanted IPs of nodes not listed yet, at most the maximum; if there is room left, all wanted ones are listed |
| `IPTracker.Tracker.AddIP` | network/ip_tracker.go:317-330 | refines the Claim event; a tracked node afterwards has an IP no older than the claimed one; true exactly when the IP was the first or newer and the node is wanted |
| `IPTracker.Tracker.Connected` | network/ip_tracker.go:350-363 | refines the Connect event and keeps the gauges exact; a tracked node afterwards has an IP no older than that of the handshake |
| `IPTracker.Tracker.Disconnected` | network/ip_tracker.go:399-414 | refines the Disconnect event and keeps the gauges exact |
| `IPTracker.Tracker.ManuallyTrack` | network/ip_tracker.go:246-251 | refines the Track event and keeps the gauges exact |
| `IPTracker.Tracker.ManuallyGossip` | network/ip_tracker.go:258-268 | refines the Announce event and keeps the gauges exact |
| `IPTracker.Tracker.OnValidatorAdded` | network/ip_tracker.go:416-422 | refines the Added event and keeps the gauges exact |
| `IPTracker.Tracker.AddTrackableID` | network/ip_tracker.go:425-454 | refines tracking, and records the IP of a node that is already connected |
| `IPTracker.Tracker.AddGossipableID` | network/ip_tracker.go:456-483 | refines enrolment in a subnet, which is created if it is new |
| `IPTracker.Tracker.OnValidatorRemoved` | network/ip_tracker.go:487-528 | refines the Removed event and keeps the gauges exact |
| `IPTracker.Tracker.UpdateMostRecentTrackedIP` | network/ip_tracker.go:530-559 | refines recording an IP: the node's IP, the filter and its counts |
| `IPTracker.Tracker.ResetBloom` | network/ip_tracker.go:564-615 | refines the Rebuild event; fails exactly when there is no entropy |
| `IPTracker.Tracker.GetGossipableIPs` | network/ip_tracker.go:617-657 | newest known IPs of distinct connected nodes that validate or were announced on an allowed subnet they sync, none of them unwanted, at most the maximum; if fewer, all of these |
| `IPTracker.Tracker.WantsConnection` | network/ip_tracker.go:275-281 | whether the model's tracker wants a connection to the node |
| `IPTracker.Tracker.GetIP` | network/ip_tracker.go:337-346 | the newest known IP, and whether a connection is wanted and the IP known |
| `IPTracker.Tracker.ShouldVerifyIP` | network/ip_tracker.go:287-306 | true exactly for first or newer IPs of tracked nodes that are wanted, or of all tracked nodes where all subnets are tracked |
| `NetworkModel.StepKeepsPeers` | network/network.go:1053-1127 | connecting and connected peers are disjoint, one per node ID, never the node itself, and exactly the peers that have not left |
| `NetworkModel.StepKeepsDials` | network/network.go:676-749 | a dial is unstopped exactly while it is its node's entry, and a node with an entry is never connected |
| `NetworkModel.StepKeepsClose` | network/network.go:1140-1171 | once the network is closing, every peer still listed has been told to close |
| `NetworkModel.StepKeepsTracker` | network/network.go:457-496 | the tracker hears of connections and disconnections of a node in turn: one is reported only of a node that is not reported connected, the other only of one that is; the open sessions are those of the connected peers |
| `NetworkModel.StepKeepsRouter` | network/network.go:489-538 | the router hears of a node's connection on the primary network first, then once on each subnet that both sides track, and of a disconnection only after these; what it holds at any time is what the connected peers' handlers have told it so far |
| `NetworkModel.RunKeepsInv` | network/network.go:457-1171 | all of these hold at every point of every interleaving |
| `NetworkModel.NoPeerAfterClose` | network/network.go:1140-1171 | after a call of StartClose in any interleaving, no peer is ever added, and every peer still listed has been told to close |
| `NetworkModel.GossipedNodesAreConnected` | network/network.go:457-496 | in every interleaving, every node the composed tracker gossips is a connected peer, and every connected peer that may be gossiped has its slot |
| `NetworkModel.RouterHoldsShared` | network/network.go:489-538 | in every interleaving, the router holds a node only for the primary network and the subnets both sides track, and for all of these between the return of Connected and Disconnected |
| `NetworkDials.StepFollows` | network/network.go:676-955 | what each action does to the dial of a node: a manual dial of a node neither connected nor dialed, a claim newer than all heard of a wanted node, a handshake that fails for a wanted node (same address), and a disconnection of a wanted one (newest IP heard) start one; a connection, an unwanted node and closing end it; nothing else changes it |
| `NetworkDials.DialedIff` | network/network.go:676-955 | at every point of every interleaving a node is being dialed exactly if a dial of it was started and nothing has ended it since |
| `NetworkDials.DialedAddressIsGiven` | network/network.go:676-955 | in every interleaving a node is only dialed at an address that the operator gave for it or that it claimed itself |
| `NetworkDials.WantedIsNewestHeard` | network/ip_tracker.go:337-346 | the address at which a node is wanted is that of the newest IP heard from it |
| `NetworkHandlers.UpgradeRefines` | network/network.go:1053-1127 | listing a new peer, if allowed, is the model's action, and is nothing otherwise |
| `NetworkHandlers.ConnectedRefines` | network/network.go:457-496 | moving the peer and telling tracker and router are a sequence of the model's actions, in this order, one for each subnet the router hears of; nothing happens for a peer that is not listed |
| `NetworkHandlers.DisconnectedRefines` | network/network.go:526-538 | a listed peer's departure is two actions from connecting and four from connected, among them telling tracker and router; nothing happens otherwise |
| `NetworkHandlers.ManuallyTrackRefines` | network/network.go:676-696 | telling the tracker and dialing are two of the model's actions |
| `NetworkHandlers.TrackRefines` | network/network.go:698-749 | a claimed IP that passes filter and signature is one action, any other changes nothing, and the filter drops none that would be dialed |
| `NetworkHandlers.GiveUpRefines` | network/network.go:922-938 | a dial of an unwanted node is given up in one action, of a wanted node it is left alone |
| `NetworkHandlers.CloseRefines` | network/network.go:1140-1171 | closing is one of the model's actions |
| `NetworkHandlers.OnConnectedAgrees` | network/network.go:457-496 | between handlers, the tracker holds only connected nodes for connected |
| `PeerSets.PeerSet.Add` | network/peer/set.go:39-48 | refines adding to a set by ID; slice and index map stay inverses |
| `PeerSets.PeerSet.GetByID` | network/peer/set.go:52-58 | the peer with the ID, if any |
| `PeerSets.PeerSet.GetByIndex` | network/peer/set.go:62-67 | the peer at the position of the slice, if there is one |
| `PeerSets.PeerSet.Remove` | network/peer/set.go:70-86 | refines removing by ID through swap-remove |
| `PeerSets.Swaps` | network/peer/set.go:70-86 | moving the last peer into the freed slot keeps slice and index map inverses and removes exactly that node |
| `Network.Network.New` | network/network.go:176-318 | there is a network exactly when the primary network is not among the tracked subnets and both throttlers, both metrics and the tracker can be made; it starts as the model does |
| `Network.Network.TellRouter` | network/network.go:489-495 | tells the router of the primary network and then, in some order, exactly once of each subnet that this node and the peer both track |
| `Network.Network.AllowConnection` | network/network.go:502-508 | exactly when connections are not restricted to validators, this node is one, or the tracker wants the node |
| `Network.Network.Upgrade` | network/network.go:1053-1127 | a peer is listed as connecting exactly when its node is allowed, the network is not closing, and the node is neither oneself nor listed |
| `Network.Network.Connected` | network/network.go:457-496 | moves a listed connecting peer to the connected ones, stops its dial, reports its IP and subnets to the tracker and its node to the router, for the primary network and every shared subnet; changes nothing otherwise |
| `Network.Network.Disconnected` | network/network.go:526-538 | drops the peer from whichever set lists it, as the two cases say; changes nothing if none does |
| `Network.Network.DisconnectedFromConnecting` | network/network.go:840-860 | drops a connecting peer; its node is dialed afterwards exactly if it was and the tracker wants it, by a new dial at the same address; the old dial is stopped and all others are as they were |
| `Network.Network.DisconnectedFromConnected` | network/network.go:862-879 | tells tracker and router, drops the peer, and dials its node at the newest known IP if there is one and the tracker then wants the node; all other dials are as they were |
| `Network.Network.ManuallyTrack` | network/network.go:676-696 | tells the tracker, and dials a node that is neither connected nor dialed |
| `Network.Network.Track` | network/network.go:698-749 | an IP that passes the filter and is signed is reported to the tracker; if it is newer than the known one and the node wanted and not connected, it replaces the node's dial; fails exactly when a needed signature is bad |
| `Network.Network.DialOnce` | network/network.go:922-955 | a dial goes on exactly while its node is wanted and not listed; an unwanted node's entry is stopped and removed |
| `Network.Network.StartClose` | network/network.go:1140-1171 | the first call marks closing, stops all dials and tells every listed peer to close; later calls change nothing |
| `Genesis.SplitAllocations` | genesis/genesis.go:469-529 | exactly n groups if something is locked and one otherwise; the groups one after the other are the input unit by unit, all but the last of the quotient's size, none with an initial amount |
| `Genesis.SplitWeights` | genesis/genesis.go:469-529 | the first n-1 groups weigh the quotient, the last the quotient and the remainder |
| `Genesis.SplitKeepsAmounts` | genesis/genesis.go:469-529 | for every owner and unlock time, the amount over all groups is the input amount |
| `Genesis.SumsStayBelowTotal` | genesis/genesis.go:490-520 | no sum of the dealing exceeds the total, so none overflows where the total fits |
| `Genesis.TotalLocked` | genesis/genesis.go:470-475 | the loop adds up all locked amounts |
| `Genesis.DealUnlock` | genesis/genesis.go:489-520 | the inner loop deals one unlock out, closing groups that reach the weight |
| `GenesisBuild.InitialSupply` | genesis/config.go:146-162 | the checked sum is the supply, and fails exactly when the supply exceeds 64 bits |
| `GenesisBuild.FixedCap` | genesis/genesis.go:305-324 | every address holds on the X-chain exactly what it was granted; the holders are the positive initial amounts, sorted by amount and address, and add up to all of them |
| `GenesisBuild.Platform` | genesis/genesis.go:352-376 | locked funds on the staked addresses, and only these, are set aside; all others go to outputs, none of which is empty; together they are everything |
| `GenesisBuild.Validators` | genesis/genesis.go:378-423 | one validator per staker, each staking its own group until a time that is one offset earlier than the one before; panics exactly when there are fewer groups |
| `GenesisBuild.CheckValidators` | vms/platformvm/genesis/genesis.go:209-255 | passes exactly when every validator has weight and ends after the start |
| `GenesisBuild.FromConfig` | genesis/genesis.go:294-453 | succeeds exactly when the supply fits, there are at least one staker and as many staked units as stakers, and the last staker ends after the start; overflow, panic and an ended stake each exactly where they belong; then X-chain, outputs and stake account for the supply per owner and unlock time, in equal shares; validator i is staker i, ends i offsets early, and stakes only funds of the staked addresses, which are in no output; every address holds what it was granted; a configuration that passed validation is built exactly when the staked addresses have a unit per staker and the offsets do not use up the whole duration |
| `GenesisBuild.ValidatedWithoutStake` | genesis/genesis.go:136-203 | configurations that pass validation but cannot be built: nothing staked, or fewer units than stakers |
| `GenesisBuild.ValidatedButExited` | genesis/genesis.go:136-203 | a configuration that passes validation but whose last staker has already ended |
| `Collections.SortSorts` | utils/sorting.go:21-23 | sorting by a total order gives a sorted permutation |
| `SharedMemory.Memory.MakeLock` | chains/atomic/memory.go:71-82 | refines making a lock: same object while it is used, count one up |
| `SharedMemory.Memory.ReleaseLock` | chains/atomic/memory.go:88-101 | refines releasing: count one down, entry gone at zero |
| `SharedMemory.PlanIncreases` | chains/atomic/shared_memory.go:118-128 | the shared IDs of one call are locked in increasing order |
| `SharedMemory.RunKeepsInv` | chains/atomic/memory.go:53-101 | entries exist exactly while used, counts are exact, users have the stored object, every call locks in increasing order, nothing panics |
| `SharedMemory.MutualExclusion` | chains/atomic/memory.go:53-67 | in every interleaving at most one thread has the database of a shared ID |
| `SharedMemory.CountsAreExact` | chains/atomic/memory.go:71-101 | the count is the number of threads between making and releasing, and all of them have the same object |
| `SharedMemory.ReleaseIsAcquire` | chains/atomic/memory.go:64-101 | every release finds an entry and unlocks the object that was locked; nothing panics |
| `SharedMemory.NoDeadlock` | chains/atomic/shared_memory.go:115-136 | in every interleaving of calls that lock any number of IDs, unless all threads are idle one that is not can take its next step |
| `SharedMemory.AllCallsReturn` | chains/atomic/shared_memory.go:115-166 | the calls under way take a bounded number of steps in any interleaving, and when none has a step left all have returned |
| `SharedMemory.CallTakesItsLocks` | chains/atomic/shared_memory.go:115-136 | in every interleaving, when a call that did not fail begins to release, it has the database of each of its shared IDs, and of no other |
| `HTTPGate.MutableHTTPHandlers.Block` | api/lazy_http.go:74-79 | refines blocking |
| `HTTPGate.MutableHTTPHandlers.Unblock` | api/lazy_http.go:83-89 | refines unblocking, which wakes all waiters |
| `HTTPGate.MutableHTTPHandlers.TryEnter` | api/lazy_http.go:107-118 | one pass of enter: in, or waiting while blocked |
| `HTTPGate.MutableHTTPHandlers.TryDrain` | api/lazy_http.go:93-103 | one pass of Drain: done, or waiting while requests are in flight |
| `HTTPGate.MutableHTTPHandlers.Leave` | api/lazy_http.go:122-130 | counts down and wakes all waiters at zero |
| `HTTPGate.MutableHTTPHandlers.CancelWait` | utils/lock/cond.go:59-67 | a cancelled waiter no longer waits; the gate is as it was |
| `HTTPGate.RunKeepsInv` | api/lazy_http.go:74-130 | in every interleaving the counter is exact and every waiter still waits for what it saw |
| `HTTPGate.DrainedIsQuiet` | api/lazy_http.go:74-103 | once Drain returned nil while blocked, no request is in flight until the next Unblock |
| `HTTPGate.BlockedLetsNoneIn` | api/lazy_http.go:107-118 | while blocked, the requests in flight only get fewer |
| `HTTPGate.NoLostWakeup` | api/lazy_http.go:93-130 | a thread stuck in enter faces a blocked gate, one stuck in Drain a request that can leave |
| `HTTPGate.UnblockedServes` | api/lazy_http.go:83-118 | in every interleaving, from Unblock until the next Block every parked or new request can enter and is then in flight |
| `HTTPGate.BlockedParks` | api/lazy_http.go:74-118 | from Block until the next Unblock a request that arrives is parked and can only give up |
| `HTTPGate.QuietDrains` | api/lazy_http.go:93-103 | whenever no request is in flight, every call of Drain, waiting or new, can return |
| `IDBits.EqualSubsetIsAgreement` | ids/bits.go:21-62 | the byte-wise comparison holds exactly when all bits of the range agree, for IDs of any length |
| `IDBits.AgreeByBytes` | ids/bits.go:21-62 | a range of bits agrees exactly when its bytes do under their masks |
| `IDBits.FirstDifferentByte` | ids/bits.go:86-127 | the loop finds the first byte that disagrees under its mask and the lowest bit in which it does |
| `IDBits.FirstDifferenceSubset` | ids/bits.go:67-128 | the least differing bit of the range; none exactly when EqualSubset holds |
| `IDBits.BitAt` | ids/id.go:140-158 | bit i of an ID is bit i mod 8 of byte i div 8 |
| `Canoto.UnmarshalCanoto` | simplex/block.canoto.go:88-144 | the decode loop computes the specified parse, for any schema |
| `Canoto.MarshalCanoto` | simplex/block.canoto.go:209-223 | the appending encoder computes the specified encoding |
| `Canoto.CalculateSize` | simplex/block.canoto.go:161-174 | the cached size is the length of the encoding |
| `Canoto.RoundTrip` | simplex/storage.canoto.go:80-125 | decoding an encoding gives the message back |
| `Canoto.Canonical` | simplex/qc.canoto.go:81-139 | accepted bytes are the encoding of what they decode to |
| `Canoto.AcceptsExactlyEncodings` | simplex/block.canoto.go:88-144 | the decoder accepts exactly the encoder's image |
| `Canoto.SizeIsLength` | simplex/qc.canoto.go:157-168 | the field sizes add up to the encoded length |
| `Canoto.VarintFormat` | simplex/block.canoto.go:209-223 | a varint is its number in digits of seven bits, least significant first, with the top bit on all bytes but the last, and no padding |
| `Canoto.BlockFormat` | simplex/block.canoto.go:29-36 | a block is its metadata, inner block and blacklist under the tags 0x0a, 0x12 and 0x1a, each with its length, without the empty ones |
| `QuorumCertificates.CreateVerifier` | simplex/bls.go:119-143 | succeeds exactly when all keys parse; the order is a sorted permutation of the validators, indices lead back to it, the last key of an ID wins |
| `QuorumCertificates.InverseIffDistinct` | simplex/bls.go:135-140 | the index map inverts the order exactly when no validator is listed twice |
| `QuorumCertificates.Verify` | simplex/qc.go:60-100 | accepts exactly distinct members, quorum many, whose aggregated key verifies the message |
| `QuorumCertificates.QuorumsIntersect` | simplex/qc.go:60-82 | two quorums share at least 2*quorum - n members, for any quorum function |
| `QuorumCertificates.Aggregate` | simplex/qc.go:162-199 | succeeds exactly when there are enough signatures and the first quorum of them is from members, parses and aggregates |
| `QuorumCertificates.VerifyVote` | simplex/bls.go:91-117 | accepts exactly a parsing signature of a member over the encoded message |
| `QuorumCertificates.AggregateVerifiesIff` | simplex/qc.go:60-199 | if the aggregate of valid signatures at hand verifies under the aggregate of their keys, a quorum of valid votes aggregates, and the certificate verifies exactly when the first quorum is by distinct members |
| `QuorumCertificates.RepeatedVoteIsRejected` | simplex/qc.go:66-82 | an aggregate with two votes of one member verifies for no message |
| `QuorumCertificates.RepeatedVoteAggregates` | simplex/qc.go:162-199 | two valid votes of one of two members aggregate without an error, to a certificate that verifies for no message |
| `QuorumCertificates.IsQuorum` | simplex/qc.go:205-218 | all members, and at least a quorum of distinct ones |
| `QuorumCertificates.CreateSignersBitSet` | simplex/qc.go:115-124 | the bytes of the set of signer positions |
| `QuorumCertificates.BitSetBits` | simplex/qc.go:115-124 | a position is in the set exactly when some signer has it |
| `QuorumCertificates.FilterNodes` | simplex/qc.go:237-260 | the nodes at the positions of the set, or an error if the set reaches beyond the list |
| `QuorumCertificates.FilterElements` | simplex/qc.go:237-260 | a node is kept exactly when one of its positions is in the set |
| `QuorumCertificates.QCBytes` | simplex/qc.go:103-113 | computes the specified bytes |
| `QuorumCertificates.DeserializeQuorumCertificate` | simplex/qc.go:131-152 | computes the specified parse |
| `QuorumCertificates.DeserializeSerialize` | simplex/qc.go:103-152 | a serialized certificate is read back with the same signature and signer set, in canonical order, exactly when all its signers are listed |
| `QuorumCertificates.SerializeDeserialize` | simplex/qc.go:131-152 | an accepted byte string is written back as it was |
| `BigInts.SetBitBits` | utils/set/bits.go:34-36 | setting a bit sets that bit only |
| `BigInts.BytesRoundTrip` | utils/set/bits.go:88-97 | a set read back from its bytes is the same |
| `BlockTree.Tree.Add` | utils/tree/tree.go:56-65 | adds exactly the block |
| `BlockTree.Tree.Get` | utils/tree/tree.go:67-73 | whether the block is in the tree |
| `BlockTree.Tree.Accept` | utils/tree/tree.go:75-109 | rejects exactly the siblings and their descendants, each once, and leaves exactly the rest without the block itself; fails exactly when accepting or one of those rejections does |
| `BlockTree.TraversalEnds` | utils/tree/tree.go:92-107 | when nothing is pending, what was rejected is every conflicting block |
| `SimplexStorageModel.VerifyKeepsInv` | simplex/block.go:96-126 | a verified block extends whatever block its previous digest names |
| `SimplexStorageModel.IndexContinues` | simplex/storage.go:145-193 | an indexed block continues the chain by number, digest, inner parent and inner height |
| `SimplexStorageModel.IndexKeepsInv` | simplex/storage.go:145-193 | wherever an index call stops, the stored chain stays intact |
| `SimplexStorageModel.RetrieveReturnsIndexed` | simplex/storage.go:109-141 | the block rebuilt at a height is the block indexed there |
| `SimplexStorageModel.RestartRecoversTip` | simplex/storage.go:68-101 | a restart always succeeds, recovers the tip and knows its block |
| `SimplexStorageModel.RunKeepsInv` | simplex/storage.go:68-193 | the invariant holds over every run with crashes and restarts |
| `SimplexStorageModel.AcceptedFormAChain` | simplex/storage.go:145-193 | in every reachable state accepted blocks link by parent and height, and each but the first has a stored finalization with its digest, its number and the digest before |
| `SimplexStorageModel.IndexedOnlyGrows` | simplex/storage.go:145-193 | nothing indexed or accepted is ever taken back |
| `SimplexProgress.NextBlockIsIndexed` | simplex/storage.go:145-193 | in every reachable session a block built on the last indexed one is verified if the VM agrees, and is then indexed with any certified finalization of it; the session goes on from it |
| `SimplexProgress.StepKnows` | simplex/block.go:96-243 | after an action a session knows a block exactly if the action verifies it or starts the session from it, or it was known, the session goes on and no block of a greater number was indexed |
| `SimplexProgress.KnownIff` | simplex/block.go:96-243 | at every point of every run with crashes, the known blocks are those verified in this session and what it started from, less those below a block indexed since |
| `SimplexStorageModel.RestartNeedsHeader` | simplex/storage.go:109-193 | a restart recovers the digest just indexed exactly when the stored finalization has the block's metadata |
| `SimplexStorageModel.OtherHeaderLosesTip` | simplex/storage.go:145-193 | a run from the start: a block indexed with a finalization of its digest and another header, after which a restart has another tip |
| `SimplexStorage.BlockTracker.Verify` | simplex/block.go:96-126 | succeeds exactly for a positive number, a known previous block with the inner parent, and an inner block that is verified already or that the VM accepts and prefers; then the block is tracked, otherwise nothing changes; refines verifying, with its errors |
| `SimplexStorage.BlockTracker.Prune` | simplex/block.go:235-239 | exactly the blocks at or above the sequence number stay |
| `SimplexStorage.BlockTracker.IndexBlock` | simplex/block.go:225-243 | accepts the tracked block and rejects what conflicts; the block itself and all that are not below it stay tracked |
| `SimplexStorage.BlockTracker.Init` | simplex/block.go:186-188 | tracks the latest block |
| `SimplexStorage.Storage.New` | simplex/storage.go:68-101 | refines the restart; there is a storage exactly when the last accepted block can be rebuilt |
| `SimplexStorage.Storage.Retrieve` | simplex/storage.go:109-141 | computes the specified block |
| `SimplexStorage.Storage.Check` | simplex/storage.go:145-172 | passes exactly blocks with the next number, the last digest as previous one, a finalization of their digest and a certificate; each error exactly where its check is the first to fail |
| `SimplexStorage.Storage.Index` | simplex/storage.go:145-193 | refines indexing, stopped where a write, the VM's accept or one of its rejects fails, with each error; success writes finalization and blacklist, accepts the inner block and keeps the block as the known last one |
| `SimplexCodec.KeysAreDistinct` | simplex/storage.go:195-207 | every 64-bit number has its own finalization key and blacklist key, and the kinds do not overlap |
| `SimplexCodec.BigEndianValue` | simplex/storage.go:195-207 | the bytes of a key after its prefix are its number, most significant byte first |
| `SimplexCodec.BlockBytesIdentify` | simplex/block.go:81-89 | blocks with the same bytes are the same block |
| `SimplexCodec.FinalizationRoundTrip` | simplex/storage.go:280-309 | a stored finalization is read back with its header, signature and signers |
| `HealthModel.RegisterKeepsExactIff` | api/health/worker.go:77-125 | after registering every gauge counts its failing checks exactly when the condition on the tags holds |
| `HealthModel.NewTagMissesApplications` | api/health/worker.go:276-322 | after a second application check with a tag of its own, that tag has two failing checks and its gauge is 1 |
| `HealthModel.RepeatedTagBreaks` | api/health/worker.go:296-311 | after a plain check with a repeated tag, the gauge of that tag exceeds the number of its failing checks |
| `HealthModel.RunCheckKeepsInv` | api/health/worker.go:220-269 | a check result keeps every gauge and the counter exact |
| `HealthModel.RunKeepsInv` | api/health/worker.go:77-322 | over every sequence of results and registrations that meet the condition, each gauge counts the failing checks that carry the tag or are application checks |
| `HealthModel.ExactThroughoutIff` | api/health/worker.go:77-322 | over every sequence of registrations and results, the gauges are exact throughout exactly when every registration meets the condition |
| `HealthModel.WellTaggedKeepsExact` | api/health/worker.go:77-125 | distinct tags, and application checks with the application tag alone, always meet the condition |
| `HealthModel.HealthyIffGaugesAreZero` | api/health/worker.go:143-170 | a query is healthy exactly when the gauges of its tags in use are zero and no application check fails |
| `HealthModel.HealthyIffGaugeIsZero` | api/health/worker.go:143-170 | a tag in use is healthy exactly when its gauge is zero |
| `HealthHistory.FailingFollowsHistory` | api/health/worker.go:77-269 | at every point of every run, the checks are those registered, with their tags, and one fails exactly if its last result was a failure or it has not run since it was registered |
| `HealthHistory.CoveredIsConcerned` | api/health/worker.go:143-170 | a query without tags or with the tag of all covers every check; any other covers the checks with one of its tags, and application checks always |
| `HealthHistory.HealthyFollowsHistory` | api/health/worker.go:143-170 | at every point of every run, a query is healthy exactly if each registered check it concerns has run since and passed the last time |
| `Health.Worker.constructor` | api/health/worker.go:54-75 | a new worker is the empty one, with exact gauges |
| `Health.Worker.RegisterCheck` | api/health/worker.go:77-125 | registers with its tags and as failing, or fails with its errors and changes nothing; exact gauges stay exact exactly when it fails or the condition holds |
| `Health.Worker.RunCheck` | api/health/worker.go:220-269 | the check fails afterwards exactly if the result is a failure, and no other changes; exact gauges stay exact |
| `Health.Worker.UpdateMetrics` | api/health/worker.go:276-322 | refines the change of the gauges |
| `Health.Worker.Results` | api/health/worker.go:143-170 | exactly the checks the query concerns, with whether each fails; healthy exactly when none does, which for exact gauges is when they are zero |
| `AcceptanceIndex.AcceptRefinesAppend` | indexer/index.go:111-161 | accepting appends to a log without repetitions, and keeps positions and IDs inverse |
| `AcceptanceIndex.ReplayChangesNothing` | indexer/index.go:115-125 | accepting a container again changes nothing |
| `AcceptanceIndex.RunIsLog` | indexer/index.go:62-161 | over every run with crashes and restarts the index is the log of the committed calls, each ID at its first |
| `AcceptanceIndex.Index.constructor` | indexer/index.go:62-96 | takes up the stored log |
| `AcceptanceIndex.Index.Accept` | indexer/index.go:111-161 | refines appending; fails exactly when the commit of a new container does, and then changes nothing on disk |
| `AcceptanceIndex.Index.GetContainerByIndex` | indexer/index.go:167-183 | the container at the position, or an error beyond the log |
| `AcceptanceIndex.Index.GetContainerRange` | indexer/index.go:205-237 | the consecutive slice, cut off at the end of the log; each error exactly where it belongs |
| `AcceptanceIndex.Index.GetIndex` | indexer/index.go:240-245 | the only position of the ID |
| `AcceptanceIndex.Index.GetContainerByID` | indexer/index.go:247-257 | the container with the ID, exactly when it is in the log |
| `AcceptanceIndex.Index.GetLastAccepted` | indexer/index.go:261-270 | the end of the log |
| `Indexer.RunKeepsInv` | indexer/indexer.go:69-260 | over all node runs, exactly the chains passed over are marked incomplete, and an incomplete mark implies that the node has run |
| `Indexer.NeverIndexesSkipped` | indexer/indexer.go:132-260 | a run that disallows incomplete indices never indexes a chain that was passed over before |
| `Indexer.NeverBoth` | indexer/indexer.go:132-260 | if no run allows incomplete indices, no chain is both indexed and passed over |
| `IndexerHistory.MarksFollowHistory` | indexer/indexer.go:389-418 | over all node runs, a chain is marked incomplete exactly if some run passed it over, and indexed exactly if some run set out to index it |
| `IndexerHistory.RunFollowsHistory` | indexer/indexer.go:132-307 | a run has the flags of its start; it is closed exactly if Close was called, a registration shut the node down or an index could not be created; its indices are those created in it, three for a DAG and one for a linear chain |
| `IndexerHistory.DecisionFollowsHistory` | indexer/indexer.go:132-260 | over all node runs, a registration is considered exactly if the indexer is open and the chain is of the primary network without an index yet; it is indexed exactly if indexing is on, the chain was never passed over or incomplete indices are allowed, and no access fails; passed over exactly if indexing is off, it was never indexed or incomplete indices are allowed, and no access fails; otherwise the node shuts down |
| `Indexer.Indexer.constructor` | indexer/indexer.go:69-91 | refines the start of a run |
| `Indexer.RunHolds` | indexer/indexer.go:309-387 | over all node runs, an open indexer has its indices open and accepting, and a closed one has none open and told the node to shut down once |
| `Indexer.IndicesLeftBehind` | indexer/indexer.go:309-346 | a registration that closes the indexer leaves an acceptor registered exactly if an index failed after its acceptor was registered |
| `Indexer.CleanIff` | indexer/indexer.go:309-387 | throughout a history no closed indexer leaves an acceptor registered, exactly if no index fails late |
| `Indexer.Indexer.RegisterChainHelper` | indexer/indexer.go:309-346 | an index that fails is closed again; its acceptor stays registered if it fails late |
| `Indexer.Indexer.RegisterChain` | indexer/indexer.go:132-307 | refines the decision on a chain, its marks and its indices, with every fault |
| `Indexer.Indexer.Close` | indexer/indexer.go:351-387 | the first call closes all indices, deregisters their acceptors and tells the node to shut down; later calls change nothing |
| `RouterModel.ForceAddAdds` | api/server/router.go:122-151 | adds this endpoint with this handler only, and on success to the base and to all aliases of whatever it was added to |
| `RouterModel.CyclesFail` | api/server/router.go:122-151 | on a cycle of aliases the recursion ends and reports a failure |
| `RouterModel.AddRouterKeepsConsistent` | api/server/router.go:114-120 | a successful addition keeps aliases serving what their base serves |
| `RouterModel.AddAliasKeepsConsistent` | api/server/router.go:153-182 | so does a successful aliasing |
| `RouterModel.RunKeepsConsistent` | api/server/router.go:105-182 | while no call failed, every direct alias serves every endpoint of its base with the same handler |
| `RouterModel.AliasesServeTheSame` | api/server/router.go:105-182 | while no call failed, so does every transitive alias |
| `RouterModel.HandlersAreNeverReplaced` | api/server/router.go:122-135 | no call, failed or not, takes away or replaces a handler |
| `RouterReach.ForceAddSucceedsIff` | api/server/router.go:122-151 | adding succeeds exactly when every base the aliases lead to lacks the endpoint and is led to once |
| `RouterReach.AllAddedIffReached` | api/server/router.go:142-149 | after success, the bases that have the endpoint are those that had it and those that are led to |
| `RouterAlias.ForceAddEachSucceedsIff` | api/server/router.go:168-179 | adding several endpoints to several aliases succeeds exactly when each of them could be added on its own, in whatever order they are visited |
| `RouterAlias.AddAliasSucceedsIff` | api/server/router.go:153-182 | adding aliases succeeds exactly when none is reserved and, for each endpoint of the base, every base they lead to lacks it and is led to once, in whatever order the endpoints are visited |
| `RouterAlias.AddAliasConsistentIff` | api/server/router.go:153-182 | successful or not, adding unreserved aliases to a consistent router gives every base they lead to every endpoint of the base, and leaves the router consistent exactly when none of them had one under another handler |
| `RouterAlias.AliasMayClash` | api/server/router.go:153-182 | an alias that has an endpoint of its base under another handler: the call fails and leaves the two apart |
| `RouterAlias.AddRouterSucceedsIff` | api/server/router.go:105-151 | adding a route succeeds exactly when the base is not reserved, and every base the aliases lead to lacks the endpoint and is led to once; then exactly these have it in addition, with the handler; a reserved base changes nothing |
| `RouterAlias.ReservedIff` | api/server/router.go:159-167 | at every point of every run a base is reserved exactly if some call made it an alias, whether that call reported an error for its routes or not |
| `RouterAlias.AliasStaysReserved` | api/server/router.go:114-163 | from then on every call that adds a route to it or makes it an alias again fails and changes nothing |
| `RouterAlias.AliasedIff` | api/server/router.go:169-169 | at every point of every run the aliases of a base are those that some call gave it |
| `Router.Router.GetHandler` | api/server/router.go:77-90 | the handler of the route, and which part of it is unknown |
| `Router.Router.ForceAdd` | api/server/router.go:122-151 | the recursion ends on every alias graph and refines the model |
| `Router.Router.AddRouter` | api/server/router.go:105-120 | refines the model, keeps consistency on success and handlers always |
| `Router.Router.AddAlias` | api/server/router.go:153-182 | refines the model for the order in which the endpoints are visited |
| `SizedCache.FitIsLongest` | cache/lru/sized_cache.go:96-101 | what is kept is the longest run of the newest entries that fits |
| `SizedCache.PutKeepsNewest` | cache/lru/sized_cache.go:87-108 | an entry that is too large empties the cache; any other becomes the newest, and exactly those others stay that fit beside it together with all newer ones |
| `SizedCache.ContentsAreFaithful` | cache/lru/sized_cache.go:87-130 | after any history each entry is the last one put for its key, and entries are in the order of last use |
| `SizedCache.HitIsLastPut` | cache/lru/sized_cache.go:110-118 | a hit returns the last value put |
| `SizedCache.WithoutRemoves` | cache/lru/sized_cache.go:120-125 | evicting removes exactly the entry of the key |
| `SizedCache.TouchedKeepsEntries` | cache/lru/sized_cache.go:110-118 | asking changes the order only |
| `SizedCache.Cache.Put` | cache/lru/sized_cache.go:87-108 | refines the specified entries; the new entry is the newest if it fits, and exactly those others stay that fit beside it together with all newer ones; the size is the sum of the entries and at most the maximum |
| `SizedCache.Cache.MakeRoom` | cache/lru/sized_cache.go:96-101 | the eviction loop ends and keeps exactly what fits |
| `SizedCache.Cache.Get` | cache/lru/sized_cache.go:110-118 | the value of the key, which becomes the newest |
| `SizedCache.Cache.Evict` | cache/lru/sized_cache.go:120-125 | drops the key and its size |
| `SizedCache.Cache.Flush` | cache/lru/sized_cache.go:127-130 | empties the cache |
| `ClearPrefix.Database.ClearPrefix` | database/helpers.go:203-241 | without faults succeeds; success means exactly the prefix is cleared, for any write size; after a failed delete, write or iterator only keys with the prefix are missing; ends, since every renewed iterator has fewer keys |
| `BytesPool.Pool.Get` | utils/bytes.go:68-73 | a buffer long enough for the request, reused or new |
| `BytesPool.Pool.Put` | utils/bytes.go:79-83 | the buffer goes to the largest bucket it can serve |
| `BytesPool.GetBucket` | utils/bytes.go:68-70 | the bucket of a length is the first with long enough buffers |
| `BytesPool.PutBucket` | utils/bytes.go:79-82 | the bucket of a buffer is the last whose size it has |

## Left out

- Configuration, flags, node start-up, chain creation, APIs, clients, metrics endpoints, tracing and NAT: wiring and I/O with no deep invariant.
- TLS, certificates, BLS mathematics and hashing: parameters, with collision-free digests where a property needs them.
- Message builders and conversions (`message/`, `simplex/messages.go`, `simplex/inbound.go`): field copying.
- The Simplex epoch engine: its calls are the actions of the storage runs.
- Dial timing, backoff, uptime averages and peer sampling: clocks, floating point and randomness; a dial ends in an event at any time.
- False positives of the bloom filter and the distribution of samples: the filter is the set of positions it holds.
- IPTracker.Tracker: a tracked node is a value in the map instead of a shared object, so aliasing of tracked nodes is not modelled.
- GenesisBuild.FromConfig: the memos, reward addresses, delegation fees, start times of validators and chain creation of `FromConfig` are not modelled, nor is the 64-bit wrap-around of times that end before 1970 or of durations that overflow in nanoseconds.
- Genesis.SplitAllocations: amounts are unbounded; that no sum overflows 64 bits is `SumsStayBelowTotal`.
- Network.Network: TLS upgrades, the throttling of connections and their metrics are not modelled; making the throttlers and the metrics of a network either succeeds or fails. A peer object reports Connected at most once and before its single Disconnected, as `network/peer/peer.go` arranges; the class runs one handler at a time, and the interleavings of handlers are those of NetworkModel.
- SharedMemory.NoDeadlock: the IDs of one call are taken to be different, as hashes of different pairs of chains are; a call that locked one ID twice would wait for itself.
- HTTPGate.MutableHTTPHandlers: the swapping of handlers itself is not modelled; a wait is a set of waiting threads that a broadcast empties.
- Canoto.UnmarshalCanoto: the canoto library is not part of this repository; its varints are modelled as minimal, and its error values by kind.
- SimplexStorage.Storage.Index: a write that fails has written nothing; reads fail only where an entry is missing.
- AcceptanceIndex.Index.GetContainerRange: positions near the 64-bit limit, where the sum of start and count would wrap around, are not modelled.
- Health.Worker.RunCheck: details, durations, contiguous failure counts and times of a result are not modelled, nor is the wrapper that makes readiness checks pass for good once they passed.
- Indexer.Indexer.RegisterChain: the indices themselves are sets of chains here; AcceptanceIndex models one index. Errors while closing are not modelled: every index is closed whatever the others return.
- Router.Router: header routes and the multiplexer behind the routes are not modelled.
- BytesPool.Pool.Get: that the pool may drop buffers at any time is the choice of making a new one.
