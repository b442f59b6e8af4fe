/**
 The index of accepted containers: containers by position, positions by container ID, and the next position, written
 in one commit. It behaves as a log without repetitions.
 */
module AcceptanceIndex {
  import opened Wrappers

  const MAX_FETCHED_BY_RANGE: nat := 1024

  datatype ID = ID(value: nat)

  datatype Container = Container(id: ID, bytes: seq<int>, timestamp: int)

  datatype Disk = Disk(next: nat, containers: map<nat, Container>, indices: map<ID, nat>)

  function Empty(): Disk {
    Disk(0, map[], map[])
  }

  function Accept(d: Disk, c: Container): Disk {
    if c.id in d.indices then d
    else Disk(d.next + 1, d.containers[d.next := c], d.indices[c.id := d.next])
  }

  /** Positions are 0 to next - 1, and IDs and positions are inverse to each other. */
  ghost predicate Inv(d: Disk) {
    && (forall i :: i in d.containers <==> 0 <= i < d.next)
    && (forall i :: 0 <= i < d.next ==> d.containers[i].id in d.indices && d.indices[d.containers[i].id] == i)
    && (forall id :: id in d.indices ==> d.indices[id] < d.next && d.containers[d.indices[id]].id == id)
  }

  /** The log the index stands for. */
  ghost function Log(d: Disk): seq<Container>
    requires Inv(d)
  {
    seq(d.next, i requires 0 <= i < d.next => d.containers[i])
  }

  ghost predicate Contains(log: seq<Container>, id: ID) {
    exists i :: 0 <= i < |log| && log[i].id == id
  }

  ghost function Append(log: seq<Container>, c: Container): seq<Container> {
    if Contains(log, c.id) then log else log + [c]
  }

  /** Accepting adds to the end of the log what is not yet in it. */
  lemma AcceptRefinesAppend(d: Disk, c: Container)
    requires Inv(d)
    ensures Inv(Accept(d, c)) && Log(Accept(d, c)) == Append(Log(d), c)
  {
    IndexedIffLogged(d, c.id);
    var d' := Accept(d, c);
    if c.id !in d.indices {
      assert forall i :: 0 <= i < d.next ==> d'.containers[i] == d.containers[i];
      assert forall i :: 0 <= i < d.next ==> d.containers[i].id != c.id;
    }
  }

  lemma IndexedIffLogged(d: Disk, id: ID)
    requires Inv(d)
    ensures id in d.indices <==> Contains(Log(d), id)
  {
    if id in d.indices {
      assert Log(d)[d.indices[id]].id == id;
    }
  }

  /** Accepting again changes nothing. */
  lemma ReplayChangesNothing(d: Disk, c: Container, again: Container)
    requires Inv(d) && c.id == again.id
    ensures Accept(Accept(d, c), again) == Accept(d, c)
  {
  }

  // ---------------------------------------------------------------------------------------
  // Runs: containers are accepted, the commit may not be reached, and the node restarts.
  // ---------------------------------------------------------------------------------------

  datatype Event =
    | Accepted(container: Container, committed: bool)
    | Stopped
    | Restarted

  /** The disk and, while the node runs, the next position it has in memory. */
  datatype Node = Node(disk: Disk, next: Option<nat>)

  /** An accept call; one that does not reach its commit is an error or a crash, and ends the run. */
  function AcceptInMemory(node: Node, c: Container, committed: bool): Node
    requires node.next.Some?
  {
    if c.id in node.disk.indices then node
    else if !committed then node.(next := None)
    else
      var n := node.next.value;
      Node(Disk(n + 1, node.disk.containers[n := c], node.disk.indices[c.id := n]), Some(n + 1))
  }

  predicate Allowed(node: Node, e: Event) {
    match e
    case Accepted(_, _) => node.next.Some?
    case Stopped => true
    case Restarted => node.next.None?
  }

  function Step(node: Node, e: Event): Node
    requires Allowed(node, e)
  {
    match e
    case Accepted(c, committed) => AcceptInMemory(node, c, committed)
    case Stopped => node.(next := None)
    case Restarted => node.(next := Some(node.disk.next))
  }

  ghost predicate IsRun(trace: seq<Node>, events: seq<Event>) {
    && |trace| == |events| + 1
    && trace[0] == Node(Empty(), None)
    && forall i {:trigger events[i]} :: 0 <= i < |events| ==>
         Allowed(trace[i], events[i]) && trace[i + 1] == Step(trace[i], events[i])
  }

  /** The log of the committed calls among the first n events, each ID at its first call. */
  ghost function Committed(events: seq<Event>, n: nat): seq<Container>
    requires n <= |events|
  {
    if n == 0 then []
    else match events[n - 1]
      case Accepted(c, true) => Append(Committed(events, n - 1), c)
      case _ => Committed(events, n - 1)
  }

  ghost predicate NodeInv(node: Node) {
    Inv(node.disk) && (node.next.Some? ==> node.next.value == node.disk.next)
  }

  /** Over every run the index is the log of the committed calls, in the order of the calls. */
  lemma {:induction false} RunIsLog(trace: seq<Node>, events: seq<Event>, n: nat)
    requires IsRun(trace, events) && n < |trace|
    ensures NodeInv(trace[n]) && Log(trace[n].disk) == Committed(events, n)
  {
    if n > 0 {
      RunIsLog(trace, events, n - 1);
      var e := events[n - 1];
      assert trace[n] == Step(trace[n - 1], e);
      if e.Accepted? {
        AcceptRefinesAppend(trace[n - 1].disk, e.container);
        if e.container.id in trace[n - 1].disk.indices {
          IndexedIffLogged(trace[n - 1].disk, e.container.id);
        }
      }
    }
  }

  // ---------------------------------------------------------------------------------------
  // The index in memory.
  // ---------------------------------------------------------------------------------------

  datatype Error =
    | CommitFailed
    | NoneAccepted
    | InvalidCount
    | StartTooLarge
    | NoContainer
    | NotFound

  class Index {
    var disk: Disk
    var next: nat

    ghost predicate Valid()
      reads this
    {
      Inv(disk) && next == disk.next
    }

    ghost function Contents(): seq<Container>
      requires Valid()
      reads this
    {
      Log(disk)
    }

    constructor (d: Disk)
      requires Inv(d)
      ensures Valid() && Contents() == Log(d)
    {
      disk := d;
      next := d.next;
    }

    /** Indexes a container; after an error the index is not used again, and the disk is as before. */
    method Accept(c: Container, commitFails: bool) returns (r: Result<(), Error>)
      requires Valid()
      modifies this
      ensures r.Err? <==> commitFails && !Contains(old(Contents()), c.id)
      ensures r.Ok? ==> Valid() && Contents() == Append(old(Contents()), c)
      ensures r.Err? ==> disk == old(disk)
    {
      AcceptRefinesAppend(disk, c);
      IndexedIffLogged(disk, c.id);
      if c.id in disk.indices {
        return Ok(());
      }
      var staged := disk;
      staged := staged.(containers := staged.containers[next := c]);
      staged := staged.(indices := staged.indices[c.id := next]);
      next := next + 1;
      staged := staged.(next := next);
      if commitFails {
        return Err(CommitFailed);
      }
      disk := staged;
      return Ok(());
    }

    method GetContainerByIndex(index: nat) returns (r: Result<Container, Error>)
      requires Valid()
      ensures r == if index < |Contents()| then Ok(Contents()[index]) else Err(NoContainer)
    {
      if next == 0 || index > next - 1 {
        return Err(NoContainer);
      }
      return Ok(disk.containers[index]);
    }

    /** The containers from `start` on, as many as asked for or as there are. */
    method GetContainerRange(start: nat, count: nat) returns (r: Result<seq<Container>, Error>)
      requires Valid()
      ensures r == Err(InvalidCount) <==> count == 0 || count > MAX_FETCHED_BY_RANGE
      ensures r == Err(NoneAccepted) <==> 0 < count <= MAX_FETCHED_BY_RANGE && Contents() == []
      ensures r == Err(StartTooLarge) <==>
        0 < count <= MAX_FETCHED_BY_RANGE && Contents() != [] && start >= |Contents()|
      ensures 0 < count <= MAX_FETCHED_BY_RANGE && start < |Contents()| ==>
        r == Ok(Contents()[start..if start + count <= |Contents()| then start + count else |Contents()|])
    {
      if count == 0 || count > MAX_FETCHED_BY_RANGE {
        return Err(InvalidCount);
      }
      if next == 0 {
        return Err(NoneAccepted);
      }
      if start > next - 1 {
        return Err(StartTooLarge);
      }
      var last := if start + count - 1 < next - 1 then start + count - 1 else next - 1;
      var containers: seq<Container> := [];
      for j := start to last + 1
        invariant containers == Contents()[start..j]
      {
        var c := GetContainerByIndex(j);
        if c.Err? {
          return Err(NoContainer);
        }
        containers := containers + [c.value];
      }
      return Ok(containers);
    }

    method GetIndex(id: ID) returns (r: Result<nat, Error>)
      requires Valid()
      ensures r.Ok? <==> Contains(Contents(), id)
      ensures r.Ok? ==> r.value < |Contents()| && Contents()[r.value].id == id
      ensures r.Ok? ==> forall i :: 0 <= i < |Contents()| && Contents()[i].id == id ==> i == r.value
    {
      IndexedIffLogged(disk, id);
      if id !in disk.indices {
        return Err(NotFound);
      }
      return Ok(disk.indices[id]);
    }

    method GetContainerByID(id: ID) returns (r: Result<Container, Error>)
      requires Valid()
      ensures r.Ok? <==> Contains(Contents(), id)
      ensures r.Ok? ==> r.value in Contents() && r.value.id == id
    {
      IndexedIffLogged(disk, id);
      if id !in disk.indices {
        return Err(NotFound);
      }
      assert Contents()[disk.indices[id]] == disk.containers[disk.indices[id]];
      return Ok(disk.containers[disk.indices[id]]);
    }

    method GetLastAccepted() returns (r: Result<Container, Error>)
      requires Valid()
      ensures r == if Contents() == [] then Err(NoneAccepted) else Ok(Contents()[|Contents()| - 1])
    {
      if next == 0 {
        return Err(NoneAccepted);
      }
      r := GetContainerByIndex(next - 1);
    }
  }
}
