/**
 The reference-counted locks of the shared memory between chains, and any number of threads that pair taking and
 releasing a shared database. A lock object is a `Ref`; entries of the table are deleted and made anew as threads
 come and go, so two threads may in turn use different objects for the same shared ID.
 */
module SharedMemory {
  import opened Wrappers
  import opened Collections

  datatype SharedID = SharedID(bytes: int)

  /** A lock object, told from others by its address; `owner` is the ID it was made for. */
  datatype Ref = Ref(address: nat, owner: SharedID)

  datatype Thread = Thread(id: int)

  datatype Table = Table(locks: map<SharedID, Ref>, counts: map<Ref, int>, next: nat)

  function MadeRef(m: Table, id: SharedID): Ref {
    if id in m.locks then m.locks[id] else Ref(m.next, id)
  }

  function Count(m: Table, r: Ref): int {
    if r in m.counts then m.counts[r] else 0
  }

  function Made(m: Table, id: SharedID): Table {
    var r := MadeRef(m, id);
    Table(m.locks[id := r], m.counts[r := if id in m.locks then Count(m, r) + 1 else 1],
          if id in m.locks then m.next else m.next + 1)
  }

  function Released(m: Table, id: SharedID): Table
    requires id in m.locks
  {
    var r := m.locks[id];
    m.(counts := m.counts[r := Count(m, r) - 1],
       locks := if Count(m, r) == 1 then m.locks - {id} else m.locks)
  }

  class Memory {
    var locks: map<SharedID, Ref>
    var counts: map<Ref, int>
    var next: nat

    function Value(): Table
      reads this
    {
      Table(locks, counts, next)
    }

    constructor ()
      ensures Value() == Table(map[], map[], 0)
    {
      locks, counts, next := map[], map[], 0;
    }

    method MakeLock(id: SharedID) returns (r: Ref)
      modifies this
      ensures Value() == Made(old(Value()), id) && r == MadeRef(old(Value()), id)
    {
      if id !in locks {
        var created := Ref(next, id);
        next := next + 1;
        counts := counts[created := 0];
        locks := locks[id := created];
      }
      r := locks[id];
      counts := counts[r := (if r in counts then counts[r] else 0) + 1];
    }

    /** Returns nothing where the program panics: there is no lock for the ID. */
    method ReleaseLock(id: SharedID) returns (r: Option<Ref>)
      modifies this
      ensures r == if id in old(locks) then Some(old(locks)[id]) else None
      ensures Value() == if r.Some? then Released(old(Value()), id) else old(Value())
    {
      if id !in locks {
        return None;
      }
      var lock := locks[id];
      counts := counts[lock := (if lock in counts then counts[lock] else 0) - 1];
      if counts[lock] == 0 {
        locks := locks - {id};
      }
      return Some(lock);
    }
  }

  // ---------------------------------------------------------------------------------------
  // Threads.
  // ---------------------------------------------------------------------------------------

  /** A lock object a thread got for an ID. */
  datatype Grip = Grip(id: SharedID, lock: Ref)

  datatype Doing =
    | Nothing
    | Waiting(want: Grip)                  // has the lock object, not the lock
    | Unlocking(undo: Grip, found: Ref)    // about to unlock the object it found
    | Panicked

  /** A call under way: the locks it holds in the order it took them, and the IDs it still is to lock. */
  datatype Call = Call(held: seq<Grip>, doing: Doing, rest: seq<SharedID>)

  const IDLE := Call([], Nothing, [])

  datatype World = World(table: Table, holder: map<Ref, Thread>, calls: map<Thread, Call>)

  datatype Action =
    | Begin(t: Thread, ids: seq<SharedID>)   // Apply, or Get and Indexed with one ID
    | Make(t: Thread)
    | Lock(t: Thread)
    | Fail(t: Thread)                        // an operation on a shared database fails
    | Release(t: Thread)
    | Unlock(t: Thread)

  predicate ByBytes(a: SharedID, b: SharedID) {
    a.bytes <= b.bytes
  }

  ghost predicate EnabledFor(holder: map<Ref, Thread>, c: Call, a: Action) {
    match a
    case Begin(_, ids) => c == IDLE && Distinct(ids)
    case Make(_) => c.doing.Nothing? && c.rest != []
    case Lock(_) => c.doing.Waiting? && c.doing.want.lock !in holder
    case Fail(_) => c.doing.Nothing? && c.held != [] && c.rest != []
    case Release(_) => c.doing.Nothing? && c.held != [] && c.rest == []
    case Unlock(_) => c.doing.Unlocking?
  }

  ghost predicate Enabled(w: World, a: Action) {
    a.t in w.calls && EnabledFor(w.holder, w.calls[a.t], a)
  }

  function Front<T>(s: seq<T>): seq<T>
    requires s != []
  {
    s[..|s| - 1]
  }

  function Last<T>(s: seq<T>): T
    requires s != []
  {
    s[|s| - 1]
  }

  function Await(c: Call, r: Ref): Call
    requires c.rest != []
  {
    c.(doing := Waiting(Grip(c.rest[0], r)), rest := c.rest[1..])
  }

  function Take(c: Call): Call
    requires c.doing.Waiting?
  {
    c.(held := c.held + [c.doing.want], doing := Nothing)
  }

  /** The deferred releases run in the reverse order of the locks. */
  function Undo(c: Call, found: Ref): Call
    requires c.held != []
  {
    c.(held := Front(c.held), doing := Unlocking(Last(c.held), found))
  }

  function CallStep(w: World, a: Action): Call
    requires Enabled(w, a)
  {
    var c := w.calls[a.t];
    match a
    case Begin(_, ids) => c.(rest := Sort(ids, ByBytes))
    case Make(_) => Await(c, MadeRef(w.table, c.rest[0]))
    case Lock(_) => Take(c)
    case Fail(_) => c.(rest := [])
    case Release(_) =>
      if Last(c.held).id !in w.table.locks then c.(doing := Panicked)
      else Undo(c, w.table.locks[Last(c.held).id])
    case Unlock(_) => c.(doing := if c.doing.found !in w.holder then Panicked else Nothing)
  }

  function TableStep(w: World, a: Action): Table
    requires Enabled(w, a)
  {
    var c := w.calls[a.t];
    if a.Make? then Made(w.table, c.rest[0])
    else if a.Release? && Last(c.held).id in w.table.locks then Released(w.table, Last(c.held).id)
    else w.table
  }

  function HolderStep(w: World, a: Action): map<Ref, Thread>
    requires Enabled(w, a)
  {
    var c := w.calls[a.t];
    if a.Lock? then w.holder[c.doing.want.lock := a.t]
    else if a.Unlock? then w.holder - {c.doing.found}
    else w.holder
  }

  function Step(w: World, a: Action): World
    requires Enabled(w, a)
  {
    World(TableStep(w, a), HolderStep(w, a), w.calls[a.t := CallStep(w, a)])
  }

  // ---------------------------------------------------------------------------------------
  // The invariant.
  // ---------------------------------------------------------------------------------------

  function IDs(grips: seq<Grip>): seq<SharedID> {
    seq(|grips|, i requires 0 <= i < |grips| => grips[i].id)
  }

  /** The lock objects a call has between makeLock and releaseLock. */
  function Using(c: Call): seq<Grip> {
    c.held + if c.doing.Waiting? then [c.doing.want] else []
  }

  /** The lock objects a call has between locking and unlocking. */
  function Locked(c: Call): seq<Grip> {
    c.held + if c.doing.Unlocking? then [c.doing.undo] else []
  }

  predicate Uses(c: Call, id: SharedID) {
    id in IDs(Using(c))
  }

  function Users(calls: map<Thread, Call>, id: SharedID): set<Thread> {
    set t | t in calls && Uses(calls[t], id)
  }

  /** All IDs of the call in the order in which it locks them. */
  function Path(c: Call): seq<SharedID> {
    IDs(c.held) + (if c.doing.Waiting? then [c.doing.want.id]
                   else if c.doing.Unlocking? then [c.doing.undo.id] else []) + c.rest
  }

  ghost predicate Increasing(ids: seq<SharedID>) {
    forall i, j :: 0 <= i < j < |ids| ==> ids[i].bytes < ids[j].bytes
  }

  /** A call goes through its IDs in increasing order, unlocks what it locked, and never panics. */
  ghost predicate CallInv(c: Call) {
    && Increasing(Path(c))
    && !c.doing.Panicked?
    && (c.doing.Unlocking? ==> c.doing.found == c.doing.undo.lock && c.rest == [])
    && (forall g :: g in Locked(c) ==> g.lock.owner == g.id)
  }

  ghost predicate CallsInv(calls: map<Thread, Call>) {
    forall t :: t in calls ==> CallInv(calls[t])
  }

  /** An entry exists exactly while it is used, and counts its users; no two IDs share an object. */
  ghost predicate TableInv(m: Table, calls: map<Thread, Call>) {
    && (forall id :: id in m.locks <==> Users(calls, id) != {})
    && (forall id :: id in m.locks ==> Count(m, m.locks[id]) == |Users(calls, id)|)
    && (forall id :: id in m.locks ==> m.locks[id].address < m.next && m.locks[id].owner == id)
  }

  ghost predicate Finds(m: Table, c: Call) {
    forall g :: g in Using(c) ==> g.id in m.locks && g.lock == m.locks[g.id]
  }

  /** All users of an ID have its object. */
  ghost predicate UsersInv(m: Table, calls: map<Thread, Call>) {
    forall t :: t in calls ==> Finds(m, calls[t])
  }

  /** Every locked object is held by exactly the thread that locked it. */
  ghost predicate HoldersInv(holder: map<Ref, Thread>, calls: map<Thread, Call>) {
    && (forall r :: r in holder ==> holder[r] in calls && Grip(r.owner, r) in Locked(calls[holder[r]]))
    && (forall t, g :: t in calls && g in Locked(calls[t]) ==> g.lock in holder && holder[g.lock] == t)
  }

  ghost predicate Inv(w: World) {
    && CallsInv(w.calls)
    && TableInv(w.table, w.calls)
    && UsersInv(w.table, w.calls)
    && HoldersInv(w.holder, w.calls)
  }

  /** Sorting IDs that are all different puts them in increasing order. */
  lemma PlanIncreases(ids: seq<SharedID>)
    requires Distinct(ids)
    ensures Increasing(Sort(ids, ByBytes))
  {
    SortSorts(ids, ByBytes);
    var plan := Sort(ids, ByBytes);
    forall i, j | 0 <= i < j < |plan|
      ensures plan[i].bytes < plan[j].bytes
    {
      if plan[i] == plan[j] {
        TwicePlaced(plan, i, j);
        var a, b := TwoPlaces(ids, plan[i]);
        assert false;
      }
    }
  }

  lemma TwicePlaced(s: seq<SharedID>, i: nat, j: nat)
    requires i < j < |s| && s[i] == s[j]
    ensures multiset(s)[s[i]] >= 2
  {
    assert s == s[..i] + [s[i]] + s[i + 1..j] + [s[j]] + s[j + 1..];
  }

  lemma {:induction false} TwoPlaces(s: seq<SharedID>, x: SharedID) returns (i: nat, j: nat)
    requires multiset(s)[x] >= 2
    ensures i < j < |s| && s[i] == x && s[j] == x
  {
    assert s == [s[0]] + s[1..];
    if s[0] == x {
      assert x in multiset(s[1..]);
      assert x in s[1..];
      i := 0;
      j :| 1 <= j < |s| && s[j] == x;
    } else {
      i, j := TwoPlaces(s[1..], x);
      i, j := i + 1, j + 1;
    }
  }

  lemma PathPrefix(c: Call, c1: Call)
    requires Increasing(Path(c)) && Path(c1) <= Path(c)
    ensures Increasing(Path(c1))
  {
    forall i, j | 0 <= i < j < |Path(c1)|
      ensures Path(c1)[i].bytes < Path(c1)[j].bytes
    {
      assert Path(c1)[i] == Path(c)[i] && Path(c1)[j] == Path(c)[j];
    }
  }

  lemma AwaitKeepsCall(c: Call, r: Ref)
    requires CallInv(c) && c.doing.Nothing? && c.rest != []
    ensures CallInv(Await(c, r))
  {
    assert c.rest == [c.rest[0]] + c.rest[1..];
    assert Path(Await(c, r)) == Path(c);
  }

  lemma TakeKeepsCall(c: Call)
    requires CallInv(c) && c.doing.Waiting? && c.doing.want.lock.owner == c.doing.want.id
    ensures CallInv(Take(c))
  {
    assert IDs(Take(c).held) == IDs(c.held) + [c.doing.want.id];
    assert Path(Take(c)) == Path(c);
    assert Locked(Take(c)) == Locked(c) + [c.doing.want];
  }

  lemma UndoKeepsCall(c: Call)
    requires CallInv(c) && c.doing.Nothing? && c.held != [] && c.rest == []
    ensures CallInv(Undo(c, Last(c.held).lock)) && Locked(Undo(c, Last(c.held).lock)) == Locked(c)
  {
    var c1 := Undo(c, Last(c.held).lock);
    assert IDs(c.held) == IDs(c1.held) + [c1.doing.undo.id];
    assert Path(c1) == Path(c);
    assert Locked(c1) == Locked(c);
  }

  lemma ShorterKeepsCall(c: Call, c1: Call)
    requires CallInv(c) && c1.held == c.held && c1.doing.Nothing? && Path(c1) <= Path(c)
    ensures CallInv(c1)
  {
    PathPrefix(c, c1);
    assert Locked(c1) <= Locked(c);
  }

  /** What a call uses has an entry of its own ID. */
  lemma UsedGrip(w: World, t: Thread, g: Grip)
    requires Inv(w) && t in w.calls && g in Using(w.calls[t])
    ensures g.id in w.table.locks && w.table.locks[g.id] == g.lock && g.lock.owner == g.id
  {
    assert Finds(w.table, w.calls[t]);
  }

  lemma UsersSame(calls: map<Thread, Call>, t: Thread, c: Call, id: SharedID)
    requires t in calls && Using(c) == Using(calls[t])
    ensures Users(calls[t := c], id) == Users(calls, id)
  {
  }

  lemma IDsMore(grips: seq<Grip>, g: Grip, id: SharedID)
    ensures id in IDs(grips + [g]) <==> id in IDs(grips) || id == g.id
  {
    var more := IDs(grips + [g]);
    assert more == IDs(grips) + [g.id];
  }

  /** One more lock object in use by a thread is one more user of its ID. */
  lemma UsersMore(calls: map<Thread, Call>, t: Thread, c: Call, g: Grip, id: SharedID)
    requires t in calls && Using(c) == Using(calls[t]) + [g] && !Uses(calls[t], g.id)
    ensures t !in Users(calls, g.id)
    ensures Users(calls[t := c], id) == if id == g.id then Users(calls, id) + {t} else Users(calls, id)
  {
    IDsMore(Using(calls[t]), g, id);
  }

  lemma MakeKeepsTable(m: Table, calls: map<Thread, Call>, t: Thread, c: Call, id: SharedID)
    requires TableInv(m, calls) && t in calls && !Uses(calls[t], id)
    requires Using(c) == Using(calls[t]) + [Grip(id, MadeRef(m, id))]
    ensures TableInv(Made(m, id), calls[t := c])
  {
    hide Users, Uses, Using;
    var m1, calls1 := Made(m, id), calls[t := c];
    forall id'
      ensures id' in m1.locks <==> Users(calls1, id') != {}
      ensures id' in m1.locks ==> Count(m1, m1.locks[id']) == |Users(calls1, id')|
    {
      UsersMore(calls, t, c, Grip(id, MadeRef(m, id)), id');
      assert id' !in m.locks ==> Users(calls, id') == {};
    }
  }

  lemma MakeKeepsUsers(m: Table, calls: map<Thread, Call>, t: Thread, c: Call, id: SharedID)
    requires UsersInv(m, calls) && t in calls
    requires Using(c) == Using(calls[t]) + [Grip(id, MadeRef(m, id))]
    ensures UsersInv(Made(m, id), calls[t := c])
  {
    forall u | u in calls
      ensures Finds(Made(m, id), calls[u])
    {
      assert Finds(m, calls[u]);
    }
  }

  lemma LastUser(users: set<Thread>, t: Thread)
    requires t in users
    ensures |users - {t}| == |users| - 1
    ensures |users| == 1 <==> users - {t} == {}
  {
  }

  lemma ReleaseUsers(calls: map<Thread, Call>, t: Thread, c: Call, g: Grip, id: SharedID)
    requires t in calls && Using(calls[t]) == Using(c) + [g] && !Uses(c, g.id)
    ensures t in Users(calls, g.id)
    ensures Users(calls[t := c], id) == if id == g.id then Users(calls, id) - {t} else Users(calls, id)
  {
    var calls1 := calls[t := c];
    UsersMore(calls1, t, calls[t], g, id);
    UsersMore(calls1, t, calls[t], g, g.id);
    assert calls1[t := calls[t]] == calls;
  }

  lemma ReleaseKeepsTable(m: Table, calls: map<Thread, Call>, t: Thread, c: Call, g: Grip)
    requires TableInv(m, calls) && t in calls && g.id in m.locks
    requires Using(calls[t]) == Using(c) + [g] && !Uses(c, g.id)
    ensures TableInv(Released(m, g.id), calls[t := c])
  {
    hide Users;
    var m1, calls1 := Released(m, g.id), calls[t := c];
    forall id'
      ensures id' in m1.locks <==> Users(calls1, id') != {}
      ensures id' in m1.locks ==> Count(m1, m1.locks[id']) == |Users(calls1, id')|
    {
      ReleaseUsers(calls, t, c, g, id');
      if id' == g.id {
        LastUser(Users(calls, g.id), t);
      }
    }
  }

  lemma UsesGrip(c: Call, h: Grip)
    requires h in Using(c)
    ensures Uses(c, h.id)
  {
    var i :| 0 <= i < |Using(c)| && Using(c)[i] == h;
    assert IDs(Using(c))[i] == h.id;
  }

  lemma ReleaseFinds(m: Table, calls: map<Thread, Call>, t: Thread, c: Call, g: Grip, u: Thread)
    requires TableInv(m, calls) && UsersInv(m, calls) && t in calls && u in calls && g.id in m.locks
    requires Using(calls[t]) == Using(c) + [g] && !Uses(c, g.id)
    ensures Finds(Released(m, g.id), calls[t := c][u])
  {
    hide Using, Uses;
    ReleaseUsers(calls, t, c, g, g.id);
    LastUser(Users(calls, g.id), t);
    var used := calls[t := c][u];
    forall h | h in Using(used)
      ensures h.id in Released(m, g.id).locks && h.lock == m.locks[h.id]
    {
      assert Finds(m, calls[u]) && h in Using(calls[u]);
      UsesGrip(used, h);
      assert h.id == g.id ==> u in Users(calls, g.id) - {t};
    }
  }

  /** The entry is gone only when no other thread has its object, so the rest still find theirs. */
  lemma ReleaseKeepsUsers(m: Table, calls: map<Thread, Call>, t: Thread, c: Call, g: Grip)
    requires TableInv(m, calls) && UsersInv(m, calls) && t in calls && g.id in m.locks
    requires Using(calls[t]) == Using(c) + [g] && !Uses(c, g.id)
    ensures UsersInv(Released(m, g.id), calls[t := c])
  {
    hide TableInv, Finds, Users, Using, Uses, Released;
    var calls1 := calls[t := c];
    forall u | u in calls1
      ensures Finds(Released(m, g.id), calls1[u])
    {
      ReleaseFinds(m, calls, t, c, g, u);
    }
  }

  lemma SameHolders(holder: map<Ref, Thread>, calls: map<Thread, Call>, t: Thread, c: Call)
    requires HoldersInv(holder, calls) && t in calls && Locked(c) == Locked(calls[t])
    ensures HoldersInv(holder, calls[t := c])
  {
  }

  lemma LockKeepsHolders(holder: map<Ref, Thread>, calls: map<Thread, Call>, t: Thread, c: Call, g: Grip)
    requires HoldersInv(holder, calls) && t in calls && g.lock !in holder && g.lock.owner == g.id
    requires Locked(c) == Locked(calls[t]) + [g]
    ensures HoldersInv(holder[g.lock := t], calls[t := c])
  {
    var holder1, calls1 := holder[g.lock := t], calls[t := c];
    forall r | r in holder1
      ensures holder1[r] in calls1 && Grip(r.owner, r) in Locked(calls1[holder1[r]])
    {
      assert r == g.lock ==> Grip(r.owner, r) == g && g in Locked(c);
      assert r != g.lock ==> Grip(r.owner, r) in Locked(calls[holder[r]]);
    }
  }

  lemma UnlockKeepsHolders(holder: map<Ref, Thread>, calls: map<Thread, Call>, t: Thread, c: Call, g: Grip)
    requires HoldersInv(holder, calls) && t in calls
    requires Locked(calls[t]) == Locked(c) + [g] && forall h :: h in Locked(c) ==> h.lock != g.lock
    ensures g.lock in holder && HoldersInv(holder - {g.lock}, calls[t := c])
  {
    hide Locked;
    assert g in Locked(calls[t]);
    var holder1, calls1 := holder - {g.lock}, calls[t := c];
    forall r | r in holder1
      ensures holder1[r] in calls1 && Grip(r.owner, r) in Locked(calls1[holder1[r]])
    {
      assert Grip(r.owner, r) in Locked(calls[holder[r]]);
    }
  }

  /** No ID on the path comes twice. */
  lemma IsNew(c: Call, grips: seq<Grip>, id: SharedID)
    requires Increasing(Path(c)) && IDs(grips) + [id] <= Path(c)
    ensures id !in IDs(grips)
  {
    var n := |grips|;
    assert Path(c)[n] == (IDs(grips) + [id])[n] == id;
    forall i | 0 <= i < n
      ensures IDs(grips)[i] != id
    {
      assert Path(c)[i] == (IDs(grips) + [id])[i] == IDs(grips)[i];
    }
  }

  lemma NextIsNew(c: Call)
    requires CallInv(c) && c.doing.Nothing? && c.rest != []
    ensures !Uses(c, c.rest[0])
  {
    assert Using(c) == c.held;
    IsNew(c, c.held, c.rest[0]);
  }

  lemma LastIsNew(c: Call)
    requires CallInv(c) && c.doing.Nothing? && c.held != []
    ensures !Uses(Undo(c, Last(c.held).lock), Last(c.held).id)
  {
    assert Using(Undo(c, Last(c.held).lock)) == Front(c.held);
    assert IDs(c.held) == IDs(Front(c.held)) + [Last(c.held).id];
    IsNew(c, Front(c.held), Last(c.held).id);
  }

  lemma UndoneIsNew(c: Call)
    requires CallInv(c) && c.doing.Unlocking?
    ensures c.doing.found == c.doing.undo.lock && c.rest == []
    ensures forall h :: h in c.held ==> h.lock != c.doing.undo.lock
  {
    var g := c.doing.undo;
    IsNew(c, c.held, g.id);
    assert g in Locked(c);
    forall h | h in c.held
      ensures h.lock != g.lock
    {
      var i :| 0 <= i < |c.held| && c.held[i] == h;
      assert IDs(c.held)[i] == h.id && h in Locked(c);
    }
  }

  lemma SameUsers(m: Table, calls: map<Thread, Call>, t: Thread, c: Call)
    requires TableInv(m, calls) && UsersInv(m, calls) && t in calls && Using(c) == Using(calls[t])
    ensures TableInv(m, calls[t := c]) && UsersInv(m, calls[t := c])
  {
    forall id {
      UsersSame(calls, t, c, id);
    }
    assert Finds(m, calls[t]);
  }

  lemma BeginsCall(ids: seq<SharedID>)
    requires Distinct(ids)
    ensures CallInv(IDLE.(rest := Sort(ids, ByBytes)))
  {
    hide Sort;
    PlanIncreases(ids);
    var c := IDLE.(rest := Sort(ids, ByBytes));
    assert Path(c) == c.rest;
  }

  lemma StepKeepsInv(w: World, a: Action)
    requires Inv(w) && Enabled(w, a)
    ensures Inv(Step(w, a))
  {
    hide TableInv, UsersInv, HoldersInv, CallInv, Made, MadeRef, Released, Sort, Distinct;
    var c := w.calls[a.t];
    match a
    case Begin(_, ids) =>
      BeginsCall(ids);
      SameUsers(w.table, w.calls, a.t, CallStep(w, a));
      SameHolders(w.holder, w.calls, a.t, CallStep(w, a));
    case Make(_) =>
      var id, r := c.rest[0], MadeRef(w.table, c.rest[0]);
      AwaitKeepsCall(c, r);
      NextIsNew(c);
      MakeKeepsTable(w.table, w.calls, a.t, Await(c, r), id);
      MakeKeepsUsers(w.table, w.calls, a.t, Await(c, r), id);
      SameHolders(w.holder, w.calls, a.t, Await(c, r));
    case Lock(_) =>
      UsedGrip(w, a.t, c.doing.want);
      TakeKeepsCall(c);
      SameUsers(w.table, w.calls, a.t, Take(c));
      LockKeepsHolders(w.holder, w.calls, a.t, Take(c), c.doing.want);
    case Fail(_) =>
      var c1 := c.(rest := []);
      ShorterKeepsCall(c, c1);
      SameUsers(w.table, w.calls, a.t, c1);
      SameHolders(w.holder, w.calls, a.t, c1);
    case Release(_) =>
      var g := Last(c.held);
      UsedGrip(w, a.t, g);
      var c1 := Undo(c, g.lock);
      UndoKeepsCall(c);
      LastIsNew(c);
      assert Using(c) == Using(c1) + [g];
      ReleaseKeepsTable(w.table, w.calls, a.t, c1, g);
      ReleaseKeepsUsers(w.table, w.calls, a.t, c1, g);
      SameHolders(w.holder, w.calls, a.t, c1);
    case Unlock(_) =>
      var c1 := c.(doing := Nothing);
      UndoneIsNew(c);
      UnlockKeepsHolders(w.holder, w.calls, a.t, c1, c.doing.undo);
      assert Path(c1) <= Path(c);
      ShorterKeepsCall(c, c1);
      SameUsers(w.table, w.calls, a.t, c1);
  }

  // ---------------------------------------------------------------------------------------
  // Whole runs.
  // ---------------------------------------------------------------------------------------

  function Start(threads: set<Thread>): World {
    World(Table(map[], map[], 0), map[], map t | t in threads :: IDLE)
  }

  ghost predicate Goes(w: World, a: Action, w1: World) {
    Enabled(w, a) && w1 == Step(w, a)
  }

  ghost predicate IsRun(threads: set<Thread>, trace: seq<World>, actions: seq<Action>) {
    && |trace| == |actions| + 1
    && trace[0] == Start(threads)
    && forall i {:trigger actions[i]} :: 0 <= i < |actions| ==> Goes(trace[i], actions[i], trace[i + 1])
  }

  lemma StartInv(threads: set<Thread>)
    ensures Inv(Start(threads))
  {
    var w := Start(threads);
    forall id ensures Users(w.calls, id) == {} {
    }
  }

  lemma {:induction false} RunKeepsInv(threads: set<Thread>, trace: seq<World>, actions: seq<Action>, i: nat)
    requires IsRun(threads, trace, actions) && i < |trace|
    ensures Inv(trace[i])
  {
    if i == 0 {
      StartInv(threads);
    } else {
      RunKeepsInv(threads, trace, actions, i - 1);
      assert Goes(trace[i - 1], actions[i - 1], trace[i]);
      StepKeepsInv(trace[i - 1], actions[i - 1]);
    }
  }

  /** The thread is between the return of GetSharedDatabase and the call of ReleaseSharedDatabase. */
  predicate HasDatabase(w: World, t: Thread, id: SharedID) {
    t in w.calls && id in IDs(w.calls[t].held)
  }

  lemma HeldGrip(held: seq<Grip>, id: SharedID) returns (g: Grip)
    requires id in IDs(held)
    ensures g in held && g.id == id
  {
    var i :| 0 <= i < |IDs(held)| && IDs(held)[i] == id;
    g := held[i];
  }

  /** In every interleaving, at most one thread has the database of a shared ID at a time. */
  lemma MutualExclusion(threads: set<Thread>, trace: seq<World>, actions: seq<Action>, i: nat, id: SharedID,
      t: Thread, u: Thread)
    requires IsRun(threads, trace, actions) && i < |trace|
    requires HasDatabase(trace[i], t, id) && HasDatabase(trace[i], u, id)
    ensures t == u
  {
    RunKeepsInv(threads, trace, actions, i);
    var w := trace[i];
    var g := HeldGrip(w.calls[t].held, id);
    var h := HeldGrip(w.calls[u].held, id);
    UsedGrip(w, t, g);
    UsedGrip(w, u, h);
    assert g in Locked(w.calls[t]) && h in Locked(w.calls[u]);
  }

  /**
   In every interleaving, the stored count of an ID is the number of threads between making and releasing its lock,
   and all of these have the stored object.
   */
  lemma CountsAreExact(threads: set<Thread>, trace: seq<World>, actions: seq<Action>, i: nat, id: SharedID)
    requires IsRun(threads, trace, actions) && i < |trace|
    ensures var w := trace[i];
      && (id in w.table.locks <==> Users(w.calls, id) != {})
      && (id in w.table.locks ==> Count(w.table, w.table.locks[id]) == |Users(w.calls, id)|)
      && (forall t, g :: t in w.calls && g in Using(w.calls[t]) && g.id == id ==>
            id in w.table.locks && g.lock == w.table.locks[id])
  {
    RunKeepsInv(threads, trace, actions, i);
    var w := trace[i];
    forall t, g | t in w.calls && g in Using(w.calls[t]) && g.id == id
      ensures id in w.table.locks && g.lock == w.table.locks[id]
    {
      UsedGrip(w, t, g);
    }
  }

  /** In every interleaving, releasing finds an entry and unlocks the object that was locked; nothing panics. */
  lemma ReleaseIsAcquire(threads: set<Thread>, trace: seq<World>, actions: seq<Action>, i: nat, t: Thread)
    requires IsRun(threads, trace, actions) && i < |trace| && t in trace[i].calls
    ensures var w := trace[i]; var c := w.calls[t];
      && !c.doing.Panicked?
      && (forall g :: g in c.held ==> g.id in w.table.locks && w.table.locks[g.id] == g.lock)
      && (c.doing.Unlocking? ==> c.doing.found == c.doing.undo.lock)
      && (forall g :: g in Locked(c) ==> g.lock in w.holder && w.holder[g.lock] == t)
  {
    RunKeepsInv(threads, trace, actions, i);
    var w := trace[i];
    assert CallInv(w.calls[t]);
    forall g | g in w.calls[t].held
      ensures g.id in w.table.locks && w.table.locks[g.id] == g.lock
    {
      assert g in Using(w.calls[t]);
      UsedGrip(w, t, g);
    }
  }

  // ---------------------------------------------------------------------------------------
  // No deadlock.
  // ---------------------------------------------------------------------------------------

  /** The threads that wait for an ID above the given one. */
  function WaitAbove(calls: map<Thread, Call>, id: SharedID): set<Thread> {
    set t | t in calls && calls[t].doing.Waiting? && id.bytes < calls[t].doing.want.id.bytes
  }

  /** A call under way that is not blocked on a lock has a step of its own. */
  lemma FreeCallGoes(w: World, t: Thread) returns (a: Action)
    requires t in w.calls && w.calls[t] != IDLE && !w.calls[t].doing.Panicked?
    requires w.calls[t].doing.Waiting? ==> w.calls[t].doing.want.lock !in w.holder
    ensures a.t == t && !a.Begin? && Enabled(w, a)
  {
    var c := w.calls[t];
    if c.doing.Waiting? {
      a := Lock(t);
    } else if c.doing.Unlocking? {
      a := Unlock(t);
    } else if c.rest != [] {
      a := Make(t);
    } else {
      a := Release(t);
    }
  }

  /** A thread that holds the lock of an ID and waits, waits for an ID above it. */
  lemma HolderWaitsAbove(w: World, r: Ref, id: SharedID)
    requires Inv(w) && r in w.holder && r.owner == id
    requires w.calls[w.holder[r]].doing.Waiting?
    ensures id.bytes < w.calls[w.holder[r]].doing.want.id.bytes
  {
    var c := w.calls[w.holder[r]];
    assert CallInv(c) && Grip(id, r) in Locked(c);
    var i :| 0 <= i < |c.held| && c.held[i] == Grip(id, r);
    assert Path(c)[i] == id && Path(c)[|c.held|] == c.doing.want.id;
  }

  /** As long as a call is under way, some call under way has a step, however many threads wait for one another. */
  lemma SomeCallGoes(w: World, t: Thread) returns (a: Action)
    requires Inv(w) && t in w.calls && w.calls[t] != IDLE
    ensures Enabled(w, a) && !a.Begin? && w.calls[a.t] != IDLE
    decreases if w.calls[t].doing.Waiting? then WaitAbove(w.calls, w.calls[t].doing.want.id) else w.calls.Keys
  {
    var c := w.calls[t];
    assert CallInv(c);
    if c.doing.Waiting? && c.doing.want.lock in w.holder {
      var r := c.doing.want.lock;
      assert c.doing.want in Using(c);
      UsedGrip(w, t, c.doing.want);
      var u := w.holder[r];
      assert w.calls[u] != IDLE && CallInv(w.calls[u]);
      if w.calls[u].doing.Waiting? {
        HolderWaitsAbove(w, r, c.doing.want.id);
        assert u in WaitAbove(w.calls, c.doing.want.id);
        a := SomeCallGoes(w, u);
      } else {
        a := FreeCallGoes(w, u);
      }
    } else {
      a := FreeCallGoes(w, t);
    }
  }

  /** In every interleaving, unless all threads are idle, one that is not can take its next step. */
  lemma NoDeadlock(threads: set<Thread>, trace: seq<World>, actions: seq<Action>, i: nat)
    requires IsRun(threads, trace, actions) && i < |trace|
    ensures (exists t :: t in trace[i].calls && trace[i].calls[t] != IDLE) ==>
      exists a :: Enabled(trace[i], a) && !a.Begin?
  {
    RunKeepsInv(threads, trace, actions, i);
    if t :| t in trace[i].calls && trace[i].calls[t] != IDLE {
      var a := SomeCallGoes(trace[i], t);
    }
  }

  // ---------------------------------------------------------------------------------------
  // Every call returns.
  // ---------------------------------------------------------------------------------------

  /** The steps a call has left, if it does not fail. */
  function Work(c: Call): nat {
    4 * |c.rest| + 2 * |c.held| + if c.doing.Waiting? then 3 else if c.doing.Unlocking? then 1 else 0
  }

  ghost function Total(calls: map<Thread, Call>): nat
    decreases |calls.Keys|
  {
    if calls.Keys == {} then 0
    else var t := AnyOf(calls.Keys); Work(calls[t]) + Total(calls - {t})
  }

  ghost function AnyOf(threads: set<Thread>): (t: Thread)
    requires threads != {}
    ensures t in threads
  {
    var t :| t in threads; t
  }

  lemma TotalOpens(calls: map<Thread, Call>)
    requires calls.Keys != {}
    ensures var t := AnyOf(calls.Keys); Total(calls) == Work(calls[t]) + Total(calls - {t})
  {
  }

  lemma {:induction false} TotalSplit(calls: map<Thread, Call>, t: Thread)
    requires t in calls
    ensures Total(calls) == Work(calls[t]) + Total(calls - {t})
    decreases |calls.Keys|
  {
    hide Total, Work, AnyOf;
    TotalOpens(calls);
    var u := AnyOf(calls.Keys);
    if u != t {
      var calls1 := calls - {u};
      assert calls1.Keys == calls.Keys - {u};
      TotalSplit(calls1, t);
      assert (calls - {t}).Keys == calls.Keys - {t};
      TotalSplit(calls - {t}, u);
      assert calls1 - {t} == (calls - {t}) - {u};
    }
  }

  lemma CallWorks(w: World, a: Action)
    requires Enabled(w, a) && !a.Begin? && !CallStep(w, a).doing.Panicked?
    ensures Work(CallStep(w, a)) < Work(w.calls[a.t])
  {
  }

  lemma TotalDrops(calls: map<Thread, Call>, t: Thread, c: Call)
    requires t in calls && Work(c) < Work(calls[t])
    ensures Total(calls[t := c]) < Total(calls)
  {
    TotalSplit(calls, t);
    TotalSplit(calls[t := c], t);
    assert calls[t := c] - {t} == calls - {t};
  }

  /** Every step of a call, an error included, brings its return nearer. */
  lemma StepWorks(w: World, a: Action)
    requires Inv(w) && Enabled(w, a) && !a.Begin?
    ensures Total(Step(w, a).calls) < Total(w.calls)
  {
    hide TableInv, UsersInv, HoldersInv, CallStep, Work, Total, EnabledFor;
    StepKeepsInv(w, a);
    assert CallInv(Step(w, a).calls[a.t]);
    CallWorks(w, a);
    TotalDrops(w.calls, a.t, CallStep(w, a));
  }

  /** Steps of calls already under way, from any world. */
  ghost predicate Continues(trace: seq<World>, actions: seq<Action>) {
    && |trace| == |actions| + 1
    && forall i {:trigger actions[i]} :: 0 <= i < |actions| ==>
         Goes(trace[i], actions[i], trace[i + 1]) && !actions[i].Begin?
  }

  lemma {:induction false} WorkRunsOut(trace: seq<World>, actions: seq<Action>, i: nat)
    requires Continues(trace, actions) && Inv(trace[0]) && i <= |actions|
    ensures Inv(trace[i]) && i + Total(trace[i].calls) <= Total(trace[0].calls)
  {
    hide Inv, Total, Step, Enabled;
    if i > 0 {
      WorkRunsOut(trace, actions, i - 1);
      assert Goes(trace[i - 1], actions[i - 1], trace[i]) && !actions[i - 1].Begin?;
      StepKeepsInv(trace[i - 1], actions[i - 1]);
      StepWorks(trace[i - 1], actions[i - 1]);
    }
  }

  /**
   After any run, the calls under way take a bounded number of steps however they are interleaved, and when none of
   them has a step left, all have returned.
   */
  lemma AllCallsReturn(threads: set<Thread>, trace: seq<World>, actions: seq<Action>, more: seq<World>,
      steps: seq<Action>)
    requires IsRun(threads, trace, actions) && Continues(more, steps) && more[0] == trace[|actions|]
    ensures |steps| <= Total(more[0].calls)
    ensures (forall a :: Enabled(more[|steps|], a) ==> a.Begin?) ==>
      forall t :: t in more[|steps|].calls ==> more[|steps|].calls[t] == IDLE
  {
    RunKeepsInv(threads, trace, actions, |actions|);
    WorkRunsOut(more, steps, |steps|);
    var w := more[|steps|];
    if t :| t in w.calls && w.calls[t] != IDLE {
      var a := SomeCallGoes(w, t);
    }
  }

  // ---------------------------------------------------------------------------------------
  // A call takes all its locks.
  // ---------------------------------------------------------------------------------------

  /** One step of a call that neither fails nor gives anything back leaves its way the same. */
  lemma StepKeepsPath(w: World, a: Action)
    requires Enabled(w, a) && (a.Make? || a.Lock?)
    ensures Path(Step(w, a).calls[a.t]) == Path(w.calls[a.t])
  {
    var c, c1 := w.calls[a.t], Step(w, a).calls[a.t];
    if a.Make? {
      assert c.rest == [c.rest[0]] + c.rest[1..];
      assert IDs(c.held) + [] + c.rest == IDs(c.held) + [c.rest[0]] + c.rest[1..];
    } else {
      assert IDs(c1.held) == IDs(c.held) + [c.doing.want.id];
      assert IDs(c1.held) + [] + c1.rest == IDs(c.held) + [c.doing.want.id] + c.rest;
    }
  }

  /** Between its begin and its first release, a call that does not fail has its IDs before it and behind it. */
  lemma {:induction false} CallKeepsPlan(threads: set<Thread>, trace: seq<World>, actions: seq<Action>, i: nat, j: nat,
      t: Thread, ids: seq<SharedID>)
    requires IsRun(threads, trace, actions) && i < j < |trace| && actions[i] == Begin(t, ids)
    requires forall k :: i < k < j && actions[k].t == t ==> actions[k].Make? || actions[k].Lock?
    ensures t in trace[j].calls && Path(trace[j].calls[t]) == Sort(ids, ByBytes)
    decreases j
  {
    hide Enabled, Sort, Path;
    var w, a := trace[j - 1], actions[j - 1];
    assert Goes(w, a, trace[j]);
    if i == j - 1 {
      BeginIsPlan(w, t, ids);
    } else {
      CallKeepsPlan(threads, trace, actions, i, j - 1, t, ids);
      if a.t == t {
        StepKeepsPath(w, a);
      }
    }
  }

  lemma BeginIsPlan(w: World, t: Thread, ids: seq<SharedID>)
    requires Enabled(w, Begin(t, ids))
    ensures Path(Step(w, Begin(t, ids)).calls[t]) == Sort(ids, ByBytes)
  {
    hide Sort;
    var plan := Sort(ids, ByBytes);
    assert IDs([]) + [] + plan == plan;
  }

  /** When a call that did not fail begins to give its locks back, it holds one for each of its IDs, and no other. */
  lemma CallTakesItsLocks(threads: set<Thread>, trace: seq<World>, actions: seq<Action>, i: nat, j: nat, t: Thread,
      ids: seq<SharedID>)
    requires IsRun(threads, trace, actions) && i < j < |actions|
    requires actions[i] == Begin(t, ids) && actions[j] == Release(t)
    requires forall k :: i < k < j && actions[k].t == t ==> actions[k].Make? || actions[k].Lock?
    ensures t in trace[j].calls && multiset(IDs(trace[j].calls[t].held)) == multiset(ids)
    ensures forall id :: id in ids ==> HasDatabase(trace[j], t, id)
  {
    hide Sort;
    CallKeepsPlan(threads, trace, actions, i, j, t, ids);
    assert Goes(trace[j], actions[j], trace[j + 1]);
    var c := trace[j].calls[t];
    assert IDs(c.held) + [] + [] == IDs(c.held);
    SortSorts(ids, ByBytes);
    forall id | id in ids
      ensures id in IDs(c.held)
    {
      assert id in multiset(ids);
      assert id in multiset(IDs(c.held));
    }
  }
}
