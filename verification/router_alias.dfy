/**
 When adding aliases succeeds, and what it leaves behind when it does not: every alias gets every endpoint either way,
 and the aliases agree with their base unless one of them had an endpoint of the base under another handler.
 */
module RouterAlias {
  import opened Collections
  import opened RouterModel
  import opened RouterReach
  import opened Wrappers

  // ---------------------------------------------------------------------------------------
  // Success.
  // ---------------------------------------------------------------------------------------

  /** The two tables agree on an endpoint. */
  ghost predicate SameAt(r: Routes, r': Routes, e: Endpoint) {
    forall b :: (Has(r, b, e) <==> Has(r', b, e)) && (Has(r, b, e) ==> r'[b][e] == r[b][e])
  }

  lemma AddsOthers(r: Routes, r': Routes, x: Endpoint, h: Handler, e: Endpoint)
    requires OnlyAdds(r, r', x, h) && x != e
    ensures SameAt(r, r', e)
  {
    forall b
      ensures Has(r, b, e) <==> Has(r', b, e)
    {
      assert Has(r', b, e) && !Has(r, b, e) ==> Added(r, r', b, e);
    }
  }

  lemma SameTwice(r: Routes, r': Routes, r'': Routes, e: Endpoint)
    requires SameAt(r, r', e) && SameAt(r', r'', e)
    ensures SameAt(r, r'', e)
  {
  }

  lemma SameAddable(r: Routes, r': Routes, aliases: Aliases, list: seq<Base>, e: Endpoint)
    requires SameAt(r, r', e)
    ensures AllAddable(r, aliases, list, e) <==> AllAddable(r', aliases, list, e)
  {
    hide Has, Reaches, Once;
    assert forall b :: Has(r, b, e) <==> Has(r', b, e);
    assert forall i :: 0 <= i < |list| ==> (Addable(r, aliases, list[i], e) <==> Addable(r', aliases, list[i], e));
  }

  /** Other endpoints are left alone. */
  lemma {:induction false} EachLeaves(r: Routes, aliases: Aliases, all: set<Base>, list: seq<Base>,
      order: seq<Endpoint>, handlers: map<Endpoint, Handler>, e: Endpoint)
    requires (forall a :: a in list ==> a in all) && Covers(all, aliases) && e !in order
    requires forall x :: x in order ==> x in handlers
    ensures SameAt(r, ForceAddEach(r, aliases, all, list, order, handlers).routes, e)
  {
    if order != [] {
      var rest, x := order[..|order| - 1], order[|order| - 1];
      EachLeaves(r, aliases, all, list, rest, handlers, e);
      var front := ForceAddEach(r, aliases, all, list, rest, handlers);
      ForceAddAllAdds(front.routes, aliases, all, list, x, handlers[x]);
      var last := ForceAddAll(front.routes, aliases, all, list, x, handlers[x]);
      AddsOthers(front.routes, last.routes, x, handlers[x], e);
      SameTwice(r, front.routes, last.routes, e);
    }
  }

  lemma {:induction false} ForceAddEachSucceedsIff(r: Routes, aliases: Aliases, all: set<Base>, list: seq<Base>,
      order: seq<Endpoint>, handlers: map<Endpoint, Handler>)
    requires (forall a :: a in list ==> a in all) && Covers(all, aliases) && Distinct(order)
    requires forall x :: x in order ==> x in handlers
    ensures ForceAddEach(r, aliases, all, list, order, handlers).ok <==>
      forall e :: e in order ==> AllAddable(r, aliases, list, e)
  {
    hide AllAddable, SameAt;
    if order != [] {
      var rest, e := order[..|order| - 1], order[|order| - 1];
      assert order == rest + [e] && e !in rest;
      ForceAddEachSucceedsIff(r, aliases, all, list, rest, handlers);
      var front := ForceAddEach(r, aliases, all, list, rest, handlers);
      EachLeaves(r, aliases, all, list, rest, handlers, e);
      SameAddable(r, front.routes, aliases, list, e);
      ForceAddAllSucceedsIff(front.routes, aliases, all, list, e, handlers[e]);
    }
  }

  /** Adding aliases succeeds exactly when none is reserved and every endpoint of the base can be added to all. */
  lemma AddAliasSucceedsIff(s: Router, base: Base, added: seq<Base>, order: seq<Endpoint>)
    requires Enumerates(order, Endpoints(s.routes, base))
    ensures AddAlias(s, base, added, order).1 <==>
      && (forall a :: a in added ==> a !in s.reserved)
      && forall e :: e in Endpoints(s.routes, base) ==>
           AllAddable(s.routes, WithAliases(s.aliases, base, added), added, e)
  {
    hide AllAddable, ForceAddEach;
    ForceAddEachSucceedsIff(s.routes, WithAliases(s.aliases, base, added), AliasUniverse(s.aliases, base, added), added,
                            order, Endpoints(s.routes, base));
  }

  // ---------------------------------------------------------------------------------------
  // What is left behind, whether it succeeds or not.
  // ---------------------------------------------------------------------------------------

  /** With every base that has the endpoint all its aliases have it, except for the aliases of `open`. */
  ghost predicate ClosedBut(r: Routes, aliases: Aliases, e: Endpoint, open: set<Base>) {
    forall b, a :: Has(r, b, e) && b !in open && a in AliasesOf(aliases, b) ==> Has(r, a, e)
  }

  lemma {:induction false} ForceAddCloses(r: Routes, aliases: Aliases, all: set<Base>, base: Base, e: Endpoint,
      h: Handler, open: set<Base>)
    requires base in all && Covers(all, aliases) && ClosedBut(r, aliases, e, open)
    ensures var o := ForceAdd(r, aliases, all, base, e, h);
      Has(o.routes, base, e) && ClosedBut(o.routes, aliases, e, open)
    decreases Lacking(r, all, e), 0
  {
    if !Has(r, base, e) {
      var r' := Bind(r, base, e, h);
      BindKeeps(r, all, base, e, h);
      BindCloses(r, aliases, base, e, h, open);
      ForceAddAllCloses(r', aliases, all, AliasesOf(aliases, base), e, h, open + {base});
    }
  }

  lemma BindCloses(r: Routes, aliases: Aliases, base: Base, e: Endpoint, h: Handler, open: set<Base>)
    requires ClosedBut(r, aliases, e, open)
    ensures ClosedBut(Bind(r, base, e, h), aliases, e, open + {base}) && Has(Bind(r, base, e, h), base, e)
  {
    hide Has, Bind;
    HasAfterBind(r, base, e, h, base);
    forall b, a | Has(Bind(r, base, e, h), b, e) && b !in open + {base} && a in AliasesOf(aliases, b)
      ensures Has(Bind(r, base, e, h), a, e)
    {
      HasAfterBind(r, base, e, h, b);
      HasAfterBind(r, base, e, h, a);
    }
  }

  lemma {:induction false} ForceAddAllCloses(r: Routes, aliases: Aliases, all: set<Base>, list: seq<Base>, e: Endpoint,
      h: Handler, open: set<Base>)
    requires (forall a :: a in list ==> a in all) && Covers(all, aliases) && ClosedBut(r, aliases, e, open)
    ensures var o := ForceAddAll(r, aliases, all, list, e, h);
      (forall a :: a in list ==> Has(o.routes, a, e)) && ClosedBut(o.routes, aliases, e, open)
    decreases Lacking(r, all, e), 1 + |list|
  {
    if list != [] {
      var rest, last := list[..|list| - 1], list[|list| - 1];
      assert list == rest + [last];
      ForceAddAllCloses(r, aliases, all, rest, e, h, open);
      var front := ForceAddAll(r, aliases, all, rest, e, h);
      KeptLacks(r, front.routes, all, e);
      ForceAddCloses(front.routes, aliases, all, last, e, h, open);
    }
  }

  /** What adding one endpoint to a list of aliases comes to, success or not. */
  ghost predicate Done(r: Routes, r': Routes, aliases: Aliases, base: Base, list: seq<Base>, e: Endpoint, h: Handler) {
    && (forall a :: a in list ==> Has(r', a, e))
    && ClosedBut(r', aliases, e, {base})
    && (forall b :: Has(r, b, e) ==> Has(r', b, e) && r'[b][e] == r[b][e])
    && (forall b :: Added(r, r', b, e) ==> r'[b][e] == h && ReachedFrom(aliases, list, b))
  }

  lemma AllDone(r: Routes, aliases: Aliases, all: set<Base>, base: Base, list: seq<Base>, e: Endpoint, h: Handler)
    requires (forall a :: a in list ==> a in all) && Covers(all, aliases) && ClosedBut(r, aliases, e, {base})
    ensures Done(r, ForceAddAll(r, aliases, all, list, e, h).routes, aliases, base, list, e, h)
  {
    hide ForceAddAll, ReachedFrom;
    var r' := ForceAddAll(r, aliases, all, list, e, h).routes;
    ForceAddAllCloses(r, aliases, all, list, e, h, {base});
    ForceAddAllAdds(r, aliases, all, list, e, h);
    forall b | Added(r, r', b, e)
      ensures ReachedFrom(aliases, list, b)
    {
      AllAddedIsReached(r, aliases, all, list, e, h, b);
    }
  }

  lemma SameDone(r: Routes, r': Routes, q: Routes, q': Routes, aliases: Aliases, base: Base, list: seq<Base>,
      e: Endpoint, h: Handler)
    requires SameAt(r, q, e) && SameAt(r', q', e) && Done(r, r', aliases, base, list, e, h)
    ensures Done(q, q', aliases, base, list, e, h)
  {
    hide Has, ReachedFrom;
  }

  lemma SameClosed(r: Routes, q: Routes, aliases: Aliases, e: Endpoint, open: set<Base>)
    requires SameAt(r, q, e) && ClosedBut(r, aliases, e, open)
    ensures ClosedBut(q, aliases, e, open)
  {
    hide Has;
  }

  lemma SameItself(r: Routes, e: Endpoint)
    ensures SameAt(r, r, e)
  {
  }

  lemma SameBack(r: Routes, q: Routes, e: Endpoint)
    requires SameAt(r, q, e)
    ensures SameAt(q, r, e)
  {
  }

  lemma {:induction false} EachDone(r: Routes, aliases: Aliases, all: set<Base>, base: Base, list: seq<Base>,
      order: seq<Endpoint>, handlers: map<Endpoint, Handler>, e: Endpoint)
    requires (forall a :: a in list ==> a in all) && Covers(all, aliases) && Distinct(order)
    requires (forall x :: x in order ==> x in handlers) && e in order && ClosedBut(r, aliases, e, {base})
    ensures Done(r, ForceAddEach(r, aliases, all, list, order, handlers).routes, aliases, base, list, e, handlers[e])
  {
    hide Done, SameAt, ClosedBut, OnlyAdds;
    var rest, x := order[..|order| - 1], order[|order| - 1];
    assert order == rest + [x] && x !in rest;
    var front := ForceAddEach(r, aliases, all, list, rest, handlers).routes;
    var last := ForceAddAll(front, aliases, all, list, x, handlers[x]).routes;
    if e == x {
      EachLeaves(r, aliases, all, list, rest, handlers, e);
      SameClosed(r, front, aliases, e, {base});
      AllDone(front, aliases, all, base, list, e, handlers[e]);
      SameBack(r, front, e);
      SameItself(last, e);
      SameDone(front, last, r, last, aliases, base, list, e, handlers[e]);
    } else {
      EachDone(r, aliases, all, base, list, rest, handlers, e);
      ForceAddAllAdds(front, aliases, all, list, x, handlers[x]);
      AddsOthers(front, last, x, handlers[x], e);
      SameItself(r, e);
      SameDone(r, front, r, last, aliases, base, list, e, handlers[e]);
    }
  }

  /** No base that the new aliases lead to has an endpoint of the base under another handler. */
  ghost predicate NoClash(r: Routes, aliases: Aliases, base: Base, added: seq<Base>) {
    forall e, x :: Has(r, base, e) && Has(r, x, e) && ReachedFrom(aliases, added, x) ==> r[x][e] == r[base][e]
  }

  lemma ConsistentIsClosed(r: Routes, aliases: Aliases, base: Base, added: seq<Base>, e: Endpoint)
    requires Consistent(r, aliases)
    ensures ClosedBut(r, WithAliases(aliases, base, added), e, {base})
    ensures Has(r, base, e) ==> forall a :: a in AliasesOf(aliases, base) ==> Has(r, a, e)
  {
    forall b, a | Has(r, b, e) && b != base && a in AliasesOf(WithAliases(aliases, base, added), b)
      ensures Has(r, a, e)
    {
      assert a in AliasesOf(aliases, b);
      assert SameHandler(r, b, a, e);
    }
    forall a | Has(r, base, e) && a in AliasesOf(aliases, base)
      ensures Has(r, a, e)
    {
      assert SameHandler(r, base, a, e);
    }
  }

  lemma ReachedFurther(aliases: Aliases, list: seq<Base>, b: Base, a: Base)
    requires ReachedFrom(aliases, list, b) && a in AliasesOf(aliases, b)
    ensures ReachedFrom(aliases, list, a)
  {
    var i :| 0 <= i < |list| && Reaches(aliases, list[i], b);
    var walk :| End(aliases, list[i], walk) == Some(b);
    var k :| 0 <= k < |AliasesOf(aliases, b)| && AliasesOf(aliases, b)[k] == a;
    WalkFurther(aliases, list[i], walk, k);
  }

  lemma {:induction false} WalkFurther(aliases: Aliases, b: Base, walk: seq<nat>, k: nat)
    requires End(aliases, b, walk).Some? && k < |AliasesOf(aliases, End(aliases, b, walk).value)|
    ensures End(aliases, b, walk + [k]) == Some(AliasesOf(aliases, End(aliases, b, walk).value)[k])
    decreases |walk|
  {
    if walk == [] {
      StepEnds(aliases, b, k, []);
      assert [k] + [] == walk + [k];
    } else {
      WalkFurther(aliases, AliasesOf(aliases, b)[walk[0]], walk[1..], k);
      assert (walk + [k])[1..] == walk[1..] + [k];
    }
  }

  lemma ListIsReached(aliases: Aliases, list: seq<Base>, a: Base)
    requires a in list
    ensures ReachedFrom(aliases, list, a)
  {
    var i :| 0 <= i < |list| && list[i] == a;
    ReachesItself(aliases, a);
  }

  lemma {:induction false} ConsistentAlongWalk(r: Routes, aliases: Aliases, b: Base, walk: seq<nat>, e: Endpoint)
    requires Consistent(r, aliases) && Has(r, b, e) && End(aliases, b, walk).Some?
    ensures var x := End(aliases, b, walk).value; Has(r, x, e) && r[x][e] == r[b][e]
    decreases |walk|
  {
    if walk != [] {
      var a := AliasesOf(aliases, b)[walk[0]];
      assert SameHandler(r, b, a, e);
      ConsistentAlongWalk(r, aliases, a, walk[1..], e);
    }
  }

  /** For one endpoint of the base, its aliases agree afterwards if there was no clash. */
  lemma DoneIsSame(r: Routes, r': Routes, before: Aliases, base: Base, added: seq<Base>, e: Endpoint, b: Base, a: Base)
    requires Consistent(r, before) && Has(r, base, e)
    requires var aliases := WithAliases(before, base, added);
      && Done(r, r', aliases, base, added, e, r[base][e])
      && NoClash(r, aliases, base, added)
      && a in AliasesOf(aliases, b)
    ensures SameHandler(r', b, a, e)
  {
    hide ReachedFrom;
    var aliases := WithAliases(before, base, added);
    if Has(r', b, e) {
      if Added(r, r', b, e) {
        ReachedFurther(aliases, added, b, a);
        assert Has(r', a, e);
      } else if a in AliasesOf(before, b) {
        assert SameHandler(r, b, a, e);
      } else {
        assert b == base && a in added;
        ListIsReached(aliases, added, a);
      }
      assert Has(r', a, e) && (Has(r, a, e) || Added(r, r', a, e));
    }
  }

  /** All bases that the new aliases lead to have the endpoint, whether adding it succeeded or not. */
  lemma DoneReaches(r: Routes, r': Routes, before: Aliases, base: Base, added: seq<Base>, e: Endpoint, h: Handler,
      x: Base)
    requires Consistent(r, before) && Has(r, base, e)
    requires Done(r, r', WithAliases(before, base, added), base, added, e, h)
    requires ReachedFrom(WithAliases(before, base, added), added, x)
    ensures Has(r', x, e)
  {
    var aliases := WithAliases(before, base, added);
    ConsistentIsClosed(r, before, base, added, e);
    assert ClosedBut(r', aliases, e, {});
    var i :| 0 <= i < |added| && Reaches(aliases, added[i], x);
    var walk :| End(aliases, added[i], walk) == Some(x);
    assert added[i] in added;
    ClosedAlongWalk(r', aliases, added[i], walk, e);
  }

  lemma {:induction false} ClosedAlongWalk(r: Routes, aliases: Aliases, b: Base, walk: seq<nat>, e: Endpoint)
    requires ClosedBut(r, aliases, e, {}) && Has(r, b, e) && End(aliases, b, walk).Some?
    ensures Has(r, End(aliases, b, walk).value, e)
    decreases |walk|
  {
    if walk != [] {
      ClosedAlongWalk(r, aliases, AliasesOf(aliases, b)[walk[0]], walk[1..], e);
    }
  }

  /** What AddAlias does to each endpoint of the base, and that it leaves all others alone. */
  lemma AliasDone(s: Router, base: Base, added: seq<Base>, order: seq<Endpoint>, e: Endpoint)
    requires Consistent(s.routes, s.aliases) && Enumerates(order, Endpoints(s.routes, base))
    requires forall a :: a in added ==> a !in s.reserved
    ensures var r' := AddAlias(s, base, added, order).0.routes;
      if Has(s.routes, base, e)
      then Done(s.routes, r', WithAliases(s.aliases, base, added), base, added, e, s.routes[base][e])
      else SameAt(s.routes, r', e)
  {
    hide Done, SameAt, ClosedBut, Consistent;
    var aliases, all := WithAliases(s.aliases, base, added), AliasUniverse(s.aliases, base, added);
    if Has(s.routes, base, e) {
      ConsistentIsClosed(s.routes, s.aliases, base, added, e);
      EachDone(s.routes, aliases, all, base, added, order, Endpoints(s.routes, base), e);
    } else {
      EachLeaves(s.routes, aliases, all, added, order, Endpoints(s.routes, base), e);
    }
  }

  lemma ClashShows(r: Routes, r': Routes, aliases: Aliases, base: Base, added: seq<Base>, e: Endpoint, x: Base)
    requires Consistent(r', aliases) && (forall a :: a in added ==> a in AliasesOf(aliases, base))
    requires Has(r, base, e) && Has(r, x, e) && Done(r, r', aliases, base, added, e, r[base][e])
    requires ReachedFrom(aliases, added, x)
    ensures r[x][e] == r[base][e]
  {
    var i :| 0 <= i < |added| && Reaches(aliases, added[i], x);
    var walk :| End(aliases, added[i], walk) == Some(x);
    assert added[i] in added;
    assert SameHandler(r', base, added[i], e);
    ConsistentAlongWalk(r', aliases, added[i], walk, e);
  }

  /**
   Whether it reports success or not, adding aliases to a consistent router gives every base they lead to every endpoint
   of the base, and leaves the router consistent exactly when none of them had one under another handler.
   */
  lemma AddAliasConsistentIff(s: Router, base: Base, added: seq<Base>, order: seq<Endpoint>)
    requires Consistent(s.routes, s.aliases) && Enumerates(order, Endpoints(s.routes, base))
    requires forall a :: a in added ==> a !in s.reserved
    ensures var s' := AddAlias(s, base, added, order).0;
      && s'.aliases == WithAliases(s.aliases, base, added)
      && (forall e, x :: Has(s.routes, base, e) && ReachedFrom(s'.aliases, added, x) ==> Has(s'.routes, x, e))
      && (Consistent(s'.routes, s'.aliases) <==> NoClash(s.routes, s'.aliases, base, added))
  {
    hide Done, SameAt, ReachedFrom, ForceAddEach, SameHandler;
    var s' := AddAlias(s, base, added, order).0;
    forall e, x | Has(s.routes, base, e) && ReachedFrom(s'.aliases, added, x)
      ensures Has(s'.routes, x, e)
    {
      AliasDone(s, base, added, order, e);
      DoneReaches(s.routes, s'.routes, s.aliases, base, added, e, s.routes[base][e], x);
    }
    if NoClash(s.routes, s'.aliases, base, added) {
      forall b, a, e | a in AliasesOf(s'.aliases, b)
        ensures SameHandler(s'.routes, b, a, e)
      {
        AliasDone(s, base, added, order, e);
        if Has(s.routes, base, e) {
          DoneIsSame(s.routes, s'.routes, s.aliases, base, added, e, b, a);
        } else {
          OtherIsSame(s.routes, s'.routes, s.aliases, base, added, e, b, a);
        }
      }
    }
    if Consistent(s'.routes, s'.aliases) {
      forall e, x | Has(s.routes, base, e) && Has(s.routes, x, e) && ReachedFrom(s'.aliases, added, x)
        ensures s.routes[x][e] == s.routes[base][e]
      {
        AliasDone(s, base, added, order, e);
        ClashShows(s.routes, s'.routes, s'.aliases, base, added, e, x);
      }
    }
  }

  lemma OtherIsSame(r: Routes, r': Routes, before: Aliases, base: Base, added: seq<Base>, e: Endpoint, b: Base, a: Base)
    requires Consistent(r, before) && !Has(r, base, e) && SameAt(r, r', e)
    requires a in AliasesOf(WithAliases(before, base, added), b)
    ensures SameHandler(r', b, a, e)
  {
    if Has(r', b, e) {
      assert b != base && a in AliasesOf(before, b);
      assert SameHandler(r, b, a, e);
    }
  }

  /** An alias that has an endpoint of its base under another handler: the call fails and leaves the two apart. */
  lemma AliasMayClash() returns (s: Router, base: Base, added: seq<Base>, order: seq<Endpoint>)
    ensures Consistent(s.routes, s.aliases) && Enumerates(order, Endpoints(s.routes, base))
    ensures var (s', ok) := AddAlias(s, base, added, order); !ok && !Consistent(s'.routes, s'.aliases)
  {
    base, added, order := Base("a"), [Base("b")], [Endpoint("")];
    var e := Endpoint("");
    s := Router(map[base := map[e := Handler(1)], Base("b") := map[e := Handler(2)]], map[], {});
    assert order[0] == e && added[0] == Base("b");
    var aliases := WithAliases(s.aliases, base, added);
    ListIsReached(aliases, added, added[0]);
    assert Has(s.routes, base, e) && Has(s.routes, added[0], e);
    AddAliasConsistentIff(s, base, added, order);
    AddAliasSucceedsIff(s, base, added, order);
    ReachesItself(aliases, added[0]);
    assert !Addable(s.routes, aliases, added[0], e);
  }

  // ---------------------------------------------------------------------------------------
  // Adding a route, and which bases are reserved.
  // ---------------------------------------------------------------------------------------

  /**
   Adding a route succeeds exactly when its base is not reserved and every base the aliases lead to lacks the endpoint
   and is led to once; then exactly these bases have the endpoint in addition. A reserved base changes nothing.
   */
  lemma AddRouterSucceedsIff(s: Router, base: Base, e: Endpoint, h: Handler)
    ensures var (s', ok) := AddRouter(s, base, e, h);
      && (ok <==> base !in s.reserved && Addable(s.routes, s.aliases, base, e))
      && (base in s.reserved ==> s' == s)
      && s'.aliases == s.aliases && s'.reserved == s.reserved
      && (ok ==> forall x :: Has(s'.routes, x, e) <==> Has(s.routes, x, e) || Reaches(s.aliases, base, x))
      && (ok ==> forall x :: Reaches(s.aliases, base, x) ==> Has(s'.routes, x, e) && s'.routes[x][e] == h)
  {
    hide Addable, Reaches, ForceAdd;
    if base !in s.reserved {
      var all := Universe(s.aliases, base);
      ForceAddSucceedsIff(s.routes, s.aliases, all, base, e, h);
      if ForceAdd(s.routes, s.aliases, all, base, e, h).ok {
        forall x {
          AddedIffReached(s.routes, s.aliases, all, base, e, h, x);
        }
      }
    }
  }

  lemma AddedIffReached(r: Routes, aliases: Aliases, all: set<Base>, base: Base, e: Endpoint, h: Handler, x: Base)
    requires base in all && Covers(all, aliases) && ForceAdd(r, aliases, all, base, e, h).ok
    ensures var r' := ForceAdd(r, aliases, all, base, e, h).routes;
      && (Has(r', x, e) <==> Has(r, x, e) || Reaches(aliases, base, x))
      && (Reaches(aliases, base, x) ==> Has(r', x, e) && r'[x][e] == h)
  {
    hide ForceAdd;
    var r' := ForceAdd(r, aliases, all, base, e, h).routes;
    ForceAddAdds(r, aliases, all, base, e, h);
    if Added(r, r', x, e) {
      AddedIsReached(r, aliases, all, base, e, h, x);
    }
    if Reaches(aliases, base, x) {
      var walk :| End(aliases, base, walk) == Some(x);
      AddedAlongWalk(r, r', aliases, e, base, walk);
    }
  }

  /** The call makes the base an alias: it names it, and none of its names is reserved yet. */
  ghost predicate Reserves(s: Router, c: Call, b: Base) {
    c.AliasCall? && b in c.added && forall a :: a in c.added ==> a !in s.reserved
  }

  lemma StepReserves(s: Router, c: Call, b: Base)
    requires Allowed(s, c)
    ensures b in Step(s, c).0.reserved <==> b in s.reserved || Reserves(s, c, b)
  {
    hide ForceAdd, ForceAddEach;
  }

  /** At every point of every run, a base is reserved exactly if some call made it an alias, failed or not. */
  lemma {:induction false} ReservedIff(trace: seq<Router>, calls: seq<Call>, n: nat, b: Base)
    requires IsRun(trace, calls) && n < |trace|
    ensures b in trace[n].reserved <==> exists k :: 0 <= k < n && Reserves(trace[k], calls[k], b)
  {
    hide Reserves, Step, Allowed;
    if n > 0 {
      ReservedIff(trace, calls, n - 1, b);
      StepReserves(trace[n - 1], calls[n - 1], b);
      if k :| 0 <= k < n - 1 && Reserves(trace[k], calls[k], b) {
        assert k < n;
      }
    }
  }

  /** From then on, no route can be added to it and no call can make it an alias again. */
  lemma AliasStaysReserved(trace: seq<Router>, calls: seq<Call>, k: nat, n: nat, b: Base)
    requires IsRun(trace, calls) && k < n < |calls| && Reserves(trace[k], calls[k], b)
    requires if calls[n].RouterCall? then calls[n].base == b else b in calls[n].added
    ensures Step(trace[n], calls[n]) == (trace[n], false)
  {
    ReservedIff(trace, calls, n, b);
  }

  lemma StepAliases(s: Router, c: Call, b: Base, a: Base)
    requires Allowed(s, c)
    ensures a in AliasesOf(Step(s, c).0.aliases, b) <==>
      a in AliasesOf(s.aliases, b) || (Reserves(s, c, a) && c.base == b)
  {
    hide ForceAdd, ForceAddEach;
  }

  /** At every point of every run, the aliases of a base are those that some call gave it. */
  lemma {:induction false} AliasedIff(trace: seq<Router>, calls: seq<Call>, n: nat, b: Base, a: Base)
    requires IsRun(trace, calls) && n < |trace|
    ensures a in AliasesOf(trace[n].aliases, b) <==>
      exists k :: 0 <= k < n && Reserves(trace[k], calls[k], a) && calls[k].base == b
  {
    hide Reserves, Step, Allowed;
    if n > 0 {
      AliasedIff(trace, calls, n - 1, b, a);
      StepAliases(trace[n - 1], calls[n - 1], b, a);
      if k :| 0 <= k < n - 1 && Reserves(trace[k], calls[k], a) && calls[k].base == b {
        assert k < n;
      }
    }
  }
}
