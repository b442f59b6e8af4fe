/**
 API routes with aliases. A route added to a base is added to its aliases too, and to their aliases; an alias added to
 a base takes over the base's routes.
 */
module RouterModel {
  import opened Collections

  datatype Base = Base(path: string)

  datatype Endpoint = Endpoint(path: string)

  datatype Handler = Handler(value: nat)

  type Routes = map<Base, map<Endpoint, Handler>>

  type Aliases = map<Base, seq<Base>>

  datatype Router = Router(routes: Routes, aliases: Aliases, reserved: set<Base>)

  predicate Has(r: Routes, b: Base, e: Endpoint) {
    b in r && e in r[b]
  }

  function Bind(r: Routes, b: Base, e: Endpoint, h: Handler): Routes {
    r[b := (if b in r then r[b] else map[])[e := h]]
  }

  function AliasesOf(aliases: Aliases, b: Base): seq<Base> {
    if b in aliases then aliases[b] else []
  }

  /** No handler is lost or replaced. */
  ghost predicate Kept(r: Routes, r': Routes) {
    forall b, e :: Has(r, b, e) ==> Has(r', b, e) && r'[b][e] == r[b][e]
  }

  /** The bases among `all` that lack an endpoint; what a traversal of the aliases uses up. */
  ghost function Lacking(r: Routes, all: set<Base>, e: Endpoint): set<Base> {
    set b | b in all && !Has(r, b, e)
  }

  /** All aliases of anything are among `all`. */
  ghost predicate Covers(all: set<Base>, aliases: Aliases) {
    forall b, a :: b in aliases && a in aliases[b] ==> a in all
  }

  datatype Outcome = Outcome(routes: Routes, ok: bool)

  /** Adds an endpoint to a base and, depth first, to its aliases; fails where the endpoint exists, and goes on. */
  ghost function ForceAdd(r: Routes, aliases: Aliases, all: set<Base>, base: Base, e: Endpoint,
      h: Handler): (o: Outcome)
    requires base in all && Covers(all, aliases)
    ensures Kept(r, o.routes)
    decreases Lacking(r, all, e), 0
  {
    if Has(r, base, e) then Outcome(r, false)
    else
      var r' := Bind(r, base, e, h);
      BindKeeps(r, all, base, e, h);
      var o := ForceAddAll(r', aliases, all, AliasesOf(aliases, base), e, h);
      KeptTwice(r, r', o.routes);
      o
  }

  lemma BindKeeps(r: Routes, all: set<Base>, base: Base, e: Endpoint, h: Handler)
    requires base in all && !Has(r, base, e)
    ensures Kept(r, Bind(r, base, e, h)) && Lacking(Bind(r, base, e, h), all, e) < Lacking(r, all, e)
  {
    assert base in Lacking(r, all, e) && base !in Lacking(Bind(r, base, e, h), all, e);
  }

  lemma KeptTwice(r: Routes, r': Routes, r'': Routes)
    requires Kept(r, r') && Kept(r', r'')
    ensures Kept(r, r'')
  {
  }

  lemma KeptLacks(r: Routes, r': Routes, all: set<Base>, e: Endpoint)
    requires Kept(r, r')
    ensures Lacking(r', all, e) <= Lacking(r, all, e)
  {
  }

  ghost function ForceAddAll(r: Routes, aliases: Aliases, all: set<Base>, list: seq<Base>, e: Endpoint,
      h: Handler): (o: Outcome)
    requires (forall a :: a in list ==> a in all) && Covers(all, aliases)
    ensures Kept(r, o.routes)
    decreases Lacking(r, all, e), 1 + |list|
  {
    if list == [] then Outcome(r, true)
    else
      var front := ForceAddAll(r, aliases, all, list[..|list| - 1], e, h);
      KeptLacks(r, front.routes, all, e);
      var last := ForceAdd(front.routes, aliases, all, list[|list| - 1], e, h);
      KeptTwice(r, front.routes, last.routes);
      Outcome(last.routes, front.ok && last.ok)
  }

  // ---------------------------------------------------------------------------------------
  // What a traversal adds.
  // ---------------------------------------------------------------------------------------

  ghost predicate Added(r: Routes, r': Routes, b: Base, e: Endpoint) {
    Has(r', b, e) && !Has(r, b, e)
  }

  /** Only this endpoint with this handler was added. */
  ghost predicate OnlyAdds(r: Routes, r': Routes, e: Endpoint, h: Handler) {
    && Kept(r, r')
    && forall b, x :: Added(r, r', b, x) ==> x == e && r'[b][x] == h
  }

  /** With a base to which it was added, the endpoint was added to all its aliases. */
  ghost predicate AddedToAliases(r: Routes, r': Routes, aliases: Aliases, e: Endpoint) {
    forall b, a :: Added(r, r', b, e) && a in AliasesOf(aliases, b) ==> Added(r, r', a, e)
  }

  /** No base to which the endpoint was added has `base` as an alias. */
  ghost predicate NotAliased(r: Routes, r': Routes, aliases: Aliases, e: Endpoint, base: Base) {
    forall b, a :: Added(r, r', b, e) && a in AliasesOf(aliases, b) ==> a != base
  }

  lemma {:induction false} ForceAddAdds(r: Routes, aliases: Aliases, all: set<Base>, base: Base, e: Endpoint,
      h: Handler)
    requires base in all && Covers(all, aliases)
    ensures var o := ForceAdd(r, aliases, all, base, e, h);
      && OnlyAdds(r, o.routes, e, h)
      && Has(o.routes, base, e)
      && (o.ok ==> Added(r, o.routes, base, e) && AddedToAliases(r, o.routes, aliases, e))
      && (o.ok ==> NotAliased(r, o.routes, aliases, e, base))
    decreases Lacking(r, all, e), 0
  {
    if !Has(r, base, e) {
      var r' := Bind(r, base, e, h);
      assert base in Lacking(r, all, e) && base !in Lacking(r', all, e);
      ForceAddAllAdds(r', aliases, all, AliasesOf(aliases, base), e, h);
      var o := ForceAddAll(r', aliases, all, AliasesOf(aliases, base), e, h);
      BindAdds(r, base, e, h, o.routes);
      if o.ok {
        forall b, a | Added(r, o.routes, b, e) && a in AliasesOf(aliases, b)
          ensures Added(r, o.routes, a, e)
        {
          assert b == base || Added(r', o.routes, b, e);
        }
        forall b, a | Added(r, o.routes, b, e) && a in AliasesOf(aliases, b)
          ensures a != base
        {
          assert Added(r', o.routes, a, e) && Has(r', base, e);
        }
      }
    }
  }

  lemma BindAdds(r: Routes, base: Base, e: Endpoint, h: Handler, r'': Routes)
    requires !Has(r, base, e) && OnlyAdds(Bind(r, base, e, h), r'', e, h)
    ensures OnlyAdds(r, r'', e, h) && Added(r, r'', base, e)
    ensures forall b :: Added(r, r'', b, e) <==> b == base || Added(Bind(r, base, e, h), r'', b, e)
  {
    var r' := Bind(r, base, e, h);
    assert Has(r', base, e);
    assert forall b, x :: Has(r', b, x) <==> Has(r, b, x) || (b == base && x == e);
    forall b, x | Added(r, r'', b, x)
      ensures x == e && r''[b][x] == h
    {
      assert Has(r', b, x) || Added(r', r'', b, x);
    }
    forall b, x | Has(r, b, x)
      ensures Has(r'', b, x) && r''[b][x] == r[b][x]
    {
      assert Has(r', b, x) && r'[b][x] == r[b][x];
    }
  }

  lemma AddsCompose(r: Routes, r': Routes, r'': Routes, e: Endpoint, h: Handler)
    requires OnlyAdds(r, r', e, h) && OnlyAdds(r', r'', e, h)
    ensures OnlyAdds(r, r'', e, h)
    ensures forall b :: Added(r, r'', b, e) <==> Added(r, r', b, e) || Added(r', r'', b, e)
  {
    forall b, x | Added(r, r'', b, x)
      ensures x == e && r''[b][x] == h
    {
      assert Added(r, r', b, x) || Added(r', r'', b, x);
    }
  }

  lemma {:induction false} ForceAddAllAdds(r: Routes, aliases: Aliases, all: set<Base>, list: seq<Base>, e: Endpoint,
      h: Handler)
    requires (forall a :: a in list ==> a in all) && Covers(all, aliases)
    ensures var o := ForceAddAll(r, aliases, all, list, e, h);
      && OnlyAdds(r, o.routes, e, h)
      && (o.ok ==> AddedToAliases(r, o.routes, aliases, e) && forall a :: a in list ==> Added(r, o.routes, a, e))
    decreases Lacking(r, all, e), 1 + |list|
  {
    if list != [] {
      var rest, last := list[..|list| - 1], list[|list| - 1];
      ForceAddAllAdds(r, aliases, all, rest, e, h);
      var front := ForceAddAll(r, aliases, all, rest, e, h);
      assert Lacking(front.routes, all, e) <= Lacking(r, all, e);
      ForceAddAdds(front.routes, aliases, all, last, e, h);
      var o := ForceAdd(front.routes, aliases, all, last, e, h);
      AddsCompose(r, front.routes, o.routes, e, h);
    }
  }

  // ---------------------------------------------------------------------------------------
  // Operations.
  // ---------------------------------------------------------------------------------------

  ghost function Universe(aliases: Aliases, base: Base): (all: set<Base>)
    ensures base in all && Covers(all, aliases)
  {
    (set b, a | b in aliases && a in aliases[b] :: a) + {base}
  }

  ghost function AddRouter(s: Router, base: Base, e: Endpoint, h: Handler): (Router, bool) {
    if base in s.reserved then (s, false)
    else
      var o := ForceAdd(s.routes, s.aliases, Universe(s.aliases, base), base, e, h);
      (s.(routes := o.routes), o.ok)
  }

  /** Adds the endpoints in the given order, each to all of the list. */
  ghost function ForceAddEach(
    r: Routes, aliases: Aliases, all: set<Base>, list: seq<Base>, order: seq<Endpoint>,
    handlers: map<Endpoint, Handler>): Outcome
    requires (forall a :: a in list ==> a in all) && Covers(all, aliases) && forall e :: e in order ==> e in handlers
  {
    if order == [] then Outcome(r, true)
    else
      var e := order[|order| - 1];
      var front := ForceAddEach(r, aliases, all, list, order[..|order| - 1], handlers);
      var last := ForceAddAll(front.routes, aliases, all, list, e, handlers[e]);
      Outcome(last.routes, front.ok && last.ok)
  }

  function WithAliases(aliases: Aliases, base: Base, added: seq<Base>): Aliases {
    aliases[base := AliasesOf(aliases, base) + added]
  }

  function Endpoints(r: Routes, base: Base): map<Endpoint, Handler> {
    if base in r then r[base] else map[]
  }

  /** All endpoints of a base, each once. */
  ghost predicate Enumerates(order: seq<Endpoint>, handlers: map<Endpoint, Handler>) {
    Distinct(order) && forall e :: e in order <==> e in handlers
  }

  /** The universe of a base and its new aliases. */
  ghost function AliasUniverse(aliases: Aliases, base: Base, added: seq<Base>): (all: set<Base>)
    ensures Covers(all, WithAliases(aliases, base, added)) && forall a :: a in added ==> a in all
  {
    var all := Universe(WithAliases(aliases, base, added), base);
    assert forall a :: a in added ==> a in WithAliases(aliases, base, added)[base];
    all
  }

  /** Adding aliases; `order` is the order in which the base's endpoints are visited. */
  ghost function AddAlias(s: Router, base: Base, added: seq<Base>, order: seq<Endpoint>): (Router, bool)
    requires Enumerates(order, Endpoints(s.routes, base))
  {
    if exists a :: a in added && a in s.reserved then (s, false)
    else
      var aliases := WithAliases(s.aliases, base, added);
      var all := AliasUniverse(s.aliases, base, added);
      var o := ForceAddEach(s.routes, aliases, all, added, order, Endpoints(s.routes, base));
      (Router(o.routes, aliases, s.reserved + (set a | a in added)), o.ok)
  }

  // ---------------------------------------------------------------------------------------
  // Aliases serve what their base serves.
  // ---------------------------------------------------------------------------------------

  ghost predicate SameHandler(r: Routes, b: Base, a: Base, e: Endpoint) {
    Has(r, b, e) ==> Has(r, a, e) && r[a][e] == r[b][e]
  }

  ghost predicate Consistent(r: Routes, aliases: Aliases) {
    forall b, a, e :: a in AliasesOf(aliases, b) ==> SameHandler(r, b, a, e)
  }

  /** A chain of aliases. */
  ghost predicate AliasChain(aliases: Aliases, chain: seq<Base>) {
    && |chain| > 0
    && forall i :: 0 < i < |chain| ==> chain[i] in AliasesOf(aliases, chain[i - 1])
  }

  lemma {:induction false} ConsistentAlongChains(r: Routes, aliases: Aliases, chain: seq<Base>, e: Endpoint)
    requires Consistent(r, aliases) && AliasChain(aliases, chain)
    ensures SameHandler(r, chain[0], chain[|chain| - 1], e)
  {
    if |chain| > 1 {
      ConsistentAlongChains(r, aliases, chain[..|chain| - 1], e);
      assert SameHandler(r, chain[|chain| - 2], chain[|chain| - 1], e);
    }
  }

  lemma {:induction false} AddedAlongChains(r: Routes, r': Routes, aliases: Aliases, e: Endpoint, chain: seq<Base>)
    requires AddedToAliases(r, r', aliases, e) && AliasChain(aliases, chain) && Added(r, r', chain[0], e)
    ensures Added(r, r', chain[|chain| - 1], e)
  {
    if |chain| > 1 {
      AddedAlongChains(r, r', aliases, e, chain[..|chain| - 1]);
    }
  }

  /** On a cycle of aliases the traversal ends and reports the failure. */
  lemma CyclesFail(r: Routes, aliases: Aliases, all: set<Base>, e: Endpoint, h: Handler, cycle: seq<Base>)
    requires AliasChain(aliases, cycle) && |cycle| > 1 && cycle[0] == cycle[|cycle| - 1]
    requires cycle[0] in all && Covers(all, aliases)
    ensures !ForceAdd(r, aliases, all, cycle[0], e, h).ok
  {
    var o := ForceAdd(r, aliases, all, cycle[0], e, h);
    var front := cycle[..|cycle| - 1];
    ForceAddAdds(r, aliases, all, cycle[0], e, h);
    assert cycle[0] in AliasesOf(aliases, front[|front| - 1]);
    if o.ok {
      AddedAlongChains(r, o.routes, aliases, e, front);
    }
  }

  lemma AddRouterKeepsConsistent(s: Router, base: Base, e: Endpoint, h: Handler)
    requires Consistent(s.routes, s.aliases)
    ensures var (s', ok) := AddRouter(s, base, e, h);
      && Kept(s.routes, s'.routes)
      && (ok ==> Consistent(s'.routes, s'.aliases) && Added(s.routes, s'.routes, base, e) && s'.routes[base][e] == h)
  {
    if base !in s.reserved {
      var all := Universe(s.aliases, base);
      ForceAddAdds(s.routes, s.aliases, all, base, e, h);
      var o := ForceAdd(s.routes, s.aliases, all, base, e, h);
      if o.ok {
        AddingKeepsConsistent(s.routes, o.routes, s.aliases, e, h);
      }
    }
  }

  lemma AddingKeepsConsistent(r: Routes, r': Routes, aliases: Aliases, e: Endpoint, h: Handler)
    requires Consistent(r, aliases) && OnlyAdds(r, r', e, h) && AddedToAliases(r, r', aliases, e)
    ensures Consistent(r', aliases)
  {
    forall b, a, x | a in AliasesOf(aliases, b)
      ensures SameHandler(r', b, a, x)
    {
      assert SameHandler(r, b, a, x);
      if Added(r, r', b, x) {
        assert Added(r, r', a, e);
      }
    }
  }

  /** Consistent, except for the endpoints that the new aliases do not have yet. */
  ghost predicate ConsistentExcept(r: Routes, aliases: Aliases, base: Base, added: seq<Base>, done: seq<Endpoint>) {
    forall b, a, e :: a in AliasesOf(aliases, b) && !(b == base && a in added && e !in done) ==> SameHandler(r, b, a, e)
  }

  lemma ForceAddAllKeepsExcept(
    r: Routes, r': Routes, aliases: Aliases, base: Base, added: seq<Base>, done: seq<Endpoint>, e: Endpoint)
    requires Has(r, base, e) && ConsistentExcept(r, aliases, base, added, done)
    requires OnlyAdds(r, r', e, r[base][e]) && AddedToAliases(r, r', aliases, e)
    requires forall a :: a in added ==> Added(r, r', a, e)
    ensures ConsistentExcept(r', aliases, base, added, done + [e])
  {
    forall b, a, x | a in AliasesOf(aliases, b) && !(b == base && a in added && x !in done + [e])
      ensures SameHandler(r', b, a, x)
    {
      if Added(r, r', b, x) {
        assert Added(r, r', a, e);
      } else if b == base && a in added && x == e {
        assert Added(r, r', a, e);
      } else {
        assert SameHandler(r, b, a, x);
      }
    }
  }

  /** What adding the endpoints does to the routes, in one step. */
  ghost predicate AddsEach(r: Routes, r': Routes, order: seq<Endpoint>) {
    Kept(r, r') && forall b, x :: Added(r, r', b, x) ==> x in order
  }

  lemma AddsOneMore(r: Routes, r': Routes, r'': Routes, order: seq<Endpoint>, e: Endpoint, h: Handler)
    requires AddsEach(r, r', order) && OnlyAdds(r', r'', e, h)
    ensures AddsEach(r, r'', order + [e])
  {
    forall b, x | Added(r, r'', b, x)
      ensures x in order + [e]
    {
      assert Added(r, r', b, x) || Added(r', r'', b, x);
    }
  }

  lemma {:induction false} ForceAddEachAdds(
    r: Routes, aliases: Aliases, all: set<Base>, base: Base, added: seq<Base>, order: seq<Endpoint>,
    handlers: map<Endpoint, Handler>)
    requires (forall a :: a in added ==> a in all) && Covers(all, aliases) && handlers == Endpoints(r, base)
    requires forall e :: e in order ==> e in handlers
    ensures var o := ForceAddEach(r, aliases, all, added, order, handlers);
      && AddsEach(r, o.routes, order)
      && (o.ok && ConsistentExcept(r, aliases, base, added, []) ==>
            ConsistentExcept(o.routes, aliases, base, added, order))
  {
    if order != [] {
      var rest, e := order[..|order| - 1], order[|order| - 1];
      assert order == rest + [e];
      ForceAddEachAdds(r, aliases, all, base, added, rest, handlers);
      var front := ForceAddEach(r, aliases, all, added, rest, handlers);
      ForceAddAllAdds(front.routes, aliases, all, added, e, handlers[e]);
      var last := ForceAddAll(front.routes, aliases, all, added, e, handlers[e]);
      AddsOneMore(r, front.routes, last.routes, rest, e, handlers[e]);
      assert Has(r, base, e) && r[base][e] == handlers[e];
      if last.ok && ConsistentExcept(front.routes, aliases, base, added, rest) {
        ForceAddAllKeepsExcept(front.routes, last.routes, aliases, base, added, rest, e);
      }
    }
  }

  lemma NewAliasesExcepted(r: Routes, aliases: Aliases, base: Base, added: seq<Base>)
    requires Consistent(r, aliases)
    ensures ConsistentExcept(r, WithAliases(aliases, base, added), base, added, [])
  {
    forall b, a, e | a in AliasesOf(WithAliases(aliases, base, added), b) && !(b == base && a in added && e !in [])
      ensures SameHandler(r, b, a, e)
    {
      assert a in AliasesOf(aliases, b);
    }
  }

  lemma NothingExcepted(r: Routes, r': Routes, aliases: Aliases, base: Base, added: seq<Base>, order: seq<Endpoint>)
    requires AddsEach(r, r', order) && ConsistentExcept(r', aliases, base, added, order)
    requires forall e :: e in Endpoints(r, base) ==> e in order
    ensures Consistent(r', aliases)
  {
    forall b, a, e | a in AliasesOf(aliases, b)
      ensures SameHandler(r', b, a, e)
    {
      if b == base && Has(r', b, e) {
        assert Has(r, b, e) || Added(r, r', b, e);
        assert e in order;
      }
    }
  }

  lemma AddAliasKeepsConsistent(s: Router, base: Base, added: seq<Base>, order: seq<Endpoint>)
    requires Consistent(s.routes, s.aliases) && Enumerates(order, Endpoints(s.routes, base))
    ensures var (s', ok) := AddAlias(s, base, added, order);
      && Kept(s.routes, s'.routes)
      && (ok ==> Consistent(s'.routes, s'.aliases) && s'.aliases == WithAliases(s.aliases, base, added))
  {
    if !exists a :: a in added && a in s.reserved {
      var aliases := WithAliases(s.aliases, base, added);
      var all := AliasUniverse(s.aliases, base, added);
      ForceAddEachAdds(s.routes, aliases, all, base, added, order, Endpoints(s.routes, base));
      NewAliasesExcepted(s.routes, s.aliases, base, added);
      var o := ForceAddEach(s.routes, aliases, all, added, order, Endpoints(s.routes, base));
      if o.ok {
        NothingExcepted(s.routes, o.routes, aliases, base, added, order);
      }
    }
  }

  // ---------------------------------------------------------------------------------------
  // Runs.
  // ---------------------------------------------------------------------------------------

  datatype Call =
    | RouterCall(base: Base, endpoint: Endpoint, handler: Handler)
    | AliasCall(base: Base, added: seq<Base>, order: seq<Endpoint>)

  ghost predicate Allowed(s: Router, c: Call) {
    c.AliasCall? ==> Enumerates(c.order, Endpoints(s.routes, c.base))
  }

  ghost function Step(s: Router, c: Call): (Router, bool)
    requires Allowed(s, c)
  {
    match c
    case RouterCall(base, e, h) => AddRouter(s, base, e, h)
    case AliasCall(base, added, order) => AddAlias(s, base, added, order)
  }

  ghost predicate IsRun(trace: seq<Router>, calls: seq<Call>) {
    && |trace| == |calls| + 1
    && trace[0] == Router(map[], map[], {})
    && forall i {:trigger calls[i]} :: 0 <= i < |calls| ==>
         Allowed(trace[i], calls[i]) && trace[i + 1] == Step(trace[i], calls[i]).0
  }

  ghost predicate Succeeds(trace: seq<Router>, calls: seq<Call>, n: nat)
    requires IsRun(trace, calls) && n <= |calls|
  {
    forall i {:trigger calls[i]} :: 0 <= i < n ==> Step(trace[i], calls[i]).1
  }

  lemma {:induction false} RunKeepsConsistent(trace: seq<Router>, calls: seq<Call>, n: nat)
    requires IsRun(trace, calls) && n < |trace| && Succeeds(trace, calls, n)
    ensures Consistent(trace[n].routes, trace[n].aliases)
  {
    if n > 0 {
      RunKeepsConsistent(trace, calls, n - 1);
      var c := calls[n - 1];
      match c
      case RouterCall(base, e, h) => AddRouterKeepsConsistent(trace[n - 1], base, e, h);
      case AliasCall(base, added, order) => AddAliasKeepsConsistent(trace[n - 1], base, added, order);
    }
  }

  /** As long as no call failed, an endpoint is served by the same handler under all direct and transitive aliases. */
  lemma AliasesServeTheSame(trace: seq<Router>, calls: seq<Call>, n: nat, chain: seq<Base>, e: Endpoint)
    requires IsRun(trace, calls) && n < |trace| && Succeeds(trace, calls, n)
    requires AliasChain(trace[n].aliases, chain) && Has(trace[n].routes, chain[0], e)
    ensures Has(trace[n].routes, chain[|chain| - 1], e)
    ensures trace[n].routes[chain[|chain| - 1]][e] == trace[n].routes[chain[0]][e]
  {
    RunKeepsConsistent(trace, calls, n);
    ConsistentAlongChains(trace[n].routes, trace[n].aliases, chain, e);
  }

  /** No call, failed or not, ever takes away or replaces a handler. */
  lemma {:induction false} HandlersAreNeverReplaced(trace: seq<Router>, calls: seq<Call>, m: nat, n: nat)
    requires IsRun(trace, calls) && m <= n < |trace|
    ensures Kept(trace[m].routes, trace[n].routes)
  {
    if m < n {
      HandlersAreNeverReplaced(trace, calls, m, n - 1);
      StepKeepsHandlers(trace[n - 1], calls[n - 1]);
    }
  }

  lemma StepKeepsHandlers(s: Router, c: Call)
    requires Allowed(s, c)
    ensures Kept(s.routes, Step(s, c).0.routes)
  {
    if c.AliasCall? && !exists a :: a in c.added && a in s.reserved {
      var aliases, all := WithAliases(s.aliases, c.base, c.added), AliasUniverse(s.aliases, c.base, c.added);
      ForceAddEachAdds(s.routes, aliases, all, c.base, c.added, c.order, Endpoints(s.routes, c.base));
    }
  }
}
