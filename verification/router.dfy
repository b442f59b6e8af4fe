/** The router of the API server, updated in place. */
module Router {
  import opened Collections
  import opened RouterModel
  import opened Wrappers

  datatype Error = UnknownBaseURL | UnknownEndpoint

  class Router {
    var routes: Routes
    var aliases: Aliases
    var reserved: set<Base>

    ghost function Value(): RouterModel.Router
      reads this
    {
      RouterModel.Router(routes, aliases, reserved)
    }

    constructor ()
      ensures Value() == RouterModel.Router(map[], map[], {})
    {
      routes, aliases, reserved := map[], map[], {};
    }

    method GetHandler(base: Base, endpoint: Endpoint) returns (r: Result<Handler, Error>)
      ensures r.Ok? <==> Has(routes, base, endpoint)
      ensures r.Ok? ==> r.value == routes[base][endpoint]
      ensures r == Err(UnknownBaseURL) <==> base !in routes
    {
      if base !in routes {
        return Err(UnknownBaseURL);
      }
      if endpoint !in routes[base] {
        return Err(UnknownEndpoint);
      }
      return Ok(routes[base][endpoint]);
    }

    /** Adds the endpoint to the base and to everything it is aliased to. The bases that lack the endpoint get fewer
        with every step, so this ends whatever the aliases are. */
    method ForceAdd(base: Base, endpoint: Endpoint, handler: Handler, ghost all: set<Base>) returns (ok: bool)
      requires base in all && Covers(all, aliases)
      modifies this`routes
      ensures Outcome(routes, ok) == RouterModel.ForceAdd(old(routes), aliases, all, base, endpoint, handler)
      decreases Lacking(routes, all, endpoint), 0
    {
      if base in routes && endpoint in routes[base] {
        return false;
      }
      ghost var before := routes;
      routes := Bind(routes, base, endpoint, handler);
      assert base in Lacking(before, all, endpoint) && base !in Lacking(routes, all, endpoint);
      ok := true;
      if base in aliases {
        assert forall a :: a in aliases[base] ==> a in all;
        ok := ForceAddAll(aliases[base], endpoint, handler, all);
      }
    }

    /** Adds the endpoint to every base in the list; goes on after a failure. */
    method ForceAddAll(list: seq<Base>, endpoint: Endpoint, handler: Handler, ghost all: set<Base>) returns (ok: bool)
      requires (forall a :: a in list ==> a in all) && Covers(all, aliases)
      modifies this`routes
      ensures Outcome(routes, ok) == RouterModel.ForceAddAll(old(routes), aliases, all, list, endpoint, handler)
      decreases Lacking(routes, all, endpoint), 1 + |list|
    {
      ok := true;
      for i := 0 to |list|
        invariant forall a :: a in list[..i] ==> a in all
        invariant Outcome(routes, ok) ==
          RouterModel.ForceAddAll(old(routes), aliases, all, list[..i], endpoint, handler)
      {
        assert Lacking(routes, all, endpoint) <= old(Lacking(routes, all, endpoint));
        var inner := ForceAdd(list[i], endpoint, handler, all);
        assert list[..i + 1][..i] == list[..i];
        ok := ok && inner;
      }
      assert list[..|list|] == list;
    }

    method AddRouter(base: Base, endpoint: Endpoint, handler: Handler) returns (ok: bool)
      modifies this`routes
      ensures (Value(), ok) == RouterModel.AddRouter(old(Value()), base, endpoint, handler)
      ensures old(Consistent(routes, aliases)) && ok ==> Consistent(routes, aliases)
      ensures Kept(old(routes), routes)
    {
      if Consistent(routes, aliases) {
        AddRouterKeepsConsistent(Value(), base, endpoint, handler);
      }
      if base in reserved {
        return false;
      }
      ok := ForceAdd(base, endpoint, handler, Universe(aliases, base));
    }

    /** Adds aliases, which take over the endpoints of the base. */
    method AddAlias(base: Base, added: seq<Base>) returns (ok: bool, ghost order: seq<Endpoint>)
      modifies this
      ensures Enumerates(order, Endpoints(old(routes), base))
      ensures (Value(), ok) == RouterModel.AddAlias(old(Value()), base, added, order)
    {
      hide ForceAddEach, RouterModel.ForceAddAll, Covers, Distinct, Universe, Kept;
      var endpoints := Endpoints(routes, base);
      var visited := Order(endpoints);
      order := visited;
      if exists a :: a in added && a in reserved {
        return false, order;
      }
      reserved := reserved + (set a | a in added);
      aliases := WithAliases(aliases, base, added);
      ghost var all := AliasUniverse(old(aliases), base, added);

      ok := true;
      EachNone(routes, aliases, all, added, endpoints);
      for i := 0 to |visited|
        invariant aliases == WithAliases(old(aliases), base, added)
        invariant reserved == old(reserved) + (set a | a in added)
        invariant forall e :: e in visited[..i] ==> e in endpoints
        invariant Outcome(routes, ok) == ForceAddEach(old(routes), aliases, all, added, visited[..i], endpoints)
      {
        var e := visited[i];
        assert e in visited;
        EachOne(old(routes), aliases, all, added, visited, i, endpoints);
        var inner := ForceAddAll(added, e, endpoints[e], all);
        ok := ok && inner;
      }
      assert visited[..|visited|] == visited;
    }
  }

  lemma EachNone(r: Routes, aliases: Aliases, all: set<Base>, list: seq<Base>, handlers: map<Endpoint, Handler>)
    requires (forall a :: a in list ==> a in all) && Covers(all, aliases)
    ensures ForceAddEach(r, aliases, all, list, [], handlers) == Outcome(r, true)
  {
  }

  lemma EachOne(r: Routes, aliases: Aliases, all: set<Base>, list: seq<Base>, order: seq<Endpoint>, i: nat,
      handlers: map<Endpoint, Handler>)
    requires (forall a :: a in list ==> a in all) && Covers(all, aliases) && i < |order|
    requires forall e :: e in order ==> e in handlers
    ensures var front := ForceAddEach(r, aliases, all, list, order[..i], handlers);
      var last := RouterModel.ForceAddAll(front.routes, aliases, all, list, order[i], handlers[order[i]]);
      ForceAddEach(r, aliases, all, list, order[..i + 1], handlers) == Outcome(last.routes, front.ok && last.ok)
  {
    assert order[..i + 1][..i] == order[..i];
  }

  /** Some order of the endpoints. */
  method Order(endpoints: map<Endpoint, Handler>) returns (order: seq<Endpoint>)
    ensures Enumerates(order, endpoints)
  {
    order := [];
    var left := endpoints.Keys;
    while left != {}
      invariant left <= endpoints.Keys
      invariant forall e :: e in order <==> e in endpoints && e !in left
      invariant Distinct(order)
      decreases |left|
    {
      var e :| e in left;
      assert e !in order;
      left := left - {e};
      order := order + [e];
    }
  }
}
