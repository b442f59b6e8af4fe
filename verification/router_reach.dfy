/**
 When adding a route succeeds: exactly when every base that the aliases lead to lacks the endpoint, and the aliases
 lead to each of them in one way only.
 */
module RouterReach {
  import opened Wrappers
  import opened RouterModel

  /** Where a walk along the aliases ends; the walk is the sequence of alias positions taken. */
  ghost function End(aliases: Aliases, b: Base, walk: seq<nat>): Option<Base>
    decreases |walk|
  {
    if walk == [] then Some(b)
    else if walk[0] < |AliasesOf(aliases, b)| then End(aliases, AliasesOf(aliases, b)[walk[0]], walk[1..])
    else None
  }

  ghost predicate Reaches(aliases: Aliases, b: Base, x: Base) {
    exists walk :: End(aliases, b, walk) == Some(x)
  }

  ghost predicate ReachedFrom(aliases: Aliases, list: seq<Base>, x: Base) {
    exists i :: 0 <= i < |list| && Reaches(aliases, list[i], x)
  }

  /** No base that is reached has the endpoint. */
  ghost predicate Clear(r: Routes, aliases: Aliases, b: Base, e: Endpoint) {
    forall x :: Reaches(aliases, b, x) ==> !Has(r, x, e)
  }

  /** No base is reached in two ways. */
  ghost predicate Once(aliases: Aliases, b: Base) {
    forall v, w :: End(aliases, b, v).Some? && End(aliases, b, v) == End(aliases, b, w) ==> v == w
  }

  ghost predicate Addable(r: Routes, aliases: Aliases, b: Base, e: Endpoint) {
    Clear(r, aliases, b, e) && Once(aliases, b)
  }

  /** As Addable, for the bases of a list one after the other. */
  ghost predicate AllAddable(r: Routes, aliases: Aliases, list: seq<Base>, e: Endpoint) {
    && (forall i :: 0 <= i < |list| ==> Addable(r, aliases, list[i], e))
    && (forall i, j, x :: 0 <= i < j < |list| && Reaches(aliases, list[i], x) ==> !Reaches(aliases, list[j], x))
  }

  lemma StepEnds(aliases: Aliases, b: Base, i: nat, walk: seq<nat>)
    requires i < |AliasesOf(aliases, b)|
    ensures End(aliases, b, [i] + walk) == End(aliases, AliasesOf(aliases, b)[i], walk)
  {
    assert ([i] + walk)[1..] == walk;
  }

  lemma ReachesAlias(aliases: Aliases, b: Base, i: nat, x: Base)
    requires i < |AliasesOf(aliases, b)| && Reaches(aliases, AliasesOf(aliases, b)[i], x)
    ensures Reaches(aliases, b, x)
  {
    var walk :| End(aliases, AliasesOf(aliases, b)[i], walk) == Some(x);
    StepEnds(aliases, b, i, walk);
  }

  lemma ReachesItself(aliases: Aliases, b: Base)
    ensures Reaches(aliases, b, b)
  {
    assert End(aliases, b, []) == Some(b);
  }

  // ---------------------------------------------------------------------------------------
  // What is added is what is reached.
  // ---------------------------------------------------------------------------------------

  lemma {:induction false} AddedAlongWalk(r: Routes, r': Routes, aliases: Aliases, e: Endpoint, b: Base, walk: seq<nat>)
    requires AddedToAliases(r, r', aliases, e) && Added(r, r', b, e) && End(aliases, b, walk).Some?
    ensures Added(r, r', End(aliases, b, walk).value, e)
    decreases |walk|
  {
    if walk != [] {
      var a := AliasesOf(aliases, b)[walk[0]];
      assert Added(r, r', a, e);
      AddedAlongWalk(r, r', aliases, e, a, walk[1..]);
    }
  }

  lemma {:induction false} AddedIsReached(r: Routes, aliases: Aliases, all: set<Base>, base: Base, e: Endpoint,
      h: Handler, x: Base)
    requires base in all && Covers(all, aliases)
    requires Added(r, ForceAdd(r, aliases, all, base, e, h).routes, x, e)
    ensures Reaches(aliases, base, x)
    decreases Lacking(r, all, e), 0
  {
    hide Added;
    if Has(r, base, e) {
      NothingAdded(r, x, e);
    } else if x == base {
      ReachesItself(aliases, base);
    } else {
      var r' := Bind(r, base, e, h);
      assert base in Lacking(r, all, e) && base !in Lacking(r', all, e);
      AddedAfterBind(r, base, e, h, ForceAdd(r, aliases, all, base, e, h).routes, x);
      AllAddedIsReached(r', aliases, all, AliasesOf(aliases, base), e, h, x);
      var i :| 0 <= i < |AliasesOf(aliases, base)| && Reaches(aliases, AliasesOf(aliases, base)[i], x);
      ReachesAlias(aliases, base, i, x);
    }
  }

  lemma NothingAdded(r: Routes, x: Base, e: Endpoint)
    ensures !Added(r, r, x, e)
  {
  }

  lemma AddedAfterBind(r: Routes, base: Base, e: Endpoint, h: Handler, r'': Routes, x: Base)
    requires Added(r, r'', x, e) && x != base
    ensures Added(Bind(r, base, e, h), r'', x, e)
  {
  }

  lemma {:induction false} AllAddedIsReached(
    r: Routes, aliases: Aliases, all: set<Base>, list: seq<Base>, e: Endpoint, h: Handler, x: Base)
    requires (forall a :: a in list ==> a in all) && Covers(all, aliases)
    requires Added(r, ForceAddAll(r, aliases, all, list, e, h).routes, x, e)
    ensures ReachedFrom(aliases, list, x)
    decreases Lacking(r, all, e), 1 + |list|
  {
    if list != [] {
      var rest, last := list[..|list| - 1], list[|list| - 1];
      var front := ForceAddAll(r, aliases, all, rest, e, h);
      assert Lacking(front.routes, all, e) <= Lacking(r, all, e);
      if Added(r, front.routes, x, e) {
        AllAddedIsReached(r, aliases, all, rest, e, h, x);
        var i :| 0 <= i < |rest| && Reaches(aliases, rest[i], x);
        assert list[i] == rest[i];
      } else {
        AddedIsReached(front.routes, aliases, all, last, e, h, x);
      }
    }
  }

  /** After success, the bases with the endpoint are those that had it and those that are reached. */
  lemma AllAddedIffReached(
    r: Routes, aliases: Aliases, all: set<Base>, list: seq<Base>, e: Endpoint, h: Handler, x: Base)
    requires (forall a :: a in list ==> a in all) && Covers(all, aliases)
    requires ForceAddAll(r, aliases, all, list, e, h).ok
    ensures Has(ForceAddAll(r, aliases, all, list, e, h).routes, x, e) <==>
      Has(r, x, e) || ReachedFrom(aliases, list, x)
  {
    var r' := ForceAddAll(r, aliases, all, list, e, h).routes;
    ForceAddAllAdds(r, aliases, all, list, e, h);
    if Added(r, r', x, e) {
      AllAddedIsReached(r, aliases, all, list, e, h, x);
    }
    if ReachedFrom(aliases, list, x) {
      var i :| 0 <= i < |list| && Reaches(aliases, list[i], x);
      var walk :| End(aliases, list[i], walk) == Some(x);
      assert list[i] in list;
      AddedAlongWalk(r, r', aliases, e, list[i], walk);
    }
  }

  // ---------------------------------------------------------------------------------------
  // Success.
  // ---------------------------------------------------------------------------------------

  /** A base can be added to when it lacks the endpoint and its aliases can be added to after that. */
  lemma AddableIff(r: Routes, aliases: Aliases, base: Base, e: Endpoint, h: Handler)
    ensures Addable(r, aliases, base, e) <==>
      !Has(r, base, e) && AllAddable(Bind(r, base, e, h), aliases, AliasesOf(aliases, base), e)
  {
    ReachesItself(aliases, base);
    if Addable(r, aliases, base, e) {
      AddableGivesAll(r, aliases, base, e, h);
    }
    if !Has(r, base, e) && AllAddable(Bind(r, base, e, h), aliases, AliasesOf(aliases, base), e) {
      AllGivesAddable(r, aliases, base, e, h);
    }
  }

  lemma HasAfterBind(r: Routes, base: Base, e: Endpoint, h: Handler, x: Base)
    ensures Has(Bind(r, base, e, h), x, e) <==> Has(r, x, e) || x == base
  {
  }

  lemma AddableGivesAll(r: Routes, aliases: Aliases, base: Base, e: Endpoint, h: Handler)
    requires Addable(r, aliases, base, e)
    ensures AllAddable(Bind(r, base, e, h), aliases, AliasesOf(aliases, base), e)
  {
    hide Has, Bind;
    var list := AliasesOf(aliases, base);
    forall i, x | 0 <= i < |list| && Reaches(aliases, list[i], x)
      ensures !Has(Bind(r, base, e, h), x, e)
    {
      var walk :| End(aliases, list[i], walk) == Some(x);
      StepEnds(aliases, base, i, walk);
      assert End(aliases, base, []) == Some(base);
      assert [i] + walk != [];
      HasAfterBind(r, base, e, h, x);
    }
    forall i, v, w | && 0 <= i < |list| && End(aliases, list[i], v).Some?
                     && End(aliases, list[i], v) == End(aliases, list[i], w)
      ensures v == w
    {
      StepEnds(aliases, base, i, v);
      StepEnds(aliases, base, i, w);
      assert [i] + v == [i] + w;
      assert v == ([i] + v)[1..] && w == ([i] + w)[1..];
    }
    forall i, j, x | 0 <= i < j < |list| && Reaches(aliases, list[i], x)
      ensures !Reaches(aliases, list[j], x)
    {
      var v :| End(aliases, list[i], v) == Some(x);
      StepEnds(aliases, base, i, v);
      forall w
        ensures End(aliases, list[j], w) != Some(x)
      {
        StepEnds(aliases, base, j, w);
        assert ([i] + v)[0] == i && ([j] + w)[0] == j;
      }
    }
  }

  lemma AllGivesAddable(r: Routes, aliases: Aliases, base: Base, e: Endpoint, h: Handler)
    requires !Has(r, base, e) && AllAddable(Bind(r, base, e, h), aliases, AliasesOf(aliases, base), e)
    ensures Addable(r, aliases, base, e)
  {
    hide Has, Bind;
    var list := AliasesOf(aliases, base);
    forall w | End(aliases, base, w).Some?
      ensures !Has(r, End(aliases, base, w).value, e)
      ensures w == [] || End(aliases, base, w).value != base
    {
      var x := End(aliases, base, w).value;
      if w != [] {
        FirstStep(aliases, base, w);
        assert Addable(Bind(r, base, e, h), aliases, list[w[0]], e);
        HasAfterBind(r, base, e, h, x);
      }
    }
    forall v, w | End(aliases, base, v).Some? && End(aliases, base, v) == End(aliases, base, w)
      ensures v == w
    {
      if v != [] && w != [] {
        FirstStep(aliases, base, v);
        FirstStep(aliases, base, w);
        assert v[0] == w[0];
        assert Once(aliases, list[v[0]]);
        assert v == [v[0]] + v[1..] && w == [w[0]] + w[1..];
      }
    }
  }

  lemma FirstStep(aliases: Aliases, b: Base, walk: seq<nat>)
    requires walk != [] && End(aliases, b, walk).Some?
    ensures walk[0] < |AliasesOf(aliases, b)|
    ensures End(aliases, AliasesOf(aliases, b)[walk[0]], walk[1..]) == End(aliases, b, walk)
    ensures Reaches(aliases, AliasesOf(aliases, b)[walk[0]], End(aliases, b, walk).value)
  {
  }

  lemma AllAddableAppend(r: Routes, aliases: Aliases, rest: seq<Base>, last: Base, e: Endpoint)
    ensures AllAddable(r, aliases, rest + [last], e) <==>
      && AllAddable(r, aliases, rest, e) && Addable(r, aliases, last, e)
      && forall x :: ReachedFrom(aliases, rest, x) ==> !Reaches(aliases, last, x)
  {
    hide Addable, Reaches;
    var list := rest + [last];
    assert list[|rest|] == last && forall i :: 0 <= i < |rest| ==> list[i] == rest[i];
    if AllAddable(r, aliases, list, e) {
      forall x | ReachedFrom(aliases, rest, x)
        ensures !Reaches(aliases, last, x)
      {
        var i :| 0 <= i < |rest| && Reaches(aliases, rest[i], x);
        assert Reaches(aliases, list[i], x);
      }
    }
  }

  /** The last base of a list can be added to after the others were, when it could before and reaches none of theirs. */
  lemma AddableAfter(
    r: Routes, aliases: Aliases, all: set<Base>, rest: seq<Base>, last: Base, e: Endpoint, h: Handler)
    requires (forall a :: a in rest ==> a in all) && Covers(all, aliases)
    requires ForceAddAll(r, aliases, all, rest, e, h).ok
    ensures Addable(ForceAddAll(r, aliases, all, rest, e, h).routes, aliases, last, e) <==>
      Addable(r, aliases, last, e) && forall x :: ReachedFrom(aliases, rest, x) ==> !Reaches(aliases, last, x)
  {
    hide Has, Reaches, ReachedFrom, Once, ForceAddAll;
    forall x
      ensures Has(ForceAddAll(r, aliases, all, rest, e, h).routes, x, e) <==>
        Has(r, x, e) || ReachedFrom(aliases, rest, x)
    {
      AllAddedIffReached(r, aliases, all, rest, e, h, x);
    }
  }

  /** Adding an endpoint succeeds exactly when all bases reached lack it and are reached once. */
  lemma {:induction false} ForceAddSucceedsIff(r: Routes, aliases: Aliases, all: set<Base>, base: Base, e: Endpoint,
      h: Handler)
    requires base in all && Covers(all, aliases)
    ensures ForceAdd(r, aliases, all, base, e, h).ok <==> Addable(r, aliases, base, e)
    decreases Lacking(r, all, e), 0
  {
    hide Addable, AllAddable;
    AddableIff(r, aliases, base, e, h);
    if !Has(r, base, e) {
      var r' := Bind(r, base, e, h);
      assert base in Lacking(r, all, e) && base !in Lacking(r', all, e);
      ForceAddAllSucceedsIff(r', aliases, all, AliasesOf(aliases, base), e, h);
    }
  }

  lemma {:induction false} ForceAddAllSucceedsIff(
    r: Routes, aliases: Aliases, all: set<Base>, list: seq<Base>, e: Endpoint, h: Handler)
    requires (forall a :: a in list ==> a in all) && Covers(all, aliases)
    ensures ForceAddAll(r, aliases, all, list, e, h).ok <==> AllAddable(r, aliases, list, e)
    decreases Lacking(r, all, e), 1 + |list|
  {
    hide Addable;
    if list != [] {
      var rest, last := list[..|list| - 1], list[|list| - 1];
      assert list == rest + [last];
      ForceAddAllSucceedsIff(r, aliases, all, rest, e, h);
      AllAddableAppend(r, aliases, rest, last, e);
      var front := ForceAddAll(r, aliases, all, rest, e, h);
      assert Lacking(front.routes, all, e) <= Lacking(r, all, e);
      ForceAddSucceedsIff(front.routes, aliases, all, last, e, h);
      if front.ok {
        AddableAfter(r, aliases, all, rest, last, e, h);
      }
    }
  }
}
