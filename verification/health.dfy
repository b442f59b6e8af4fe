/** The worker that runs health checks, with its gauges updated in place. */
module Health {
  import opened Wrappers
  import opened HealthModel
  import History = HealthHistory

  datatype Error = RestrictedTag | DuplicateCheck

  lemma AddToNone(g: Gauges, d: int)
    ensures AddToAll(g, {}, d) == g
  {
  }

  lemma AddToOneMore(g: Gauges, done: set<Tag>, t: Tag, d: int)
    requires t !in done
    ensures Add(AddToAll(g, done, d), t, d) == AddToAll(g, done + {t}, d)
  {
  }

  lemma NameNone(tags: map<Tag, set<Name>>, name: Name)
    ensures Named(tags, {}, name) == tags
  {
  }

  lemma NameOneMore(tags: map<Tag, set<Name>>, done: set<Tag>, t: Tag, name: Name)
    ensures var named := Named(tags, done, name);
      named[t := Tagged(named, t) + {name}] == Named(tags, done + {t}, name)
  {
  }

  class Worker {
    var checks: map<Name, Check>
    var failing: set<Name>
    var tags: map<Tag, set<Name>>
    var gauges: Gauges
    var failingApplications: int

    ghost function Value(): State
      reads this
    {
      State(checks, failing, tags, gauges, failingApplications)
    }

    /** Every gauge counts the failing checks that matter for its tag. */
    ghost predicate Valid()
      reads this
    {
      Inv(Value())
    }

    /** Tags lead to the checks that carry them; this holds whatever was registered. */
    ghost predicate Shaped()
      reads this
    {
      TagsInv(checks, tags)
    }

    constructor ()
      ensures Valid() && Value() == Init()
    {
      checks, failing, tags, failingApplications := map[], {}, map[], 0;
      gauges := map[ALL := 0, APPLICATION := 0];
      InitIsExact();
    }

    method AddToAllTags(d: int)
      modifies this`gauges
      ensures gauges == AddToAll(old(gauges), tags.Keys, d)
    {
      AddToNone(gauges, d);
      var done: set<Tag> := {};
      while tags.Keys - done != {}
        invariant done <= tags.Keys && gauges == AddToAll(old(gauges), done, d)
        decreases tags.Keys - done
      {
        var t :| t in tags.Keys - done;
        AddToOneMore(old(gauges), done, t, d);
        done := done + {t};
        gauges := Add(gauges, t, d);
      }
      assert done == tags.Keys;
    }

    method AddToCheckTags(tagsOf: seq<Tag>, d: int, register: bool)
      modifies this`gauges
      ensures gauges == AddToEach(old(gauges), tagsOf, d,
        if register && d > 0 then (set t | t in tagsOf && t in tags && |tags[t]| == 1) else {}, failingApplications)
    {
      ghost var added := if register && d > 0 then (set t | t in tagsOf && t in tags && |tags[t]| == 1) else {};
      for i := 0 to |tagsOf|
        invariant gauges == AddToEach(old(gauges), tagsOf[..i], d, added, failingApplications)
      {
        var t := tagsOf[i];
        assert tagsOf[..i + 1][..i] == tagsOf[..i];
        gauges := Add(gauges, t, d);
        if d > 0 && register && t in tags && |tags[t]| == 1 {
          gauges := Add(gauges, t, failingApplications);
        }
      }
      assert tagsOf[..|tagsOf|] == tagsOf;
    }

    method UpdateMetrics(c: Check, healthy: bool, register: bool)
      modifies this`gauges, this`failingApplications
      ensures Value() == Updated(old(Value()), c, healthy, register)
    {
      if c.isApplication {
        AddToAllTags(if healthy then -1 else 1);
        failingApplications := failingApplications + if healthy then -1 else 1;
      } else {
        AddToCheckTags(c.tags, if healthy then -1 else 1, register);
        gauges := Add(gauges, ALL, if healthy then -1 else 1);
      }
    }

    method AddName(added: seq<Tag>, name: Name)
      modifies this`tags
      ensures tags == WithName(old(tags), added, name)
    {
      NameNone(tags, name);
      ghost var done: set<Tag> := {};
      for i := 0 to |added|
        invariant done == (set u | u in added[..i]) && tags == Named(old(tags), done, name)
      {
        NameOneMore(old(tags), done, added[i], name);
        done := done + {added[i]};
        tags := tags[added[i] := Tagged(tags, added[i]) + {name}];
        assert added[..i + 1] == added[..i] + [added[i]];
      }
      assert added[..|added|] == added;
      NameOneMore(old(tags), done, ALL, name);
      tags := tags[ALL := Tagged(tags, ALL) + {name}];
    }

    /** Registers a check as failing. The gauges stay exact exactly when the tags allow it. */
    method RegisterCheck(name: Name, tagsOf: seq<Tag>) returns (r: Result<(), Error>)
      requires Shaped()
      modifies this
      ensures Shaped()
      ensures r == if ALL in tagsOf then Err(RestrictedTag)
                   else if name in old(checks) then Err(DuplicateCheck) else Ok(())
      ensures r.Err? ==> Value() == old(Value())
      ensures r.Ok? ==> Value() == Register(old(Value()), name, tagsOf)
      ensures r.Ok? ==> checks == old(checks)[name := Check(APPLICATION in tagsOf, tagsOf)]
      ensures r.Ok? ==> failing == old(failing) + {name}
      ensures old(Valid()) ==> (GaugesExact(Value()) <==> r.Err? || KeepsExact(old(Value()), tagsOf))
      ensures old(Valid()) && GaugesExact(Value()) ==> Valid()
    {
      if ALL in tagsOf {
        return Err(RestrictedTag);
      }
      if name in checks {
        return Err(DuplicateCheck);
      }
      RegisterShape(Value(), name, tagsOf);
      if Inv(Value()) {
        RegisterKeepsExactIff(Value(), name, tagsOf);
      }
      AddName(tagsOf, name);
      var c := Check(name in Tagged(tags, APPLICATION), tagsOf);
      checks := checks[name := c];
      failing := failing + {name};
      UpdateMetrics(c, false, true);
      return Ok(());
    }

    /** Records the result of a check. */
    method RunCheck(name: Name, failed: bool)
      requires name in checks
      modifies this`failing, this`gauges, this`failingApplications
      ensures Value() == HealthModel.RunCheck(old(Value()), name, failed)
      ensures failing == if failed then old(failing) + {name} else old(failing) - {name}
      ensures old(Valid()) ==> Valid()
    {
      if Inv(Value()) {
        RunCheckKeepsInv(Value(), name, failed);
      }
      var wasFailing := name in failing;
      if failed {
        if !wasFailing {
          UpdateMetrics(checks[name], false, false);
        }
        failing := failing + {name};
      } else {
        if wasFailing {
          UpdateMetrics(checks[name], true, false);
        }
        failing := failing - {name};
      }
      assert failed == wasFailing ==> failing == old(failing);
    }

    /** The covered checks, each with whether it fails, and whether none does. */
    method Results(query: seq<Tag>) returns (results: map<Name, bool>, healthy: bool)
      requires Shaped()
      ensures forall n :: n in results <==> n in checks && History.Concerns(query, checks[n].tags)
      ensures forall n :: n in results ==> (results[n] <==> n in failing)
      ensures healthy <==> forall n :: n in checks && History.Concerns(query, checks[n].tags) ==> n !in failing
      ensures Valid() ==>
        (healthy <==>
           failingApplications == 0 && forall t :: t in Queried(query) && t in tags ==> At(gauges, t) == 0)
    {
      if Inv(Value()) {
        HealthyIffGaugesAreZero(Value(), query);
      }
      var names := Names(query);
      results := map n | n in names && n in checks :: n in failing;
      healthy := forall n :: n in results ==> !results[n];
      assert results.Keys == Covered(Value(), query);
      assert healthy <==> forall n :: n in Covered(Value(), query) ==> n !in failing;
      forall n
        ensures n in results <==> n in checks && History.Concerns(query, checks[n].tags)
      {
        History.CoveredIsConcerned(Value(), query, n);
      }
    }

    method Names(query: seq<Tag>) returns (names: set<Name>)
      ensures forall n :: n in names <==> exists t :: t in Queried(query) && n in Tagged(tags, t)
    {
      names := {};
      var left := Queried(query);
      while left != {}
        invariant left <= Queried(query)
        invariant forall n :: n in names <==> exists t :: t in Queried(query) && t !in left && n in Tagged(tags, t)
        decreases |left|
      {
        var t :| t in left;
        left := left - {t};
        names := names + Tagged(tags, t);
      }
    }
  }
}
