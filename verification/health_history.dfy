/**
 Which checks are registered, which of them fail and what a query answers, in terms of what was registered and of the
 results of the checks, over every run.
 */
module HealthHistory {
  import opened Wrappers
  import opened HealthModel

  function Front(h: seq<Event>): seq<Event>
    requires h != []
  {
    h[..|h| - 1]
  }

  function Back(h: seq<Event>): Event
    requires h != []
  {
    h[|h| - 1]
  }

  /** The tags a check was registered with, if it was. */
  function TagsOf(h: seq<Event>, name: Name): Option<seq<Tag>> {
    if h == [] then None
    else if Back(h).Registered? && Back(h).name == name then Some(Back(h).tags)
    else TagsOf(Front(h), name)
  }

  /** The last result of a check since it was registered, if it has run since. */
  function LastResult(h: seq<Event>, name: Name): Option<bool> {
    if h == [] || (Back(h).Registered? && Back(h).name == name) then None
    else if Back(h).Ran? && Back(h).name == name then Some(Back(h).failed)
    else LastResult(Front(h), name)
  }

  /** A query without tags is about all checks, any other about those with one of its tags; application checks are
      always included. */
  predicate Concerns(query: seq<Tag>, tags: seq<Tag>) {
    query == [] || ALL in query || APPLICATION in tags || exists t :: t in query && t in tags
  }

  /** What one event does to the registered and to the failing checks. */
  lemma StepFollows(s: State, e: Event, name: Name)
    requires TagsInv(s.checks, s.tags) && Allowed(s, e)
    ensures var s1 := Step(s, e);
      && TagsInv(s1.checks, s1.tags)
      && (if e.Registered? && e.name == name then name in s1.checks && s1.checks[name].tags == e.tags
          else (name in s1.checks <==> name in s.checks) && (name in s.checks ==> s1.checks[name] == s.checks[name]))
      && (name in s1.failing <==> if e.name != name then name in s.failing else e.Registered? || e.failed)
  {
    if e.Registered? {
      RegisterShape(s, e.name, e.tags);
    }
  }

  lemma StartFollows()
    ensures TagsInv(Init().checks, Init().tags)
  {
  }

  lemma PrefixSplits(events: seq<Event>, n: nat)
    requires 0 < n <= |events|
    ensures Front(events[..n]) == events[..n - 1] && Back(events[..n]) == events[n - 1]
  {
  }

  /**
   At every point of every run, the checks are those that were registered, with their tags, and a check fails exactly
   if its last result was a failure or it has not run since it was registered.
   */
  lemma {:induction false} FailingFollowsHistory(trace: seq<State>, events: seq<Event>, n: nat, name: Name)
    requires IsRun(trace, events) && n < |trace|
    ensures var s, h := trace[n], events[..n];
      && TagsInv(s.checks, s.tags)
      && TagsOf(h, name) == (if name in s.checks then Some(s.checks[name].tags) else None)
      && (name in s.failing <==> TagsOf(h, name).Some? && LastResult(h, name) != Some(false))
  {
    hide TagsInv, Step, Allowed;
    if n == 0 {
      StartFollows();
    } else {
      FailingFollowsHistory(trace, events, n - 1, name);
      PrefixSplits(events, n);
      assert Allowed(trace[n - 1], events[n - 1]) && trace[n] == Step(trace[n - 1], events[n - 1]);
      StepFollows(trace[n - 1], events[n - 1], name);
      RunsAreRegistered(trace[n - 1], events[n - 1]);
    }
  }

  lemma RunsAreRegistered(s: State, e: Event)
    requires Allowed(s, e)
    ensures e.Ran? ==> e.name in s.checks
  {
  }

  /** The checks a query covers are the registered ones it concerns. */
  lemma CoveredIsConcerned(s: State, query: seq<Tag>, name: Name)
    requires TagsInv(s.checks, s.tags)
    ensures name in Covered(s, query) <==> name in s.checks && Concerns(query, s.checks[name].tags)
  {
    if name in s.checks {
      var tags := s.checks[name].tags;
      forall t
        ensures name in Tagged(s.tags, t) <==> t == ALL || t in tags
      {
        assert name in Tagged(s.tags, t) <==> Carries(s.checks[name], t);
      }
      if Concerns(query, tags) {
        var t := if query == [] || ALL in query then ALL
                 else if APPLICATION in tags then APPLICATION
                 else var u :| u in query && u in tags; u;
        assert t in Queried(query) && name in Tagged(s.tags, t);
      }
    }
  }

  /**
   At every point of every run, a query covers exactly the registered checks that it concerns, and is healthy exactly
   if each of them has run since it was registered and passed the last time.
   */
  lemma HealthyFollowsHistory(trace: seq<State>, events: seq<Event>, n: nat, query: seq<Tag>)
    requires IsRun(trace, events) && n < |trace|
    ensures var s, h := trace[n], events[..n];
      && (forall name :: name in Covered(s, query) <==>
            TagsOf(h, name).Some? && Concerns(query, TagsOf(h, name).value))
      && (Healthy(s, query) <==>
            forall name :: TagsOf(h, name).Some? && Concerns(query, TagsOf(h, name).value) ==>
              LastResult(h, name) == Some(false))
  {
    hide TagsInv, Concerns, Covered;
    var s, h := trace[n], events[..n];
    forall name
      ensures name in Covered(s, query) <==> TagsOf(h, name).Some? && Concerns(query, TagsOf(h, name).value)
      ensures name in s.failing <==> TagsOf(h, name).Some? && LastResult(h, name) != Some(false)
    {
      FailingFollowsHistory(trace, events, n, name);
      CoveredIsConcerned(s, query, name);
    }
  }
}
