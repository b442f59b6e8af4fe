/**
 Health checks with tags. A gauge per tag counts the failing checks that matter for the tag, kept up to date one
 change at a time; application checks matter for every tag.
 */
module HealthModel {
  import opened Collections

  datatype Name = Name(text: string)

  datatype Tag = Tag(text: string)

  const ALL := Tag("all")
  const APPLICATION := Tag("application")

  datatype Check = Check(isApplication: bool, tags: seq<Tag>)

  type Gauges = map<Tag, int>

  datatype State = State(
    checks: map<Name, Check>,
    failing: set<Name>,
    tags: map<Tag, set<Name>>,
    gauges: Gauges,
    failingApplications: int)

  function Init(): State {
    State(map[], {}, map[], map[ALL := 0, APPLICATION := 0], 0)
  }

  // ---------------------------------------------------------------------------------------
  // Gauges.
  // ---------------------------------------------------------------------------------------

  /** A gauge that was never set reads zero. */
  function At(g: Gauges, t: Tag): int {
    if t in g then g[t] else 0
  }

  function Add(g: Gauges, t: Tag, d: int): Gauges {
    g[t := At(g, t) + d]
  }

  function AddToAll(g: Gauges, keys: set<Tag>, d: int): Gauges {
    map t | t in g.Keys + keys :: if t in keys then At(g, t) + d else At(g, t)
  }

  /** Adds d for every occurrence of a tag, and the bonus as well for the tags that are new. */
  function AddToEach(g: Gauges, tags: seq<Tag>, d: int, added: set<Tag>, bonus: int): Gauges {
    if tags == [] then g
    else
      var last := tags[|tags| - 1];
      Add(AddToEach(g, tags[..|tags| - 1], d, added, bonus), last, d + if last in added then bonus else 0)
  }

  lemma {:induction false} AddToEachAt(g: Gauges, tags: seq<Tag>, d: int, added: set<Tag>, bonus: int, t: Tag)
    requires Distinct(tags)
    ensures At(AddToEach(g, tags, d, added, bonus), t) ==
      At(g, t) + if t in tags then d + (if t in added then bonus else 0) else 0
  {
    if tags != [] {
      var front, last := tags[..|tags| - 1], tags[|tags| - 1];
      AddToEachAt(g, front, d, added, bonus, t);
      assert t in tags <==> t in front || t == last;
      assert last !in front;
    }
  }

  /** Repeated tags are counted every time. */
  lemma {:induction false} AddToEachAtLeast(g: Gauges, tags: seq<Tag>, added: set<Tag>, bonus: int, t: Tag)
    requires bonus >= 0
    ensures At(AddToEach(g, tags, 1, added, bonus), t) >= At(g, t) + multiset(tags)[t]
    ensures t in tags && t in added ==>
      At(AddToEach(g, tags, 1, added, bonus), t) >= At(g, t) + multiset(tags)[t] + bonus
  {
    if tags != [] {
      var front, last := tags[..|tags| - 1], tags[|tags| - 1];
      AddToEachAtLeast(g, front, added, bonus, t);
      assert tags == front + [last];
      assert multiset(tags) == multiset(front) + multiset{last};
      assert t in tags <==> t in front || t == last;
    }
  }

  // ---------------------------------------------------------------------------------------
  // Operations.
  // ---------------------------------------------------------------------------------------

  /** The change of the gauges when a check starts or stops failing. `register` when it was just registered. */
  function Updated(s: State, c: Check, healthy: bool, register: bool): State {
    var d := if healthy then -1 else 1;
    if c.isApplication then
      s.(gauges := AddToAll(s.gauges, s.tags.Keys, d), failingApplications := s.failingApplications + d)
    else
      var added := set t | t in c.tags && t in s.tags && |s.tags[t]| == 1;
      var each := AddToEach(s.gauges, c.tags, d, if register && !healthy then added else {}, s.failingApplications);
      s.(gauges := Add(each, ALL, d))
  }

  function Tagged(tags: map<Tag, set<Name>>, t: Tag): set<Name> {
    if t in tags then tags[t] else {}
  }

  /** The names by tag once a name was added to some tags. */
  function Named(tags: map<Tag, set<Name>>, added: set<Tag>, name: Name): map<Tag, set<Name>> {
    map t | t in tags.Keys + added :: if t in added then Tagged(tags, t) + {name} else Tagged(tags, t)
  }

  /** The names by tag once a check was added to its tags. */
  function WithName(tags: map<Tag, set<Name>>, added: seq<Tag>, name: Name): map<Tag, set<Name>> {
    Named(tags, (set t | t in added) + {ALL}, name)
  }

  predicate CanRegister(s: State, name: Name, tags: seq<Tag>) {
    ALL !in tags && name !in s.checks
  }

  function Register(s: State, name: Name, tags: seq<Tag>): State
    requires CanRegister(s, name, tags)
  {
    var named := WithName(s.tags, tags, name);
    var check := Check(name in Tagged(named, APPLICATION), tags);
    Updated(s.(checks := s.checks[name := check], failing := s.failing + {name}, tags := named), check, false, true)
  }

  function RunCheck(s: State, name: Name, failed: bool): State
    requires name in s.checks
  {
    if failed && name !in s.failing then
      Updated(s, s.checks[name], false, false).(failing := s.failing + {name})
    else if !failed && name in s.failing then
      Updated(s, s.checks[name], true, false).(failing := s.failing - {name})
    else s
  }

  /** The tags a query covers: the application tag always, the tag of all checks if none is given. */
  function Queried(tags: seq<Tag>): set<Tag> {
    (if tags == [] then {ALL} else set t | t in tags) + {APPLICATION}
  }

  ghost function Covered(s: State, tags: seq<Tag>): set<Name> {
    set n | n in s.checks && exists t :: t in Queried(tags) && n in Tagged(s.tags, t)
  }

  ghost predicate Healthy(s: State, tags: seq<Tag>) {
    Covered(s, tags) !! s.failing
  }

  // ---------------------------------------------------------------------------------------
  // The simple definition the gauges have to agree with.
  // ---------------------------------------------------------------------------------------

  type Checks = map<Name, Check>

  ghost predicate Carries(c: Check, t: Tag) {
    t == ALL || t in c.tags
  }

  /** Whether a check counts for a tag: it carries the tag or is an application check. */
  ghost predicate Matters(c: Check, t: Tag) {
    Carries(c, t) || c.isApplication
  }

  ghost function FailingAt(checks: Checks, failing: set<Name>, t: Tag): set<Name> {
    set n | n in failing && n in checks && Matters(checks[n], t)
  }

  ghost function FailingApplications(checks: Checks, failing: set<Name>): set<Name> {
    set n | n in failing && n in checks && checks[n].isApplication
  }

  ghost predicate ChecksInv(checks: Checks, failing: set<Name>) {
    && failing <= checks.Keys
    && (forall n :: n in checks ==> (checks[n].isApplication <==> APPLICATION in checks[n].tags))
    && (forall n :: n in checks ==> ALL !in checks[n].tags)
    && (forall n :: n in checks && !checks[n].isApplication ==> Distinct(checks[n].tags))
  }

  /** Tags lead to the checks that carry them. */
  ghost predicate TagsInv(checks: Checks, tags: map<Tag, set<Name>>) {
    && (forall n, t :: n in Tagged(tags, t) <==> n in checks && Carries(checks[n], t))
    && (forall t :: t in tags ==> tags[t] != {})
  }

  ghost predicate ExactAt(checks: Checks, failing: set<Name>, tags: map<Tag, set<Name>>, gauges: Gauges, t: Tag) {
    At(gauges, t) == if t in tags then |FailingAt(checks, failing, t)| else 0
  }

  ghost predicate GaugesInv(checks: Checks, failing: set<Name>, tags: map<Tag, set<Name>>, gauges: Gauges) {
    forall t :: ExactAt(checks, failing, tags, gauges, t)
  }

  /** Every gauge counts the failing checks that matter for its tag. */
  ghost predicate GaugesExact(s: State) {
    GaugesInv(s.checks, s.failing, s.tags, s.gauges)
  }

  ghost predicate Inv(s: State) {
    && ChecksInv(s.checks, s.failing)
    && TagsInv(s.checks, s.tags)
    && s.failingApplications == |FailingApplications(s.checks, s.failing)|
    && GaugesExact(s)
  }

  lemma InitIsExact()
    ensures Inv(Init())
  {
    assert FailingApplications(map[], {}) == {};
  }

  // ---------------------------------------------------------------------------------------
  // Running a check.
  // ---------------------------------------------------------------------------------------

  lemma FailMore(checks: Checks, failing: set<Name>, name: Name, t: Tag)
    requires name in checks && name !in failing
    ensures |FailingAt(checks, failing + {name}, t)| ==
      |FailingAt(checks, failing, t)| + (if Matters(checks[name], t) then 1 else 0)
    ensures |FailingApplications(checks, failing + {name})| ==
      |FailingApplications(checks, failing)| + (if checks[name].isApplication then 1 else 0)
  {
    if Matters(checks[name], t) {
      assert FailingAt(checks, failing + {name}, t) == FailingAt(checks, failing, t) + {name};
    } else {
      assert FailingAt(checks, failing + {name}, t) == FailingAt(checks, failing, t);
    }
    if checks[name].isApplication {
      assert FailingApplications(checks, failing + {name}) == FailingApplications(checks, failing) + {name};
    } else {
      assert FailingApplications(checks, failing + {name}) == FailingApplications(checks, failing);
    }
  }

  /** A check that changes moves every gauge it matters for by one. */
  lemma UpdatedAt(s: State, c: Check, healthy: bool, t: Tag)
    requires c.isApplication || Distinct(c.tags)
    requires ALL !in c.tags
    ensures At(Updated(s, c, healthy, false).gauges, t) == At(s.gauges, t) +
      (if (if c.isApplication then t in s.tags else Carries(c, t)) then (if healthy then -1 else 1) else 0)
  {
    if !c.isApplication {
      AddToEachAt(s.gauges, c.tags, if healthy then -1 else 1, {}, s.failingApplications, t);
    }
  }

  lemma CarriedIsUsed(checks: Checks, tags: map<Tag, set<Name>>, n: Name, t: Tag)
    requires TagsInv(checks, tags) && n in checks && Carries(checks[n], t)
    ensures t in tags
  {
    assert n in Tagged(tags, t);
  }

  lemma RunCheckKeepsInv(s: State, name: Name, failed: bool)
    requires Inv(s) && name in s.checks
    ensures Inv(RunCheck(s, name, failed))
  {
    if failed != (name in s.failing) {
      var s' := RunCheck(s, name, failed);
      var passing := if failed then s.failing else s'.failing;
      assert s.failing == (if failed then passing else passing + {name});
      assert s'.failing == (if failed then passing + {name} else passing);
      forall t
        ensures ExactAt(s'.checks, s'.failing, s'.tags, s'.gauges, t)
      {
        assert ExactAt(s.checks, s.failing, s.tags, s.gauges, t);
        UpdatedAt(s, s.checks[name], !failed, t);
        FailMore(s.checks, passing, name, t);
        if Carries(s.checks[name], t) {
          CarriedIsUsed(s.checks, s.tags, name, t);
        }
      }
      FailMore(s.checks, passing, name, ALL);
    }
  }

  // ---------------------------------------------------------------------------------------
  // Registering a check.
  // ---------------------------------------------------------------------------------------

  /** When a registration keeps the gauges exact: a plain check needs distinct tags; an application check needs its
      tags to be in use already, unless no application check is failing. */
  ghost predicate KeepsExact(s: State, tags: seq<Tag>) {
    if APPLICATION in tags then s.failingApplications == 0 || forall t :: t in tags ==> t in s.tags
    else Distinct(tags)
  }

  lemma WithNameTags(checks: Checks, tags: map<Tag, set<Name>>, added: seq<Tag>, name: Name, c: Check)
    requires TagsInv(checks, tags) && name !in checks && c.tags == added
    ensures TagsInv(checks[name := c], WithName(tags, added, name))
  {
    var tags' := WithName(tags, added, name);
    forall n, t
      ensures n in Tagged(tags', t) <==> n in checks[name := c] && Carries(checks[name := c][n], t)
    {
      assert n in Tagged(tags', t) <==> n in Tagged(tags, t) || (n == name && Carries(c, t));
    }
  }

  lemma RegisterShape(s: State, name: Name, tags: seq<Tag>)
    requires TagsInv(s.checks, s.tags) && CanRegister(s, name, tags)
    ensures var s' := Register(s, name, tags);
      && s'.checks == s.checks[name := Check(APPLICATION in tags, tags)]
      && s'.failing == s.failing + {name} && s'.tags == WithName(s.tags, tags, name)
      && TagsInv(s'.checks, s'.tags)
  {
    var tags' := WithName(s.tags, tags, name);
    assert name !in Tagged(s.tags, APPLICATION);
    assert name in Tagged(tags', APPLICATION) <==> APPLICATION in tags;
    WithNameTags(s.checks, s.tags, tags, name, Check(APPLICATION in tags, tags));
  }

  lemma RegisterFailing(checks: Checks, failing: set<Name>, name: Name, c: Check, t: Tag)
    requires name !in checks && failing <= checks.Keys
    ensures |FailingAt(checks[name := c], failing + {name}, t)| ==
      |FailingAt(checks, failing, t)| + (if Matters(c, t) then 1 else 0)
    ensures |FailingApplications(checks[name := c], failing + {name})| ==
      |FailingApplications(checks, failing)| + (if c.isApplication then 1 else 0)
  {
    assert FailingAt(checks[name := c], failing, t) == FailingAt(checks, failing, t);
    assert FailingApplications(checks[name := c], failing) == FailingApplications(checks, failing);
    FailMore(checks[name := c], failing, name, t);
  }

  /** For a tag nobody carries, only the application checks matter. */
  lemma UnusedTag(checks: Checks, failing: set<Name>, tags: map<Tag, set<Name>>, t: Tag)
    requires TagsInv(checks, tags) && t !in tags
    ensures FailingAt(checks, failing, t) == FailingApplications(checks, failing)
    ensures t == ALL ==> FailingApplications(checks, failing) == {}
  {
    forall n | n in checks
      ensures !Carries(checks[n], t)
    {
      assert n !in Tagged(tags, t);
    }
  }

  /** The tags of a registered check that no other check carries. */
  ghost function AddedTags(s: State, name: Name, tags: seq<Tag>): set<Tag> {
    var named := WithName(s.tags, tags, name);
    set t | t in tags && t in named && |named[t]| == 1
  }

  lemma AddedIsNew(s: State, name: Name, tags: seq<Tag>, t: Tag)
    requires TagsInv(s.checks, s.tags) && CanRegister(s, name, tags) && t in tags
    ensures t in AddedTags(s, name, tags) <==> t !in s.tags
  {
    var names := Tagged(s.tags, t);
    assert name !in names;
    assert WithName(s.tags, tags, name)[t] == names + {name};
    assert |names + {name}| == |names| + 1;
    assert names == {} <==> t !in s.tags;
  }

  lemma RegisterPlain(s: State, name: Name, tags: seq<Tag>)
    requires TagsInv(s.checks, s.tags) && CanRegister(s, name, tags) && APPLICATION !in tags
    ensures Register(s, name, tags).gauges ==
      Add(AddToEach(s.gauges, tags, 1, AddedTags(s, name, tags), s.failingApplications), ALL, 1)
    ensures Register(s, name, tags).failingApplications == s.failingApplications
  {
    RegisterShape(s, name, tags);
  }

  lemma RegisterApplication(s: State, name: Name, tags: seq<Tag>, t: Tag)
    requires TagsInv(s.checks, s.tags) && CanRegister(s, name, tags) && APPLICATION in tags
    ensures var s' := Register(s, name, tags);
      && (t in s'.tags <==> t in s.tags || t in tags || t == ALL)
      && At(s'.gauges, t) == At(s.gauges, t) + (if t in s'.tags then 1 else 0)
      && s'.failingApplications == s.failingApplications + 1
  {
    RegisterShape(s, name, tags);
  }

  lemma RegisterPlainAt(s: State, name: Name, tags: seq<Tag>, t: Tag)
    requires Inv(s) && CanRegister(s, name, tags) && APPLICATION !in tags && Distinct(tags)
    ensures var s' := Register(s, name, tags); ExactAt(s'.checks, s'.failing, s'.tags, s'.gauges, t)
  {
    hide Register, FailingAt, FailingApplications, Distinct;
    RegisterShape(s, name, tags);
    RegisterPlain(s, name, tags);
    assert ExactAt(s.checks, s.failing, s.tags, s.gauges, t);
    AddToEachAt(s.gauges, tags, 1, AddedTags(s, name, tags), s.failingApplications, t);
    RegisterFailing(s.checks, s.failing, name, Check(false, tags), t);
    if t in tags {
      AddedIsNew(s, name, tags, t);
    }
    if t !in s.tags {
      UnusedTag(s.checks, s.failing, s.tags, t);
    }
  }

  lemma AddCheck(checks: Checks, failing: set<Name>, name: Name, c: Check)
    requires ChecksInv(checks, failing) && name !in checks && ALL !in c.tags
    requires c.isApplication <==> APPLICATION in c.tags
    requires c.isApplication || Distinct(c.tags)
    ensures ChecksInv(checks[name := c], failing + {name})
  {
  }

  lemma RegisterChecks(s: State, name: Name, tags: seq<Tag>)
    requires Inv(s) && CanRegister(s, name, tags) && (APPLICATION in tags || Distinct(tags))
    ensures var s' := Register(s, name, tags);
      && ChecksInv(s'.checks, s'.failing) && TagsInv(s'.checks, s'.tags)
      && s'.failingApplications == |FailingApplications(s'.checks, s'.failing)|
  {
    RegisterShape(s, name, tags);
    if APPLICATION in tags {
      RegisterApplication(s, name, tags, ALL);
    } else {
      RegisterPlain(s, name, tags);
    }
    AddCheck(s.checks, s.failing, name, Check(APPLICATION in tags, tags));
    RegisterFailing(s.checks, s.failing, name, Check(APPLICATION in tags, tags), ALL);
  }

  lemma RegisterPlainKeepsExact(s: State, name: Name, tags: seq<Tag>)
    requires Inv(s) && CanRegister(s, name, tags) && APPLICATION !in tags && Distinct(tags)
    ensures Inv(Register(s, name, tags))
  {
    var s' := Register(s, name, tags);
    RegisterChecks(s, name, tags);
    forall t
      ensures ExactAt(s'.checks, s'.failing, s'.tags, s'.gauges, t)
    {
      RegisterPlainAt(s, name, tags, t);
    }
  }

  lemma RepeatedTag(tags: seq<Tag>) returns (t: Tag)
    requires !Distinct(tags)
    ensures t in tags && multiset(tags)[t] >= 2
  {
    var i, j :| 0 <= i < j < |tags| && tags[i] == tags[j];
    t := tags[i];
    assert tags == tags[..i] + [t] + tags[i + 1..j] + [t] + tags[j + 1..];
  }

  /** A plain check with a repeated tag makes the gauge of that tag too high. */
  lemma RepeatedTagBreaks(s: State, name: Name, tags: seq<Tag>) returns (t: Tag)
    requires Inv(s) && CanRegister(s, name, tags) && APPLICATION !in tags && !Distinct(tags)
    ensures var s' := Register(s, name, tags);
      t in tags && t in s'.tags && At(s'.gauges, t) > |FailingAt(s'.checks, s'.failing, t)|
  {
    t := RepeatedTag(tags);
    RegisterShape(s, name, tags);
    RegisterPlain(s, name, tags);
    RegisterFailing(s.checks, s.failing, name, Check(false, tags), t);
    AddedIsNew(s, name, tags, t);
    AddToEachAtLeast(s.gauges, tags, AddedTags(s, name, tags), s.failingApplications, t);
    assert ExactAt(s.checks, s.failing, s.tags, s.gauges, t);
    if t !in s.tags {
      UnusedTag(s.checks, s.failing, s.tags, t);
    }
  }

  /** After an application check was registered, a gauge is exact unless its tag is new and misses the application
      checks that were already failing. */
  lemma RegisterApplicationAt(s: State, name: Name, tags: seq<Tag>, t: Tag)
    requires Inv(s) && CanRegister(s, name, tags) && APPLICATION in tags
    ensures var s' := Register(s, name, tags);
      ExactAt(s'.checks, s'.failing, s'.tags, s'.gauges, t) <==>
      (t in tags && t !in s.tags ==> s.failingApplications == 0)
  {
    RegisterShape(s, name, tags);
    RegisterApplication(s, name, tags, t);
    RegisterFailing(s.checks, s.failing, name, Check(true, tags), t);
    assert ExactAt(s.checks, s.failing, s.tags, s.gauges, t);
    if t !in s.tags {
      UnusedTag(s.checks, s.failing, s.tags, t);
    }
  }

  lemma RegisterApplicationKeepsExact(s: State, name: Name, tags: seq<Tag>)
    requires Inv(s) && CanRegister(s, name, tags) && APPLICATION in tags
    ensures GaugesExact(Register(s, name, tags)) <==> KeepsExact(s, tags)
  {
    var s' := Register(s, name, tags);
    if KeepsExact(s, tags) {
      forall t
        ensures ExactAt(s'.checks, s'.failing, s'.tags, s'.gauges, t)
      {
        RegisterApplicationAt(s, name, tags, t);
      }
    } else {
      var t :| t in tags && t !in s.tags;
      RegisterApplicationAt(s, name, tags, t);
    }
  }

  /** Registering keeps every gauge exact exactly when the condition on its tags holds. */
  lemma RegisterKeepsExactIff(s: State, name: Name, tags: seq<Tag>)
    requires Inv(s) && CanRegister(s, name, tags)
    ensures GaugesExact(Register(s, name, tags)) <==> KeepsExact(s, tags)
    ensures KeepsExact(s, tags) ==> Inv(Register(s, name, tags))
  {
    var s' := Register(s, name, tags);
    if APPLICATION in tags {
      RegisterApplicationKeepsExact(s, name, tags);
      RegisterChecks(s, name, tags);
    } else if Distinct(tags) {
      RegisterPlainKeepsExact(s, name, tags);
    } else {
      var t := RepeatedTagBreaks(s, name, tags);
      assert !ExactAt(s'.checks, s'.failing, s'.tags, s'.gauges, t);
    }
  }

  /** Two application checks, the second with a tag of its own: its gauge misses the first check. */
  lemma NewTagMissesApplications(first: Name, second: Name, t: Tag)
    requires first != second && t != APPLICATION && t != ALL
    ensures var s := Register(Init(), first, [APPLICATION]);
      && CanRegister(s, second, [APPLICATION, t])
      && var s' := Register(s, second, [APPLICATION, t]);
         t in s'.tags && At(s'.gauges, t) == 1 && |FailingAt(s'.checks, s'.failing, t)| == 2
  {
    InitIsExact();
    RegisterKeepsExactIff(Init(), first, [APPLICATION]);
    RegisterApplication(Init(), first, [APPLICATION], t);
    RegisterShape(Init(), first, [APPLICATION]);
    SecondMissesFirst(Register(Init(), first, [APPLICATION]), second, t);
  }

  lemma SecondMissesFirst(s: State, name: Name, t: Tag)
    requires Inv(s) && s.failingApplications == 1 && t !in s.tags && t != ALL && CanRegister(s, name, [APPLICATION, t])
    ensures var s' := Register(s, name, [APPLICATION, t]);
      t in s'.tags && At(s'.gauges, t) == 1 && |FailingAt(s'.checks, s'.failing, t)| == 2
  {
    var tags := [APPLICATION, t];
    assert tags[0] in tags && tags[1] in tags;
    RegisterShape(s, name, tags);
    RegisterApplication(s, name, tags, t);
    RegisterFailing(s.checks, s.failing, name, Check(true, tags), t);
    UnusedTag(s.checks, s.failing, s.tags, t);
    assert ExactAt(s.checks, s.failing, s.tags, s.gauges, t);
  }

  // ---------------------------------------------------------------------------------------
  // Runs.
  // ---------------------------------------------------------------------------------------

  datatype Event =
    | Registered(name: Name, tags: seq<Tag>)
    | Ran(name: Name, failed: bool)

  ghost predicate Allowed(s: State, e: Event) {
    match e
    case Registered(name, tags) => CanRegister(s, name, tags)
    case Ran(name, _) => name in s.checks
  }

  ghost function Step(s: State, e: Event): State
    requires Allowed(s, e)
  {
    match e
    case Registered(name, tags) => Register(s, name, tags)
    case Ran(name, failed) => RunCheck(s, name, failed)
  }

  ghost predicate IsRun(trace: seq<State>, events: seq<Event>) {
    && |trace| == |events| + 1
    && trace[0] == Init()
    && forall i {:trigger events[i]} :: 0 <= i < |events| ==>
         Allowed(trace[i], events[i]) && trace[i + 1] == Step(trace[i], events[i])
  }

  /** The first n events register no check that spoils a gauge. */
  ghost predicate Careful(trace: seq<State>, events: seq<Event>, n: nat)
    requires n <= |events| < |trace|
  {
    forall i :: 0 <= i < n && events[i].Registered? ==> KeepsExact(trace[i], events[i].tags)
  }

  /** After any registrations that meet the condition and any check results, the gauges and the counter are exact. */
  lemma {:induction false} RunKeepsInv(trace: seq<State>, events: seq<Event>, n: nat)
    requires IsRun(trace, events) && n < |trace| && Careful(trace, events, n)
    ensures Inv(trace[n])
  {
    if n == 0 {
      InitIsExact();
    } else {
      RunKeepsInv(trace, events, n - 1);
      var s, e := trace[n - 1], events[n - 1];
      match e
      case Registered(name, tags) => RegisterKeepsExactIff(s, name, tags);
      case Ran(name, failed) => RunCheckKeepsInv(s, name, failed);
    }
  }

  /** Over every run, the gauges are exact throughout exactly when every registration meets the condition. */
  lemma {:induction false} ExactThroughoutIff(trace: seq<State>, events: seq<Event>, n: nat)
    requires IsRun(trace, events) && n < |trace|
    ensures (forall i :: 0 <= i <= n ==> GaugesExact(trace[i])) <==> Careful(trace, events, n)
  {
    if n == 0 {
      InitIsExact();
    } else {
      ExactThroughoutIff(trace, events, n - 1);
      if Careful(trace, events, n - 1) {
        RunKeepsInv(trace, events, n - 1);
        var s, e := trace[n - 1], events[n - 1];
        match e
        case Registered(name, tags) => RegisterKeepsExactIff(s, name, tags);
        case Ran(name, failed) => RunCheckKeepsInv(s, name, failed);
      }
    }
  }

  /** Distinct tags, and application checks registered with the application tag alone. */
  ghost predicate WellTagged(tags: seq<Tag>) {
    Distinct(tags) && (APPLICATION in tags ==> tags == [APPLICATION])
  }

  /** Such registrations always meet the condition. */
  lemma WellTaggedKeepsExact(s: State, tags: seq<Tag>)
    requires Inv(s) && WellTagged(tags)
    ensures KeepsExact(s, tags)
  {
    if APPLICATION in tags && APPLICATION !in s.tags {
      NoApplications(s);
    }
  }

  lemma NoApplications(s: State)
    requires Inv(s) && APPLICATION !in s.tags
    ensures s.failingApplications == 0
  {
    forall n | n in s.checks
      ensures !s.checks[n].isApplication
    {
      assert n !in Tagged(s.tags, APPLICATION);
    }
    assert FailingApplications(s.checks, s.failing) == {};
  }

  /** What a query covers are the checks that matter for one of its tags. */
  lemma CoveredMatters(s: State, tags: seq<Tag>, n: Name)
    requires Inv(s) && n in s.checks
    ensures n in Covered(s, tags) <==> exists t :: t in Queried(tags) && Carries(s.checks[n], t)
    ensures s.checks[n].isApplication ==> n in Covered(s, tags)
  {
    if t :| t in Queried(tags) && Carries(s.checks[n], t) {
      assert n in Tagged(s.tags, t);
    }
    if t :| t in Queried(tags) && n in Tagged(s.tags, t) {
      assert Carries(s.checks[n], t);
    }
    if s.checks[n].isApplication {
      assert APPLICATION in Queried(tags) && Carries(s.checks[n], APPLICATION);
    }
  }

  lemma FailingIsCovered(s: State, tags: seq<Tag>)
    requires Inv(s)
    ensures FailingApplications(s.checks, s.failing) <= Covered(s, tags) * s.failing
    ensures forall t :: t in Queried(tags) ==> FailingAt(s.checks, s.failing, t) <= Covered(s, tags) * s.failing
  {
    forall n | n in s.checks
      ensures s.checks[n].isApplication ==> n in Covered(s, tags)
      ensures forall t :: t in Queried(tags) && Carries(s.checks[n], t) ==> n in Covered(s, tags)
    {
      CoveredMatters(s, tags, n);
    }
  }

  /** A query is healthy exactly when the gauges of all its tags in use are zero and no application check fails. */
  lemma HealthyIffGaugesAreZero(s: State, tags: seq<Tag>)
    requires Inv(s)
    ensures Healthy(s, tags) <==>
      s.failingApplications == 0 && forall t :: t in Queried(tags) && t in s.tags ==> At(s.gauges, t) == 0
  {
    FailingIsCovered(s, tags);
    if Healthy(s, tags) {
      assert FailingApplications(s.checks, s.failing) == {};
      forall t | t in Queried(tags) && t in s.tags
        ensures At(s.gauges, t) == 0
      {
        assert ExactAt(s.checks, s.failing, s.tags, s.gauges, t);
        assert FailingAt(s.checks, s.failing, t) == {};
      }
    } else {
      var n :| n in Covered(s, tags) && n in s.failing;
      CoveredMatters(s, tags, n);
      var t :| t in Queried(tags) && Carries(s.checks[n], t);
      CarriedIsUsed(s.checks, s.tags, n, t);
      assert ExactAt(s.checks, s.failing, s.tags, s.gauges, t);
      assert n in FailingAt(s.checks, s.failing, t);
    }
  }

  /** A tag that is in use is healthy exactly when its gauge is zero. */
  lemma HealthyIffGaugeIsZero(s: State, t: Tag)
    requires Inv(s) && t in s.tags
    ensures Healthy(s, [t]) <==> At(s.gauges, t) == 0
  {
    HealthyIffGaugesAreZero(s, [t]);
    assert ExactAt(s.checks, s.failing, s.tags, s.gauges, t);
    assert t in Queried([t]) && Queried([t]) == {t, APPLICATION};
    assert FailingApplications(s.checks, s.failing) <= FailingAt(s.checks, s.failing, t);
    if At(s.gauges, t) == 0 {
      assert FailingAt(s.checks, s.failing, t) == {};
      assert ExactAt(s.checks, s.failing, s.tags, s.gauges, APPLICATION);
      assert FailingAt(s.checks, s.failing, APPLICATION) == FailingApplications(s.checks, s.failing);
    }
  }
}
