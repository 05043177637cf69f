/**
 Which commands a composite script amounts to, and whether the required jobs run all of them.
 */
module CiCoverage {
  import opened Options
  import opened ScriptBodies
  import opened Sequences
  import opened Text

  datatype Step = Step(name: string, isScript: bool, via: seq<string>)

  datatype Failure = Missing(script: string) | Cyclic(script: string) | Unparseable(script: string)

  datatype Result = Ok(steps: seq<Step>) | Err(failure: Failure)

  // ----- expanding it -----

  function Open(plan: Plan, via: seq<string>): set<string> {
    plan.Keys - (set x | x in via)
  }

  lemma OpenShrinks(plan: Plan, entry: string, via: seq<string>)
    requires entry in plan && entry !in via
    ensures |Open(plan, via + [entry])| < |Open(plan, via)|
  {
    assert Open(plan, via + [entry]) == Open(plan, via) - {entry};
    assert entry in Open(plan, via);
  }

  function Expansion(plan: Plan, entry: string, via: seq<string>): Result
    decreases |Open(plan, via)|, 0
  {
    if entry !in plan then Err(Missing(entry))
    else if entry in via then Err(Cyclic(entry))
    else if plan[entry].Unreadable? then Err(Unparseable(entry))
    else
      OpenShrinks(plan, entry, via);
      MembersExpansion(plan, plan[entry].members, via + [entry])
  }

  function MemberExpansion(plan: Plan, member: Member, chain: seq<string>): Result
    decreases |Open(plan, chain)|, 1
  {
    match member
    case Composite(script) => Expansion(plan, script, chain)
    case Single(name, isScript) => Ok([Step(name, isScript, chain)])
  }

  function MembersExpansion(plan: Plan, members: seq<Member>, chain: seq<string>): Result
    decreases |Open(plan, chain)|, 2 + |members|
  {
    if members == [] then Ok([])
    else
      var first := MemberExpansion(plan, members[0], chain);
      if first.Err? then first else Then(first.steps, MembersExpansion(plan, members[1..], chain))
  }

  function Then(out: seq<Step>, r: Result): Result {
    if r.Err? then r else Ok(out + r.steps)
  }

  lemma NextMember(plan: Plan, members: seq<Member>, k: nat, chain: seq<string>)
    requires k < |members|
    ensures var first := MemberExpansion(plan, members[k], chain);
            MembersExpansion(plan, members[k..], chain) ==
            if first.Err? then first else Then(first.steps, MembersExpansion(plan, members[k + 1..], chain))
  {
    assert members[k..][0] == members[k] && members[k..][1..] == members[k + 1..];
  }

  lemma ThenTwice(out: seq<Step>, more: seq<Step>, r: Result)
    ensures Then(out, Then(more, r)) == Then(out + more, r)
  {
    if r.Ok? {
      Reassociate(out, more, r.steps);
    }
  }

  /** What is still to come, once the next member has turned out as these steps. */
  lemma MemberDone(plan: Plan, members: seq<Member>, k: nat, chain: seq<string>, out: seq<Step>, steps: seq<Step>)
    requires k < |members| && MemberExpansion(plan, members[k], chain) == Ok(steps)
    ensures Then(out, MembersExpansion(plan, members[k..], chain)) ==
            Then(out + steps, MembersExpansion(plan, members[k + 1..], chain))
  {
    NextMember(plan, members, k, chain);
    ThenTwice(out, steps, MembersExpansion(plan, members[k + 1..], chain));
  }

  /** The recursion as written, reading each script when it is reached and giving up at the first error. */
  method Expand(scripts: Scripts, entry: string, via: seq<string>) returns (r: Result)
    ensures r == Expansion(PlanOf(scripts), entry, via)
    decreases |Open(PlanOf(scripts), via)|, 1
  {
    if entry !in scripts {
      return Err(Missing(entry));
    }
    if entry in via {
      return Err(Cyclic(entry));
    }
    var body := BodyOf(scripts, scripts[entry]);
    if body.Unreadable? {
      return Err(Unparseable(entry));
    }
    OpenShrinks(PlanOf(scripts), entry, via);
    r := ExpandMembers(scripts, body.members, via + [entry]);
  }

  method ExpandMembers(scripts: Scripts, members: seq<Member>, chain: seq<string>) returns (r: Result)
    ensures r == MembersExpansion(PlanOf(scripts), members, chain)
    decreases |Open(PlanOf(scripts), chain)|, 2
  {
    ghost var plan := PlanOf(scripts);
    ghost var goal := MembersExpansion(plan, members, chain);
    var out: seq<Step> := [];
    WholeSuffix(members);
    for k := 0 to |members|
      invariant goal == Then(out, MembersExpansion(plan, members[k..], chain))
    {
      var steps: seq<Step>;
      match members[k] {
        case Composite(script) =>
          var inner := Expand(scripts, script, chain);
          if inner.Err? {
            NextMember(plan, members, k, chain);
            return inner;
          }
          steps := inner.steps;
        case Single(name, isScript) =>
          steps := [Step(name, isScript, chain)];
      }
      MemberDone(plan, members, k, chain, out, steps);
      out := out + steps;
    }
    return Ok(out);
  }

  // ----- what it comes to: the leaves of the unfolding, from left to right -----

  /**
   A position says which member to follow at each level. A leaf is at a position that follows
   composite members all the way to one that is a single command.
   */
  function LeafAt(plan: Plan, entry: string, via: seq<string>, p: seq<nat>): Option<Step>
    decreases |p|
  {
    if p == [] || entry !in plan || plan[entry].Unreadable? || p[0] >= |plan[entry].members| then None
    else
      match plan[entry].members[p[0]]
      case Composite(script) => LeafAt(plan, script, via + [entry], p[1..])
      case Single(name, isScript) => if |p| == 1 then Some(Step(name, isScript, via + [entry])) else None
  }

  predicate LeftOf(p: seq<nat>, q: seq<nat>) {
    p != [] && q != [] && (p[0] < q[0] || (p[0] == q[0] && LeftOf(p[1..], q[1..])))
  }

  predicate LeftToRight(ps: seq<seq<nat>>) {
    forall i, j :: 0 <= i < j < |ps| ==> LeftOf(ps[i], ps[j])
  }

  /** `ps` are all the leaf positions whose first turn is `from` or later, and `steps` the leaves there. */
  ghost predicate Lists(plan: Plan, entry: string, via: seq<string>, from: nat, ps: seq<seq<nat>>, steps: seq<Step>) {
    && |ps| == |steps|
    && LeftToRight(ps)
    && (forall i :: 0 <= i < |ps| ==>
          ps[i] != [] && ps[i][0] >= from && LeafAt(plan, entry, via, ps[i]) == Some(steps[i]))
    && (forall p :: p != [] && p[0] >= from && LeafAt(plan, entry, via, p).Some? ==> p in ps)
  }

  /** The leaves beneath one member. */
  ghost predicate ListsOne(plan: Plan, entry: string, via: seq<string>, k: nat, ps: seq<seq<nat>>, steps: seq<Step>) {
    && |ps| == |steps|
    && LeftToRight(ps)
    && (forall i :: 0 <= i < |ps| ==> ps[i] != [] && ps[i][0] == k && LeafAt(plan, entry, via, ps[i]) == Some(steps[i]))
    && (forall p :: p != [] && p[0] == k && LeafAt(plan, entry, via, p).Some? ==> p in ps)
  }

  /** Script `entry` reads, and has member `member` at `k`. */
  predicate HasMember(plan: Plan, entry: string, k: nat, member: Member) {
    entry in plan && plan[entry].Readable? && k < |plan[entry].members| && plan[entry].members[k] == member
  }

  function Under(k: nat, ps: seq<seq<nat>>): (out: seq<seq<nat>>)
    ensures |out| == |ps| && forall i :: 0 <= i < |ps| ==> out[i] == [k] + ps[i]
  {
    seq(|ps|, i requires 0 <= i < |ps| => [k] + ps[i])
  }

  lemma UnderKeepsOrder(k: nat, ps: seq<seq<nat>>)
    requires LeftToRight(ps)
    ensures LeftToRight(Under(k, ps))
  {
    var out := Under(k, ps);
    forall i, j | 0 <= i < j < |out|
      ensures LeftOf(out[i], out[j])
    {
      assert out[i][1..] == ps[i] && out[j][1..] == ps[j];
    }
  }

  lemma LeafUnder(plan: Plan, entry: string, via: seq<string>, k: nat, script: string, p: seq<nat>)
    requires HasMember(plan, entry, k, Composite(script))
    ensures LeafAt(plan, entry, via, [k] + p) == LeafAt(plan, script, via + [entry], p)
  {
    assert ([k] + p)[1..] == p;
  }

  lemma FoundUnder(k: nat, ps: seq<seq<nat>>, p: seq<nat>)
    requires p != [] && p[0] == k && p[1..] in ps
    ensures p in Under(k, ps)
  {
    var i :| 0 <= i < |ps| && ps[i] == p[1..];
    assert [k] + p[1..] == p;
    assert Under(k, ps)[i] == p;
  }

  lemma FoundBeneath(plan: Plan, entry: string, via: seq<string>, k: nat, script: string,
                     ps: seq<seq<nat>>, steps: seq<Step>, p: seq<nat>)
    requires HasMember(plan, entry, k, Composite(script))
    requires Lists(plan, script, via + [entry], 0, ps, steps)
    requires p != [] && p[0] == k && LeafAt(plan, entry, via, p).Some?
    ensures p in Under(k, ps)
  {
    assert p == [k] + p[1..];
    LeafUnder(plan, entry, via, k, script, p[1..]);
    assert p[1..] != [] && p[1..][0] >= 0;
    FoundUnder(k, ps, p);
  }

  lemma UnderComposite(
      plan: Plan, entry: string, via: seq<string>, k: nat, script: string, ps: seq<seq<nat>>, steps: seq<Step>)
    requires HasMember(plan, entry, k, Composite(script))
    requires Lists(plan, script, via + [entry], 0, ps, steps)
    ensures ListsOne(plan, entry, via, k, Under(k, ps), steps)
  {
    UnderKeepsOrder(k, ps);
    forall i | 0 <= i < |ps|
      ensures LeafAt(plan, entry, via, Under(k, ps)[i]) == Some(steps[i])
    {
      LeafUnder(plan, entry, via, k, script, ps[i]);
    }
    forall p: seq<nat> | p != [] && p[0] == k && LeafAt(plan, entry, via, p).Some?
      ensures p in Under(k, ps)
    {
      FoundBeneath(plan, entry, via, k, script, ps, steps, p);
    }
  }

  lemma UnderSingle(plan: Plan, entry: string, via: seq<string>, k: nat, name: string, isScript: bool)
    requires HasMember(plan, entry, k, Single(name, isScript))
    ensures ListsOne(plan, entry, via, k, [[k]], [Step(name, isScript, via + [entry])])
  {
    forall p: seq<nat> | p != [] && p[0] == k && LeafAt(plan, entry, via, p).Some?
      ensures p in [[k]]
    {
      assert p == [k];
    }
  }

  lemma OrderOfConcat(ps: seq<seq<nat>>, qs: seq<seq<nat>>, k: nat)
    requires LeftToRight(ps) && LeftToRight(qs)
    requires forall i :: 0 <= i < |ps| ==> ps[i] != [] && ps[i][0] == k
    requires forall i :: 0 <= i < |qs| ==> qs[i] != [] && qs[i][0] > k
    ensures LeftToRight(ps + qs)
  {
    var all := ps + qs;
    forall i, j | 0 <= i < j < |all|
      ensures LeftOf(all[i], all[j])
    {
      if j < |ps| {
        assert all[i] == ps[i] && all[j] == ps[j];
      } else if i < |ps| {
        assert all[i] == ps[i] && all[j] == qs[j - |ps|];
      } else {
        assert all[i] == qs[i - |ps|] && all[j] == qs[j - |ps|];
      }
    }
  }

  lemma ListsAppend(plan: Plan, entry: string, via: seq<string>, k: nat,
                    ps: seq<seq<nat>>, steps: seq<Step>, qs: seq<seq<nat>>, more: seq<Step>)
    requires ListsOne(plan, entry, via, k, ps, steps)
    requires Lists(plan, entry, via, k + 1, qs, more)
    ensures Lists(plan, entry, via, k, ps + qs, steps + more)
  {
    OrderOfConcat(ps, qs, k);
    var all, out := ps + qs, steps + more;
    forall i | 0 <= i < |all|
      ensures all[i] != [] && all[i][0] >= k && LeafAt(plan, entry, via, all[i]) == Some(out[i])
    {
      if i < |ps| {
        assert all[i] == ps[i] && out[i] == steps[i];
      } else {
        assert all[i] == qs[i - |ps|] && out[i] == more[i - |ps|];
      }
    }
    forall p: seq<nat> | p != [] && p[0] >= k && LeafAt(plan, entry, via, p).Some?
      ensures p in all
    {
      assert p[0] == k ==> p in ps;
      assert p[0] > k ==> p in qs;
    }
  }

  lemma {:induction false} ExpansionLists(plan: Plan, entry: string, via: seq<string>) returns (ps: seq<seq<nat>>)
    requires Expansion(plan, entry, via).Ok?
    ensures Lists(plan, entry, via, 0, ps, Expansion(plan, entry, via).steps)
    decreases |Open(plan, via)|, 0
  {
    OpenShrinks(plan, entry, via);
    WholeSuffix(plan[entry].members);
    ps := MembersList(plan, entry, via, 0);
  }

  lemma {:induction false} MembersList(plan: Plan, entry: string, via: seq<string>, k: nat) returns (ps: seq<seq<nat>>)
    requires entry in plan && plan[entry].Readable? && k <= |plan[entry].members|
    requires MembersExpansion(plan, plan[entry].members[k..], via + [entry]).Ok?
    ensures Lists(plan, entry, via, k, ps, MembersExpansion(plan, plan[entry].members[k..], via + [entry]).steps)
    decreases |Open(plan, via + [entry])|, 1 + |plan[entry].members| - k
  {
    var members, chain := plan[entry].members, via + [entry];
    if k == |members| {
      ps := [];
    } else {
      NextMember(plan, members, k, chain);
      var rest := MembersExpansion(plan, members[k + 1..], chain);
      var qs := MembersList(plan, entry, via, k + 1);
      match members[k] {
        case Composite(script) =>
          var inner := ExpansionLists(plan, script, chain);
          UnderComposite(plan, entry, via, k, script, inner, Expansion(plan, script, chain).steps);
          ps := Under(k, inner) + qs;
          ListsAppend(plan, entry, via, k, Under(k, inner), Expansion(plan, script, chain).steps, qs, rest.steps);
        case Single(name, isScript) =>
          UnderSingle(plan, entry, via, k, name, isScript);
          ps := [[k]] + qs;
          ListsAppend(plan, entry, via, k, [[k]], [Step(name, isScript, chain)], qs, rest.steps);
      }
    }
  }

  /** An expansion that succeeds is the leaves of the unfolding, each once, from left to right. */
  lemma ExpansionIsTheLeaves(plan: Plan, entry: string)
    requires Expansion(plan, entry, []).Ok?
    ensures exists ps :: Lists(plan, entry, [], 0, ps, Expansion(plan, entry, []).steps)
  {
    var ps := ExpansionLists(plan, entry, []);
  }

  // ----- and when it fails -----

  predicate Leads(plan: Plan, a: string, b: string) {
    a in plan && plan[a].Readable? && Composite(b) in plan[a].members
  }

  predicate Chain(plan: Plan, c: seq<string>) {
    c != [] && forall i :: 0 <= i < |c| - 1 ==> Leads(plan, c[i], c[i + 1])
  }

  /** The last script of the chain is missing, was met before, or cannot be read. */
  predicate EndsBadly(plan: Plan, via: seq<string>, c: seq<string>)
    requires c != []
  {
    var last := c[|c| - 1];
    last !in plan || last in via + c[..|c| - 1] || plan[last].Unreadable?
  }

  lemma {:induction false} OneFailureFailsAll(plan: Plan, members: seq<Member>, chain: seq<string>, m: Member)
    requires m in members && MemberExpansion(plan, m, chain).Err?
    ensures MembersExpansion(plan, members, chain).Err?
    decreases |members|
  {
    if m != members[0] {
      OneFailureFailsAll(plan, members[1..], chain, m);
    }
  }

  lemma {:induction false} FailureHasACause(plan: Plan, members: seq<Member>, chain: seq<string>) returns (m: Member)
    requires MembersExpansion(plan, members, chain).Err?
    ensures m in members && MemberExpansion(plan, m, chain).Err?
    decreases |members|
  {
    if MemberExpansion(plan, members[0], chain).Err? {
      m := members[0];
    } else {
      m := FailureHasACause(plan, members[1..], chain);
    }
  }

  lemma ChainCons(plan: Plan, entry: string, tail: seq<string>)
    requires Chain(plan, tail) && Leads(plan, entry, tail[0])
    ensures Chain(plan, [entry] + tail)
  {
    var c := [entry] + tail;
    forall i | 0 <= i < |c| - 1 ensures Leads(plan, c[i], c[i + 1]) {
      if i > 0 {
        assert Leads(plan, tail[i - 1], tail[i]);
      }
    }
  }

  lemma SameEnd(plan: Plan, via: seq<string>, entry: string, tail: seq<string>)
    requires tail != []
    ensures EndsBadly(plan, via + [entry], tail) <==> EndsBadly(plan, via, [entry] + tail)
  {
    var c := [entry] + tail;
    assert c[|c| - 1] == tail[|tail| - 1];
    assert c[..|c| - 1] == [entry] + tail[..|tail| - 1];
    Reassociate(via, [entry], tail[..|tail| - 1]);
  }

  lemma ChainTail(plan: Plan, c: seq<string>)
    requires Chain(plan, c) && |c| > 1
    ensures Leads(plan, c[0], c[1]) && Chain(plan, c[1..])
  {
    var tail := c[1..];
    forall i | 0 <= i < |tail| - 1 ensures Leads(plan, tail[i], tail[i + 1]) {
      assert Leads(plan, c[i + 1], c[i + 2]);
    }
  }

  lemma {:induction false} BadChainFails(plan: Plan, via: seq<string>, c: seq<string>)
    requires Chain(plan, c) && EndsBadly(plan, via, c)
    ensures Expansion(plan, c[0], via).Err?
    decreases |c|
  {
    if |c| > 1 && c[0] !in via {
      ChainTail(plan, c);
      assert c == [c[0]] + c[1..];
      SameEnd(plan, via, c[0], c[1..]);
      BadChainFails(plan, via + [c[0]], c[1..]);
      OneFailureFailsAll(plan, plan[c[0]].members, via + [c[0]], Composite(c[1]));
    }
  }

  lemma {:induction false} FailureHasAChain(plan: Plan, entry: string, via: seq<string>) returns (c: seq<string>)
    requires Expansion(plan, entry, via).Err?
    ensures Chain(plan, c) && c[0] == entry && EndsBadly(plan, via, c)
    decreases |Open(plan, via)|
  {
    if entry !in plan || entry in via || plan[entry].Unreadable? {
      c := [entry];
    } else {
      OpenShrinks(plan, entry, via);
      var m := FailureHasACause(plan, plan[entry].members, via + [entry]);
      var tail := FailureHasAChain(plan, m.script, via + [entry]);
      c := [entry] + tail;
      ChainCons(plan, entry, tail);
      SameEnd(plan, via, entry, tail);
    }
  }

  /** Expansion throws exactly when some chain of composite scripts runs into a missing, repeated or unreadable one. */
  lemma ThrowsExactlyWhen(plan: Plan, entry: string)
    ensures Expansion(plan, entry, []).Err? <==>
            exists c :: Chain(plan, c) && c[0] == entry && EndsBadly(plan, [], c)
  {
    if Expansion(plan, entry, []).Err? {
      var c := FailureHasAChain(plan, entry, []);
    }
    if c :| Chain(plan, c) && c[0] == entry && EndsBadly(plan, [], c) {
      BadChainFails(plan, [], c);
    }
  }

  // ----- is every one of them run by a required job? -----

  datatype Job = Job(name: string, commands: seq<string>)

  datatype Exclusion = Exclusion(step: string, why: string)

  datatype Stale = RunsAnyway(exclusion: Exclusion, jobs: seq<string>) | NotAMember(exclusion: Exclusion)

  datatype Report = Report(
    covered: seq<(Step, seq<string>)>, missing: seq<Step>, excluded: seq<Exclusion>, stale: seq<Stale>)

  type Runs = (seq<string>, Step) -> bool

  function JobsRunning(jobs: seq<Job>, step: Step, runs: Runs): seq<string> {
    if jobs == [] then []
    else (if runs(jobs[0].commands, step) then [jobs[0].name] else []) + JobsRunning(jobs[1..], step, runs)
  }

  function ExclusionOf(excluded: seq<Exclusion>, name: string): (e: Option<Exclusion>)
    ensures e.Some? ==> e.value in excluded && e.value.step == name
    ensures e.None? ==> forall x :: x in excluded ==> x.step != name
  {
    if excluded == [] then None
    else if excluded[0].step == name then Some(excluded[0])
    else ExclusionOf(excluded[1..], name)
  }

  predicate RunSomewhere(jobs: seq<Job>, step: Step, runs: Runs) {
    exists j :: 0 <= j < |jobs| && runs(jobs[j].commands, step)
  }

  lemma {:induction false} JobsRunningMeans(jobs: seq<Job>, step: Step, runs: Runs)
    ensures JobsRunning(jobs, step, runs) == [] <==> !RunSomewhere(jobs, step, runs)
  {
    if jobs != [] {
      JobsRunningMeans(jobs[1..], step, runs);
      if RunSomewhere(jobs, step, runs) && !runs(jobs[0].commands, step) {
        var j :| 0 <= j < |jobs| && runs(jobs[j].commands, step);
        assert runs(jobs[1..][j - 1].commands, step);
      }
    }
  }

  /** What the gate is for: a step runs in a required job or is excluded, never both, and no exclusion is left over. */
  ghost predicate EveryStepAccounted(steps: seq<Step>, jobs: seq<Job>, excluded: seq<Exclusion>, runs: Runs) {
    && (forall s :: s in steps ==> (RunSomewhere(jobs, s, runs) <==> forall e :: e in excluded ==> e.step != s.name))
    && (forall e :: e in excluded ==> exists s :: s in steps && s.name == e.step)
  }

  ghost predicate StepsAccounted(steps: seq<Step>, jobs: seq<Job>, excluded: seq<Exclusion>, runs: Runs) {
    forall s :: s in steps ==> (RunSomewhere(jobs, s, runs) <==> ExclusionOf(excluded, s.name).None?)
  }

  predicate Named(steps: seq<Step>, e: Exclusion) {
    exists i :: 0 <= i < |steps| && steps[i].name == e.step
  }

  method Coverage(steps: seq<Step>, jobs: seq<Job>, excluded: seq<Exclusion>, runs: Runs) returns (report: Report)
    ensures report.missing == [] && report.stale == [] <==> EveryStepAccounted(steps, jobs, excluded, runs)
    ensures |report.covered| + |report.missing| + |report.excluded| == |steps|
    ensures forall c :: c in report.covered ==> c.0 in steps && c.1 != [] && c.1 == JobsRunning(jobs, c.0, runs)
    ensures forall s :: s in report.missing ==>
              s in steps && !RunSomewhere(jobs, s, runs) && forall e :: e in excluded ==> e.step != s.name
    ensures forall e :: e in report.excluded ==> e in excluded && Named(steps, e)
  {
    report := Report([], [], [], []);
    for k := 0 to |steps|
      invariant report.missing == [] && report.stale == [] <==> StepsAccounted(steps[..k], jobs, excluded, runs)
      invariant |report.covered| + |report.missing| + |report.excluded| == k
      invariant forall c :: c in report.covered ==> c.0 in steps && c.1 != [] && c.1 == JobsRunning(jobs, c.0, runs)
      invariant forall s :: s in report.missing ==>
                  s in steps && !RunSomewhere(jobs, s, runs) && ExclusionOf(excluded, s.name).None?
      invariant forall e :: e in report.excluded ==> e in excluded && Named(steps, e)
    {
      var step := steps[k];
      var where := JobsRunning(jobs, step, runs);
      JobsRunningMeans(jobs, step, runs);
      var exclusion := ExclusionOf(excluded, step.name);
      NextPrefix(steps, k);
      if exclusion.Some? {
        report := report.(excluded := report.excluded + [exclusion.value]);
        if where != [] {
          report := report.(stale := report.stale + [RunsAnyway(exclusion.value, where)]);
        }
      } else if where == [] {
        report := report.(missing := report.missing + [step]);
      } else {
        report := report.(covered := report.covered + [(step, where)]);
      }
    }
    WholePrefix(steps);
    for k := 0 to |excluded|
      invariant report.missing == [] && report.stale == [] <==>
                StepsAccounted(steps, jobs, excluded, runs) && forall e :: e in excluded[..k] ==> Named(steps, e)
      invariant |report.covered| + |report.missing| + |report.excluded| == |steps|
      invariant forall c :: c in report.covered ==> c.0 in steps && c.1 != [] && c.1 == JobsRunning(jobs, c.0, runs)
      invariant forall s :: s in report.missing ==>
                  s in steps && !RunSomewhere(jobs, s, runs) && ExclusionOf(excluded, s.name).None?
      invariant forall e :: e in report.excluded ==> e in excluded && Named(steps, e)
    {
      NextPrefix(excluded, k);
      if !Named(steps, excluded[k]) {
        report := report.(stale := report.stale + [NotAMember(excluded[k])]);
      }
    }
    WholePrefix(excluded);
    AccountedAlike(steps, jobs, excluded, runs);
  }

  lemma AccountedAlike(steps: seq<Step>, jobs: seq<Job>, excluded: seq<Exclusion>, runs: Runs)
    ensures EveryStepAccounted(steps, jobs, excluded, runs) <==>
            StepsAccounted(steps, jobs, excluded, runs) && forall e :: e in excluded ==> Named(steps, e)
  {
  }

  /**
   The whole check; there are no jobs when one that is required cannot be read. It exits 0 exactly
   when both can be read and every leaf is accounted for, and 2 exactly when one cannot.
   */
  method Check(scripts: Scripts, entry: string, jobs: Option<seq<Job>>, excluded: seq<Exclusion>, runs: Runs)
    returns (exitCode: nat)
    ensures exitCode == 0 <==>
            && jobs.Some? && Expansion(PlanOf(scripts), entry, []).Ok?
            && EveryStepAccounted(Expansion(PlanOf(scripts), entry, []).steps, jobs.value, excluded, runs)
    ensures exitCode == 2 <==> jobs.None? || Expansion(PlanOf(scripts), entry, []).Err?
  {
    if jobs.None? {
      return 2;
    }
    var expanded := Expand(scripts, entry, []);
    if expanded.Err? {
      return 2;
    }
    var report := Coverage(expanded.steps, jobs.value, excluded, runs);
    exitCode := if report.missing != [] || report.stale != [] then 1 else 0;
  }

  /** So when the check passes, no command the script unfolds to runs nowhere without an exclusion saying so. */
  lemma PassingCoversEveryLeaf(
      plan: Plan, entry: string, jobs: seq<Job>, excluded: seq<Exclusion>, runs: Runs, p: seq<nat>)
    requires Expansion(plan, entry, []).Ok?
    requires EveryStepAccounted(Expansion(plan, entry, []).steps, jobs, excluded, runs)
    requires LeafAt(plan, entry, [], p).Some?
    ensures var step := LeafAt(plan, entry, [], p).value;
            RunSomewhere(jobs, step, runs) || exists e :: e in excluded && e.step == step.name
  {
    var ps := ExpansionLists(plan, entry, []);
    assert p in ps;
    var i :| 0 <= i < |ps| && ps[i] == p;
    assert Expansion(plan, entry, []).steps[i] == LeafAt(plan, entry, [], p).value;
  }

  // ----- in terms of the scripts' own text -----

  /** Script `a` reads, and one of the commands it joins runs `b`, which joins commands itself. */
  ghost predicate Reaches(scripts: Scripts, a: string, b: string) {
    && a in scripts && !Refused(scripts[a]) && b in scripts && HasAnd(scripts[b])
    && exists part :: part in SplitAnd(scripts[a]) && RunsScript(Trim(part), b)
  }

  ghost predicate Route(scripts: Scripts, chain: seq<string>) {
    forall i :: 0 <= i < |chain| - 1 ==> Reaches(scripts, chain[i], chain[i + 1])
  }

  /** A command of script `a` that is not expanded further, and how the report names it. */
  ghost predicate Command(scripts: Scripts, a: string, part: string, name: string, isScript: bool) {
    && a in scripts && !Refused(scripts[a]) && part in SplitAnd(scripts[a]) && !Blank(part)
    && if isScript then RunsScript(Trim(part), name) && !(name in scripts && HasAnd(scripts[name]))
       else name == Trim(part) && forall s :: !RunsScript(Trim(part), s)
  }

  lemma PartIsMember(scripts: Scripts, a: string, part: string) returns (k: nat)
    requires a in scripts && !Refused(scripts[a]) && part in SplitAnd(scripts[a]) && !Blank(part)
    ensures HasMember(PlanOf(scripts), a, k, MemberOf(scripts, Trim(part)))
  {
    k := PartIsText(scripts[a], part);
    hide SplitAnd, Members, Refused, Trim, Blank, MemberOf;
  }

  lemma PartIsText(body: string, part: string) returns (k: nat)
    requires part in SplitAnd(body) && !Blank(part)
    ensures k < |Members(body)| && Members(body)[k] == Trim(part)
  {
    hide SplitAnd, Members, Trim, Blank;
    var parts := SplitAnd(body);
    var idx := MembersAreTheParts(body);
    var i :| 0 <= i < |parts| && parts[i] == part;
    assert i in idx;
    k :| 0 <= k < |idx| && idx[k] == i;
  }

  lemma RunsIsNotBlank(part: string, script: string)
    requires RunsScript(Trim(part), script)
    ensures !Blank(part)
  {
    TrimIsEmpty(part);
    assert Trim(part) != "";
  }

  lemma CommandIsSingle(scripts: Scripts, a: string, part: string, name: string, isScript: bool)
    requires Command(scripts, a, part, name, isScript)
    ensures MemberOf(scripts, Trim(part)) == Single(name, isScript)
  {
    hide SplitAnd, Refused, Trim, Blank, HasAnd, RunsScript;
    MemberOfExactlyWhen(scripts, Trim(part), name);
    if !isScript {
      NoScript(scripts, Trim(part));
    }
  }

  lemma NoScript(scripts: Scripts, text: string)
    requires forall s :: !RunsScript(text, s)
    ensures MemberOf(scripts, text) == Single(text, false)
  {
    if ScriptOf(text).Some? {
      ScriptOfExactlyWhen(text, ScriptOf(text).value);
    }
  }

  lemma RouteTail(scripts: Scripts, chain: seq<string>)
    requires Route(scripts, chain) && |chain| > 1
    ensures Reaches(scripts, chain[0], chain[1]) && Route(scripts, chain[1..])
  {
    hide Reaches;
    var tail := chain[1..];
    forall i | 0 <= i < |tail| - 1
      ensures Reaches(scripts, tail[i], tail[i + 1])
    {
      assert Reaches(scripts, chain[i + 1], chain[i + 2]);
    }
  }

  lemma ReachesMember(scripts: Scripts, a: string, b: string) returns (k: nat)
    requires Reaches(scripts, a, b)
    ensures HasMember(PlanOf(scripts), a, k, Composite(b))
  {
    hide SplitAnd, HasAnd, Refused, Trim, RunsScript, MemberOf, HasMember;
    var link :| link in SplitAnd(scripts[a]) && RunsScript(Trim(link), b);
    RunsIsNotBlank(link, b);
    MemberOfExactlyWhen(scripts, Trim(link), b);
    k := PartIsMember(scripts, a, link);
  }

  lemma LeafOfSingle(plan: Plan, a: string, via: seq<string>, k: nat, name: string, isScript: bool)
    requires HasMember(plan, a, k, Single(name, isScript))
    ensures LeafAt(plan, a, via, [k]) == Some(Step(name, isScript, via + [a]))
  {
  }

  /** Where in the unfolding the command at the end of a route is. */
  lemma {:induction false} RouteToLeaf(
      scripts: Scripts, via: seq<string>, chain: seq<string>, part: string, name: string, isScript: bool)
    returns (p: seq<nat>)
    requires chain != [] && Route(scripts, chain) && Command(scripts, chain[|chain| - 1], part, name, isScript)
    ensures LeafAt(PlanOf(scripts), chain[0], via, p) == Some(Step(name, isScript, via + chain))
    decreases |chain|
  {
    hide Route, Command, Reaches, HasMember, LeafAt, PlanOf;
    if |chain| == 1 {
      var k := CommandIsMember(scripts, chain[0], part, name, isScript);
      LeafOfSingle(PlanOf(scripts), chain[0], via, k, name, isScript);
      p := [k];
      assert chain == [chain[0]];
    } else {
      var tail := chain[1..];
      RouteTail(scripts, chain);
      var q := RouteToLeaf(scripts, via + [chain[0]], tail, part, name, isScript);
      var k := ReachesMember(scripts, chain[0], chain[1]);
      LeafUnder(PlanOf(scripts), chain[0], via, k, chain[1], q);
      p := [k] + q;
      assert chain == [chain[0]] + tail;
      Reassociate(via, [chain[0]], tail);
    }
  }

  lemma CommandIsMember(scripts: Scripts, a: string, part: string, name: string, isScript: bool) returns (k: nat)
    requires Command(scripts, a, part, name, isScript)
    ensures HasMember(PlanOf(scripts), a, k, Single(name, isScript))
  {
    CommandIsSingle(scripts, a, part, name, isScript);
    hide SplitAnd, HasAnd, Refused, Trim, RunsScript, MemberOf, HasMember;
    k := PartIsMember(scripts, a, part);
  }

  /**
   What a passing check means for the text of the scripts: any command joined by `&&`, in the script or
   in a composite one it runs, however deep, runs in a required job or is excluded by name.
   */
  lemma PassingRunsEveryCommand(
      scripts: Scripts, jobs: seq<Job>, excluded: seq<Exclusion>, runs: Runs,
      chain: seq<string>, part: string, name: string, isScript: bool)
    requires chain != [] && Route(scripts, chain) && Command(scripts, chain[|chain| - 1], part, name, isScript)
    requires Expansion(PlanOf(scripts), chain[0], []).Ok?
    requires EveryStepAccounted(Expansion(PlanOf(scripts), chain[0], []).steps, jobs, excluded, runs)
    ensures RunSomewhere(jobs, Step(name, isScript, chain), runs) || exists e :: e in excluded && e.step == name
  {
    hide Expansion, Route, Command, EveryStepAccounted, RunSomewhere, LeafAt, PlanOf;
    var p := RouteToLeaf(scripts, [], chain, part, name, isScript);
    assert [] + chain == chain;
    PassingCoversEveryLeaf(PlanOf(scripts), chain[0], jobs, excluded, runs, p);
  }
}
