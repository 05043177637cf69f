/**
 The tag command as it is written: one `git` command after another, with an early return wherever
 one fails or refuses, and other people's doings before each. It takes the steps of `ReleaseTag`.
 */
module TagCommand {
  import opened Commands
  import opened Options
  import opened ReleaseTag
  import opened Sequences

  class Repository {
    const rules: Rules
    var base: nat
    var remote: seq<Ref>
    var clones: map<nat, Clone>
    /** What every run of the command holds in its local variables. */
    var agents: map<nat, Agent>
    var made: seq<Made>
    var objects: nat
    /** Everything that has happened since `start`. */
    ghost var history: seq<Event>
    ghost const start: State

    function View(): State
      reads this`base, this`remote, this`clones, this`agents, this`made, this`objects
    {
      State(base, remote, clones, agents, made, objects)
    }

    ghost predicate Valid()
      reads this
    {
      View() == Run(start, history, rules)
    }

    constructor (s: State, rules: Rules)
      ensures Valid() && View() == s == start && this.rules == rules
    {
      this.rules := rules;
      base, remote, clones, agents, made, objects := s.base, s.remote, s.clones, s.agents, s.made, s.objects;
      start, history := s, [];
    }

    /** Run `id` is about to give the command it gives at `pc`. */
    predicate At(id: nat, pc: Pc)
      reads this
    {
      id in agents && agents[id].clone in clones && agents[id].pc == pc
    }

    ghost method Record(before: State, e: Event)
      requires before == Run(start, history, rules) && View() == Step(before, e, rules)
      modifies this`history
      ensures Valid() && history == old(history) + [e]
    {
      RunSnoc(start, history, e, rules);
      history := history + [e];
    }

    method Happens(e: Event)
      requires Valid()
      modifies this
      ensures Valid() && View() == Step(old(View()), e, rules) && history == old(history) + [e]
    {
      hide Run;
      var s := Step(View(), e, rules);
      ghost var before := View();
      base, remote, clones, agents, made, objects := s.base, s.remote, s.clones, s.agents, s.made, s.objects;
      Record(before, e);
    }

    /** Whatever others do: anything but this run's own steps. */
    method Others(id: nat, pc: Pc, events: seq<Event>)
      requires Valid() && At(id, pc) && forall e :: e in events ==> !(e.Act? && e.agent == id)
      modifies this
      ensures Valid() && At(id, pc) && agents[id] == old(agents[id]) && history == old(history) + events
    {
      hide Run;
      ghost var was := history;
      for k := 0 to |events|
        invariant Valid() && At(id, pc) && agents[id] == old(agents[id])
        invariant history == was + events[..k]
      {
        NextPrefix(events, k);
        Reassociate(was, events[..k], [events[k]]);
        Another(id, pc, events[k]);
      }
      WholePrefix(events);
    }

    method Another(id: nat, pc: Pc, e: Event)
      requires Valid() && At(id, pc) && !(e.Act? && e.agent == id)
      modifies this
      ensures Valid() && At(id, pc) && agents[id] == old(agents[id]) && history == old(history) + [e]
    {
      hide Run;
      OthersLeaveIt(View(), e, rules, id);
      Happens(e);
    }

    method Exit(id: nat, code: nat)
      requires id in agents
      modifies this`agents
      ensures agents == old(agents)[id := old(agents)[id].(pc := Exited(code))]
    {
      agents := agents[id := agents[id].(pc := Exited(code))];
    }

    method Proceed(id: nat, pc: Pc)
      requires id in agents
      modifies this`agents
      ensures agents == old(agents)[id := old(agents)[id].(pc := pc)]
    {
      agents := agents[id := agents[id].(pc := pc)];
    }

    /** `git fetch`, then `git rev-parse FETCH_HEAD`. */
    method Fetch(id: nat, o: Outcome)
      requires Valid() && At(id, FetchBase)
      modifies this
      ensures Valid() && (At(id, ReadMerged) || At(id, Exited(2)))
      ensures history == old(history) + [Act(id, o)]
    {
      hide Run;
      ghost var before := View();
      var c := agents[id].clone;
      if !o.Fails? {
        clones := clones[c := clones[c].(fetchHead := Some(base))];
      }
      if o.Works? {
        Proceed(id, ReadMerged);
      } else {
        Exit(id, 2);
      }
      Record(before, Act(id, o));
    }

    method RevParseFetchHead(id: nat, o: Outcome)
      requires Valid() && At(id, ReadMerged)
      modifies this
      ensures Valid() && (At(id, ReadHead) || At(id, Exited(2)))
      ensures history == old(history) + [Act(id, o)]
    {
      hide Run;
      ghost var before := View();
      var merged := clones[agents[id].clone].fetchHead;
      if o.Works? && merged.Some? {
        agents := agents[id := agents[id].(pc := ReadHead, merged := merged.value)];
      } else {
        Exit(id, 2);
      }
      Record(before, Act(id, o));
    }

    method RevParseHead(id: nat, o: Outcome)
      requires Valid() && At(id, ReadHead)
      modifies this
      ensures Valid() && (At(id, ReadManifest) || At(id, Exited(2)))
      ensures history == old(history) + [Act(id, o)]
    {
      hide Run;
      ghost var before := View();
      if o.Works? {
        agents := agents[id := agents[id].(pc := ReadManifest, head := clones[agents[id].clone].head)];
      } else {
        Exit(id, 2);
      }
      Record(before, Act(id, o));
    }

    method CheckManifest(id: nat, o: Outcome)
      requires Valid() && At(id, ReadManifest)
      modifies this
      ensures Valid()
      ensures At(id, ReadSubject) || At(id, Exited(1)) || At(id, Exited(2))
      ensures history == old(history) + [Act(id, o)]
    {
      hide Run;
      ghost var before := View();
      var a := agents[id];
      if !o.Works? {
        Exit(id, 2);
      } else if !rules.manifestMatches(a.tag, a.merged) {
        Exit(id, 1);
      } else {
        Proceed(id, ReadSubject);
      }
      Record(before, Act(id, o));
    }

    /** The subject, and then whether the checkout stands on the commit at all. */
    method CheckSubject(id: nat, o: Outcome)
      requires Valid() && At(id, ReadSubject)
      modifies this
      ensures Valid()
      ensures At(id, ReadStatus) || At(id, Exited(1)) || At(id, Exited(2))
      ensures history == old(history) + [Act(id, o)]
    {
      hide Run;
      ghost var before := View();
      var a := agents[id];
      if !o.Works? {
        Exit(id, 2);
      } else if !rules.subjectMatches(a.tag, a.merged) {
        Exit(id, 1);
      } else if a.head != a.merged {
        Exit(id, 1);
      } else {
        Proceed(id, ReadStatus);
      }
      Record(before, Act(id, o));
    }

    method CheckClean(id: nat, o: Outcome)
      requires Valid() && At(id, ReadStatus)
      modifies this
      ensures Valid()
      ensures At(id, ReadLocalTags) || At(id, Exited(1)) || At(id, Exited(2))
      ensures history == old(history) + [Act(id, o)]
    {
      hide Run;
      ghost var before := View();
      if !o.Works? {
        Exit(id, 2);
      } else if clones[agents[id].clone].dirty {
        Exit(id, 1);
      } else {
        Proceed(id, ReadLocalTags);
      }
      Record(before, Act(id, o));
    }

    method ListLocalTags(id: nat, o: Outcome)
      requires Valid() && At(id, ReadLocalTags)
      modifies this
      ensures Valid() && (At(id, ReadRemoteTags) || At(id, Exited(2)))
      ensures history == old(history) + [Act(id, o)]
    {
      hide Run;
      ghost var before := View();
      if o.Works? {
        agents := agents[id := agents[id].(pc := ReadRemoteTags, seen := Labels(clones[agents[id].clone].tags))];
      } else {
        Exit(id, 2);
      }
      Record(before, Act(id, o));
    }

    method CheckOrder(id: nat, o: Outcome)
      requires Valid() && At(id, ReadRemoteTags)
      modifies this
      ensures Valid()
      ensures At(id, MakeTag) || At(id, Exited(1)) || At(id, Exited(2))
      ensures history == old(history) + [Act(id, o)]
    {
      hide Run;
      ghost var before := View();
      var a := agents[id];
      if !o.Works? {
        Exit(id, 2);
      } else if !rules.inOrder(a.tag, a.seen + Labels(remote)) {
        Exit(id, 1);
      } else {
        Proceed(id, MakeTag);
      }
      Record(before, Act(id, o));
    }

    method CreateTag(id: nat, o: Outcome)
      requires Valid() && At(id, MakeTag)
      modifies this
      ensures Valid() && (At(id, PushTag) || At(id, Exited(2)))
      ensures history == old(history) + [Act(id, o)]
    {
      hide Run;
      ghost var before := View();
      var a := agents[id];
      var clone := clones[a.clone];
      if o.Fails? || Find(clone.tags, a.tag).Some? {
        Exit(id, 2);
      } else {
        clones := clones[a.clone := clone.(tags := clone.tags + [Ref(a.tag, objects, a.merged)])];
        objects := objects + 1;
        made := made + [Made(id, a.tag, a.merged)];
        if o.Works? {
          Proceed(id, PushTag);
        } else {
          Exit(id, 2);
        }
      }
      Record(before, Act(id, o));
    }

    method Push(id: nat, o: Outcome)
      requires Valid() && At(id, PushTag)
      modifies this
      ensures Valid() && (At(id, Exited(0)) || At(id, Exited(2)))
      ensures history == old(history) + [Act(id, o)]
    {
      hide Run;
      ghost var before := View();
      var a := agents[id];
      var mine, theirs := Find(clones[a.clone].tags, a.tag), Find(remote, a.tag);
      if o.Fails? || mine.None? || (theirs.Some? && theirs != mine) {
        Exit(id, 2);
      } else {
        if theirs.None? {
          remote := remote + [mine.value];
        }
        Exit(id, if o.Works? then 0 else 2);
      }
      Record(before, Act(id, o));
    }

    ghost method OneMore(past: seq<Event>, id: nat, os: seq<Outcome>, between: seq<seq<Event>>, k: nat)
      returns (n: nat)
      requires k < |os| && k < |between|
      requires history == past + Schedule(id, os, between, k) + between[k] + [Act(id, os[k])]
      ensures n == k + 1 && history == past + Schedule(id, os, between, n)
    {
      ScheduleNext(past, id, os, between, k);
      n := k + 1;
    }

    /** Fetching, and reading which commit was merged and which is checked out. */
    method ReadCommits(id: nat, os: seq<Outcome>, between: seq<seq<Event>>, ghost past: seq<Event>, ghost done: nat)
      returns (code: Option<nat>, ghost n: nat)
      requires Valid() && At(id, FetchBase) && |os| == |between| == 10 && Bystanders(id, between)
      requires done == 0 && history == past + Schedule(id, os, between, done)
      modifies this
      ensures Valid() && n <= 3 && history == past + Schedule(id, os, between, n)
      ensures if code.None? then n == 3 && At(id, ReadManifest) else At(id, Exited(code.value))
    {
      n := done;
      Others(id, FetchBase, between[0]);
      Fetch(id, os[0]);
      n := OneMore(past, id, os, between, n);
      if !At(id, ReadMerged) {
        return Some(agents[id].pc.code), n;
      }
      Others(id, ReadMerged, between[1]);
      RevParseFetchHead(id, os[1]);
      n := OneMore(past, id, os, between, n);
      if !At(id, ReadHead) {
        return Some(agents[id].pc.code), n;
      }
      Others(id, ReadHead, between[2]);
      RevParseHead(id, os[2]);
      n := OneMore(past, id, os, between, n);
      if !At(id, ReadManifest) {
        return Some(agents[id].pc.code), n;
      }
      return None, n;
    }

    /** The checks on the merged commit; nothing but the fetch has been written when it is left early. */
    method CheckMerged(id: nat, os: seq<Outcome>, between: seq<seq<Event>>, ghost past: seq<Event>, ghost done: nat)
      returns (code: Option<nat>, ghost n: nat)
      requires Valid() && At(id, FetchBase) && |os| == |between| == 10 && Bystanders(id, between)
      requires done == 0 && history == past + Schedule(id, os, between, done)
      modifies this
      ensures Valid() && n <= 5 && history == past + Schedule(id, os, between, n)
      ensures if code.None? then n == 5 && At(id, ReadStatus) else At(id, Exited(code.value))
    {
      code, n := ReadCommits(id, os, between, past, done);
      if code.Some? {
        return;
      }
      Others(id, ReadManifest, between[3]);
      CheckManifest(id, os[3]);
      n := OneMore(past, id, os, between, n);
      if !At(id, ReadSubject) {
        return Some(agents[id].pc.code), n;
      }
      Others(id, ReadSubject, between[4]);
      CheckSubject(id, os[4]);
      n := OneMore(past, id, os, between, n);
      if !At(id, ReadStatus) {
        return Some(agents[id].pc.code), n;
      }
      return None, n;
    }

    /** The clean tree, the gate, the tag and the push. */
    method CutTag(id: nat, os: seq<Outcome>, between: seq<seq<Event>>, ghost past: seq<Event>, ghost done: nat)
      returns (code: nat, ghost n: nat)
      requires Valid() && At(id, ReadStatus) && |os| == |between| == 10 && Bystanders(id, between)
      requires done == 5 && history == past + Schedule(id, os, between, done)
      modifies this
      ensures Valid() && n <= 10 && history == past + Schedule(id, os, between, n) && At(id, Exited(code))
    {
      n := done;
      Others(id, ReadStatus, between[5]);
      CheckClean(id, os[5]);
      n := OneMore(past, id, os, between, n);
      if !At(id, ReadLocalTags) {
        return agents[id].pc.code, n;
      }
      Others(id, ReadLocalTags, between[6]);
      ListLocalTags(id, os[6]);
      n := OneMore(past, id, os, between, n);
      if !At(id, ReadRemoteTags) {
        return agents[id].pc.code, n;
      }
      Others(id, ReadRemoteTags, between[7]);
      CheckOrder(id, os[7]);
      n := OneMore(past, id, os, between, n);
      if !At(id, MakeTag) {
        return agents[id].pc.code, n;
      }
      Others(id, MakeTag, between[8]);
      CreateTag(id, os[8]);
      n := OneMore(past, id, os, between, n);
      if !At(id, PushTag) {
        return agents[id].pc.code, n;
      }
      Others(id, PushTag, between[9]);
      Push(id, os[9]);
      n := OneMore(past, id, os, between, n);
      return agents[id].pc.code, n;
    }

    /**
     The whole command, however its commands turn out and whatever others do before each: what
     has happened is a run of the step system in which this run has exited with `code`, so every
     theorem about runs holds of it.
     */
    method TagRelease(id: nat, tag: string, c: nat, os: seq<Outcome>, between: seq<seq<Event>>)
      returns (code: nat, ghost n: nat)
      requires Valid() && id !in agents && c in clones && |os| == |between| == 10 && Bystanders(id, between)
      modifies this
      ensures Valid() && At(id, Exited(code))
      ensures n <= 10 && history == old(history) + [Launch(id, tag, c)] + Schedule(id, os, between, n)
      ensures !rules.isTag(tag) ==> code == 1 && n == 0
    {
      Happens(Launch(id, tag, c));
      ghost var past := history;
      NothingDoneYet(past, id, os, between);
      if !rules.isTag(tag) {
        return 1, 0;
      }
      ghost var none: nat := 0;
      var stopped, done := CheckMerged(id, os, between, past, none);
      if stopped.Some? {
        return stopped.value, done;
      }
      code, n := CutTag(id, os, between, past, done);
    }
  }

  /** What others do is not this run's doing. */
  ghost predicate Bystanders(id: nat, between: seq<seq<Event>>) {
    forall k, e :: 0 <= k < |between| && e in between[k] ==> !(e.Act? && e.agent == id)
  }

  /** The first `n` commands of a run, each after what others did before it. */
  function Schedule(id: nat, os: seq<Outcome>, between: seq<seq<Event>>, n: nat): seq<Event>
    requires n <= |os| && n <= |between|
  {
    if n == 0 then [] else Schedule(id, os, between, n - 1) + between[n - 1] + [Act(id, os[n - 1])]
  }

  lemma NothingDoneYet(past: seq<Event>, id: nat, os: seq<Outcome>, between: seq<seq<Event>>)
    ensures past + Schedule(id, os, between, 0) == past
  {
  }

  lemma ScheduleNext(past: seq<Event>, id: nat, os: seq<Outcome>, between: seq<seq<Event>>, k: nat)
    requires k < |os| && k < |between|
    ensures past + Schedule(id, os, between, k) + between[k] + [Act(id, os[k])]
            == past + Schedule(id, os, between, k + 1)
  {
    var earlier := Schedule(id, os, between, k);
    Reassociate(past, earlier, between[k]);
    Reassociate(past, earlier + between[k], [Act(id, os[k])]);
  }
}
