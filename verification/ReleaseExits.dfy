/** How a run of phase B ends: which exit code, for which command's outcome or which check, and no other. */
module ReleaseExits {
  import opened Commands
  import opened Options
  import opened ReleaseTag

  // ----- one turn -----

  /** A check that could be made has refused. */
  predicate Refuses(t: State, id: nat, o: Outcome, r: Rules)
    requires id in t.agents && t.agents[id].clone in t.clones
  {
    var a := t.agents[id];
    && o.Works?
    && match a.pc
       case ReadManifest => !r.manifestMatches(a.tag, a.merged)
       case ReadSubject => !r.subjectMatches(a.tag, a.merged) || a.head != a.merged
       case ReadStatus => t.clones[a.clone].dirty
       case ReadRemoteTags => !r.inOrder(a.tag, a.seen + Labels(t.remote))
       case _ => false
  }

  predicate Taken(refs: seq<Ref>, name: string) {
    exists i :: 0 <= i < |refs| && refs[i].name == name
  }

  /** A command has not worked, or could not: nothing was fetched, the name is taken, the push is refused. */
  predicate Breaks(t: State, id: nat, o: Outcome)
    requires id in t.agents && t.agents[id].clone in t.clones
  {
    var a := t.agents[id];
    && !a.pc.Exited?
    && (|| !o.Works?
        || (a.pc == ReadMerged && t.clones[a.clone].fetchHead.None?)
        || (a.pc == MakeTag && Taken(t.clones[a.clone].tags, a.tag))
        || (a.pc == PushTag && !Pushes(t, a.clone, a.tag)))
  }

  predicate Completes(t: State, id: nat, o: Outcome)
    requires id in t.agents && t.agents[id].clone in t.clones
  {
    var a := t.agents[id];
    a.pc == PushTag && o.Works? && Pushes(t, a.clone, a.tag)
  }

  predicate Ends(t: State, id: nat, o: Outcome, r: Rules, code: nat)
    requires id in t.agents && t.agents[id].clone in t.clones
  {
    || (code == 0 && Completes(t, id, o))
    || (code == 1 && Refuses(t, id, o, r))
    || (code == 2 && Breaks(t, id, o))
  }

  /** What a turn that goes on has read: what was fetched, what is checked out, which tags there are. */
  predicate Reads(a: Agent, b: Agent, clone: Clone) {
    && b.tag == a.tag && b.clone == a.clone
    && (if a.pc == ReadMerged then clone.fetchHead == Some(b.merged) else b.merged == a.merged)
    && b.head == (if a.pc == ReadHead then clone.head else a.head)
    && b.seen == (if a.pc == ReadLocalTags then Labels(clone.tags) else a.seen)
  }

  lemma TakenIsFound(refs: seq<Ref>, name: string)
    ensures Taken(refs, name) <==> Find(refs, name).Some?
  {
    if Find(refs, name).Some? {
      assert Find(refs, name).value in refs;
    }
  }

  /** A turn ends the run with a code exactly when it says so above; else it goes on to the next one. */
  lemma TurnEndsExactlyWhen(t: State, id: nat, o: Outcome, r: Rules)
    requires id in t.agents && t.agents[id].clone in t.clones && !t.agents[id].pc.Exited?
    ensures var a, b := t.agents[id], Turn(t, id, o, r).agents[id];
            && (forall code :: b.pc == Exited(code) <==> Ends(t, id, o, r, code))
            && (!b.pc.Exited? ==> Rank(b.pc) == Rank(a.pc) + 1 && Reads(a, b, t.clones[a.clone]))
  {
    TakenIsFound(t.clones[t.agents[id].clone].tags, t.agents[id].tag);
    hide Taken, Find, Labels, Tagged, Pushed, Pushes;
  }

  // ----- over runs -----

  /** The `p`-th event ends the run of `id` with this code: its launch, for no tag, or a turn. */
  ghost predicate EndsAt(s: State, events: seq<Event>, r: Rules, id: nat, p: nat, code: nat) {
    && p < |events|
    && var t, e := Run(s, events[..p], r), events[p];
       || (e.Launch? && e.agent == id && id !in t.agents && e.clone in t.clones && !r.isTag(e.tag) && code == 1)
       || (CanAct(t, e) && e.agent == id && !t.agents[id].pc.Exited? && Ends(t, id, e.outcome, r, code))
  }

  ghost predicate HasExited(t: State, id: nat, code: nat) {
    id in t.agents && t.agents[id].pc == Exited(code)
  }

  lemma ExitedStaysOnce(t: State, e: Event, r: Rules, id: nat, code: nat)
    requires HasExited(t, id, code)
    ensures HasExited(Step(t, e, r), id, code)
  {
    AgentsStay(t, e, r);
    AgentAfter(t, e, r, id);
  }

  lemma LaunchEnds(t: State, e: Event, r: Rules, id: nat, code: nat)
    requires id !in t.agents
    ensures HasExited(Step(t, e, r), id, code) <==>
            e.Launch? && e.agent == id && e.clone in t.clones && !r.isTag(e.tag) && code == 1
  {
    if CanAct(t, e) {
      TurnIsItsOwn(t, e.agent, e.outcome, r);
    }
  }

  lemma OthersEndNothing(t: State, e: Event, r: Rules, id: nat, code: nat)
    requires id in t.agents && !t.agents[id].pc.Exited? && !(CanAct(t, e) && e.agent == id)
    ensures !HasExited(Step(t, e, r), id, code)
  {
    AgentsStay(t, e, r);
    AgentAfter(t, e, r, id);
  }

  lemma StepEnds(s: State, events: seq<Event>, r: Rules, id: nat, code: nat)
    requires events != []
    ensures var before := events[..|events| - 1];
            HasExited(Run(s, events, r), id, code) <==>
            HasExited(Run(s, before, r), id, code) || EndsAt(s, events, r, id, |before|, code)
  {
    hide Step, Turn, Ends;
    var before, e := events[..|events| - 1], events[|events| - 1];
    var t := Run(s, before, r);
    assert Run(s, events, r) == Step(t, e, r);
    if id !in t.agents {
      LaunchEnds(t, e, r, id, code);
    } else if t.agents[id].pc.Exited? {
      ExitedStaysOnce(t, e, r, id, t.agents[id].pc.code);
    } else if CanAct(t, e) && e.agent == id {
      ActIsTurn(t, e, r);
      TurnIsItsOwn(t, id, e.outcome, r);
      TurnEndsExactlyWhen(t, id, e.outcome, r);
    } else {
      OthersEndNothing(t, e, r, id, code);
    }
  }

  lemma EndsEarlier(s: State, events: seq<Event>, r: Rules, id: nat, p: nat, code: nat)
    requires p < |events| - 1
    ensures EndsAt(s, events, r, id, p, code) <==> EndsAt(s, events[..|events| - 1], r, id, p, code)
  {
    assert events[..|events| - 1][..p] == events[..p];
    hide Run, Ends, CanAct;
  }

  ghost predicate Ended(s: State, events: seq<Event>, r: Rules, id: nat, code: nat) {
    exists p: nat :: EndsAt(s, events, r, id, p, code)
  }

  lemma EndsWithin(s: State, events: seq<Event>, r: Rules, id: nat, p: nat, code: nat)
    requires EndsAt(s, events, r, id, p, code)
    ensures p < |events|
  {
  }

  lemma EndedStep(s: State, events: seq<Event>, r: Rules, id: nat, code: nat)
    requires events != []
    ensures var before := events[..|events| - 1];
            Ended(s, events, r, id, code) <==>
            Ended(s, before, r, id, code) || EndsAt(s, events, r, id, |before|, code)
  {
    hide EndsAt;
    var before := events[..|events| - 1];
    if Ended(s, before, r, id, code) {
      var p: nat :| EndsAt(s, before, r, id, p, code);
      EndsWithin(s, before, r, id, p, code);
      EndsEarlier(s, events, r, id, p, code);
    }
    if Ended(s, events, r, id, code) {
      var p: nat :| EndsAt(s, events, r, id, p, code);
      EndsWithin(s, events, r, id, p, code);
      if p < |before| {
        EndsEarlier(s, events, r, id, p, code);
      }
    }
  }

  lemma NotEndedYet(s: State, r: Rules, id: nat, code: nat)
    requires Fresh(s)
    ensures !HasExited(Run(s, [], r), id, code) && !Ended(s, [], r, id, code)
  {
  }

  /**
   Over all runs: a releaser has exited with a code if and only if one of its turns ended it so. Exit 1 is
   a check that refused, exit 2 a command that did not work, and exit 0 a push of the tag that did.
   */
  lemma {:induction false} ExitsExactlyWhen(s: State, events: seq<Event>, r: Rules, id: nat, code: nat)
    requires Fresh(s)
    ensures HasExited(Run(s, events, r), id, code) <==> Ended(s, events, r, id, code)
    decreases |events|
  {
    hide HasExited, Ended, EndsAt, Fresh, Run;
    if events == [] {
      NotEndedYet(s, r, id, code);
    } else {
      ExitsExactlyWhen(s, events[..|events| - 1], r, id, code);
      StepEnds(s, events, r, id, code);
      EndedStep(s, events, r, id, code);
    }
  }
}
