/** Which tag a push takes to the remote: the last one of its name made or fetched in the clone. */
module ReleasePush {
  import opened Commands
  import opened Options
  import opened ReleaseTag

  predicate NamesCommit(refs: seq<Ref>, name: string, commit: nat) {
    Find(refs, name).Some? && Find(refs, name).value.commit == commit
  }

  lemma TurnTouchesTags(s: State, id: nat, o: Outcome, r: Rules)
    requires id in s.agents && s.agents[id].clone in s.clones
    ensures var t := Turn(s, id, o, r); var a := s.agents[id];
            t.clones == s.clones || (a.clone in t.clones && SameTags(s, t, a.clone))
            || (a.pc == MakeTag && t.clones == Tagged(s, a.clone, a.tag, a.merged).clones)
  {
  }

  ghost predicate SameTags(s: State, t: State, c: nat)
    requires c in s.clones && c in t.clones
  {
    t.clones == s.clones[c := t.clones[c]] && t.clones[c].tags == s.clones[c].tags
  }

  lemma TaggedKeeps(s: State, c: nat, name: string, commit: nat, d: nat, other: string)
    requires c in s.clones && d in s.clones && Find(s.clones[d].tags, other).Some?
    ensures d in Tagged(s, c, name, commit).clones
    ensures Find(Tagged(s, c, name, commit).clones[d].tags, other) == Find(s.clones[d].tags, other)
  {
    FindInMore(s.clones[c].tags, Ref(name, s.objects, commit), other);
  }

  lemma FetchedKeeps(s: State, c: nat, name: string, d: nat, other: string)
    requires c in s.clones && d in s.clones && Find(s.clones[d].tags, other).Some?
    ensures d in Fetched(s, c, name).clones
    ensures Find(Fetched(s, c, name).clones[d].tags, other) == Find(s.clones[d].tags, other)
  {
    if Find(s.remote, name).Some? {
      FindInMore(s.clones[c].tags, Find(s.remote, name).value, other);
    }
  }

  /** A tag in a clone stays as it is until someone deletes it there. */
  lemma LocalTagStays(t: State, e: Event, r: Rules, c: nat, name: string)
    requires c in t.clones && Find(t.clones[c].tags, name).Some? && e != DropLocally(c, name)
    ensures c in Step(t, e, r).clones && Find(Step(t, e, r).clones[c].tags, name) == Find(t.clones[c].tags, name)
  {
    match e {
      case Act(id, o) =>
        if CanAct(t, e) {
          var a := t.agents[id];
          TurnTouchesTags(t, id, o, r);
          TaggedKeeps(t, a.clone, a.tag, a.merged, c, name);
        }
      case TagLocally(d, other, commit) =>
        if d in t.clones {
          TaggedKeeps(t, d, other, commit, c, name);
        }
      case FetchTag(d, other) =>
        if d in t.clones {
          FetchedKeeps(t, d, other, c, name);
        }
      case DropLocally(d, other) =>
        if d == c {
          FindInFewer(t.clones[c].tags, other, name);
        }
      case _ =>
    }
  }

  // ----- where a tag in a clone comes from -----

  /** This event gives the clone a tag of this name, on this commit, where it had none. */
  predicate Brings(t: State, e: Event, c: nat, name: string, commit: nat) {
    && c in t.clones && Find(t.clones[c].tags, name).None?
    && match e
       case TagLocally(d, other, m) => d == c && other == name && m == commit
       case FetchTag(d, other) => d == c && other == name && NamesCommit(t.remote, name, commit)
       case Act(id, o) =>
         && CanAct(t, e) && t.agents[id].clone == c && t.agents[id].tag == name
         && t.agents[id].pc == MakeTag && !o.Fails? && t.agents[id].merged == commit
       case _ => false
  }

  /** Event `k` did, and nobody has deleted that tag in the clone since. */
  ghost predicate LastBrought(
      s: State, events: seq<Event>, r: Rules, c: nat, name: string, k: nat, commit: nat)
  {
    && k < |events| && Brings(Run(s, events[..k], r), events[k], c, name, commit)
    && forall j :: k < j < |events| ==> events[j] != DropLocally(c, name)
  }

  lemma TaggedBrings(t: State, d: nat, other: string, m: nat, c: nat, name: string)
    requires c in t.clones && d in t.clones && Find(t.clones[c].tags, name).None?
    ensures var u := Tagged(t, d, other, m);
            c in u.clones &&
            if d == c && other == name then NamesCommit(u.clones[c].tags, name, m)
            else Find(u.clones[c].tags, name).None?
  {
    FindInMore(t.clones[d].tags, Ref(other, t.objects, m), name);
  }

  lemma FetchedBrings(t: State, d: nat, other: string, c: nat, name: string)
    requires c in t.clones && d in t.clones && Find(t.clones[c].tags, name).None?
    ensures var u := Fetched(t, d, other);
            c in u.clones &&
            if d == c && other == name then Find(u.clones[c].tags, name) == Find(t.remote, name)
            else Find(u.clones[c].tags, name).None?
  {
    if Find(t.remote, other).Some? {
      FindInMore(t.clones[d].tags, Find(t.remote, other).value, name);
    }
  }

  lemma ActBrings(t: State, id: nat, o: Outcome, r: Rules, c: nat, name: string)
    requires CanAct(t, Act(id, o)) && c in t.clones && Find(t.clones[c].tags, name).None?
    ensures c in Turn(t, id, o, r).clones
    ensures var found := Find(Turn(t, id, o, r).clones[c].tags, name);
            found.Some? <==> Brings(t, Act(id, o), c, name, t.agents[id].merged)
    ensures var found := Find(Turn(t, id, o, r).clones[c].tags, name);
            found.Some? ==> found.value.commit == t.agents[id].merged
  {
    var a := t.agents[id];
    TaggedBrings(t, a.clone, a.tag, a.merged, c, name);
    TurnTouchesTags(t, id, o, r);
    if a.pc == MakeTag {
      MakeTagTags(t, id, o, r);
    }
  }

  lemma MakeTagTags(t: State, id: nat, o: Outcome, r: Rules)
    requires CanAct(t, Act(id, o)) && t.agents[id].pc == MakeTag
    ensures var a := t.agents[id];
            Turn(t, id, o, r).clones ==
            if o.Fails? || Find(t.clones[a.clone].tags, a.tag).Some? then t.clones
            else Tagged(t, a.clone, a.tag, a.merged).clones
  {
  }

  /** A clone that had no such tag has one after an event exactly if the event brought it. */
  lemma BroughtNow(t: State, e: Event, r: Rules, c: nat, name: string, commit: nat)
    requires c in t.clones && Find(t.clones[c].tags, name).None?
    ensures c in Step(t, e, r).clones
    ensures NamesCommit(Step(t, e, r).clones[c].tags, name, commit) <==> Brings(t, e, c, name, commit)
  {
    match e {
      case Act(id, o) =>
        if CanAct(t, e) {
          ActBrings(t, id, o, r, c, name);
        }
      case TagLocally(d, other, m) =>
        if d in t.clones {
          TaggedBrings(t, d, other, m, c, name);
        }
      case FetchTag(d, other) =>
        if d in t.clones {
          FetchedBrings(t, d, other, c, name);
        }
      case DropLocally(d, other) =>
        if d in t.clones {
          FindInFewer(t.clones[d].tags, other, name);
        }
      case _ =>
    }
  }

  /** What was brought last is what the clone has. */
  lemma {:induction false} BroughtStays(
      s: State, events: seq<Event>, r: Rules, c: nat, name: string, k: nat, commit: nat)
    requires LastBrought(s, events, r, c, name, k, commit)
    ensures c in Run(s, events, r).clones && NamesCommit(Run(s, events, r).clones[c].tags, name, commit)
  {
    var before, e := events[..|events| - 1], events[|events| - 1];
    assert before[..k] == events[..k];
    if k == |before| {
      assert before == events[..k];
      BroughtNow(Run(s, before, r), e, r, c, name, commit);
    } else {
      BroughtStays(s, before, r, c, name, k, commit);
      LocalTagStays(Run(s, before, r), e, r, c, name);
    }
  }

  /** A clone that had no such tag at moment `i` and has one now was brought it since. */
  lemma {:induction false} BroughtSince(s: State, events: seq<Event>, r: Rules, c: nat, name: string, i: nat)
    returns (k: nat)
    requires i <= |events|
    requires var t := Run(s, events[..i], r); c in t.clones && Find(t.clones[c].tags, name).None?
    requires var t := Run(s, events, r); c in t.clones && Find(t.clones[c].tags, name).Some?
    ensures i <= k
    ensures LastBrought(s, events, r, c, name, k, Find(Run(s, events, r).clones[c].tags, name).value.commit)
  {
    hide Step, Find;
    assert events[..|events|] == events;
    var before, e := events[..|events| - 1], events[|events| - 1];
    assert before[..i] == events[..i] && events == before + [e];
    var t := Run(s, before, r);
    CloneStays(s, before, r, c, i);
    RunSnoc(s, before, e, r);
    var found := Find(Run(s, events, r).clones[c].tags, name);
    if Find(t.clones[c].tags, name).None? {
      k := |before|;
      assert NamesCommit(Run(s, events, r).clones[c].tags, name, found.value.commit);
      BroughtNow(t, e, r, c, name, found.value.commit);
      BroughtLast(s, before, e, r, c, name, found.value.commit);
    } else {
      k := BroughtSince(s, before, r, c, name, i);
      DroppedIsGone(t, e, r, c, name);
      LocalTagStays(t, e, r, c, name);
      StillBrought(s, before, e, r, c, name, k, found.value.commit);
    }
  }

  lemma BroughtLast(s: State, before: seq<Event>, e: Event, r: Rules, c: nat, name: string, commit: nat)
    requires Brings(Run(s, before, r), e, c, name, commit)
    ensures LastBrought(s, before + [e], r, c, name, |before|, commit)
  {
    assert (before + [e])[..|before|] == before;
  }

  lemma StillBrought(s: State, before: seq<Event>, e: Event, r: Rules, c: nat, name: string, k: nat, commit: nat)
    requires LastBrought(s, before, r, c, name, k, commit) && e != DropLocally(c, name)
    ensures LastBrought(s, before + [e], r, c, name, k, commit)
  {
    assert (before + [e])[..k] == before[..k];
  }

  lemma DroppedIsGone(t: State, e: Event, r: Rules, c: nat, name: string)
    requires c in t.clones && c in Step(t, e, r).clones && Find(Step(t, e, r).clones[c].tags, name).Some?
    ensures e != DropLocally(c, name)
  {
    FindInFewer(t.clones[c].tags, name, name);
  }

  lemma {:induction false} CloneStays(s: State, events: seq<Event>, r: Rules, c: nat, i: nat)
    requires i <= |events| && c in Run(s, events[..i], r).clones
    ensures c in Run(s, events, r).clones
  {
    if i == |events| {
      assert events[..i] == events;
    } else {
      var before := events[..|events| - 1];
      assert before[..i] == events[..i];
      CloneStays(s, before, r, c, i);
      CloneStaysOnce(Run(s, before, r), events[|events| - 1], r, c);
    }
  }

  lemma CloneStaysOnce(t: State, e: Event, r: Rules, c: nat)
    requires c in t.clones
    ensures c in Step(t, e, r).clones
  {
    if CanAct(t, e) {
      TurnLeavesTrees(t, e.agent, e.outcome, r);
    }
  }

  // ----- the run that made it, and the push -----

  /** Event `i` is the turn in which this agent made its tag; since then it is about to push it. */
  ghost predicate MadeAt(s: State, events: seq<Event>, r: Rules, id: nat, i: nat) {
    && i < |events| && events[i] == Act(id, Works)
    && (forall j :: i < j <= |events| ==> Pushing(Run(s, events[..j], r), id))
    && var t, a := Run(s, events[..i], r), Run(s, events, r).agents;
       id in t.agents && id in a && Brings(t, events[i], a[id].clone, a[id].tag, a[id].merged)
  }

  predicate Pushing(t: State, id: nat) {
    id in t.agents && t.agents[id].pc == PushTag
  }

  lemma TurnMakes(t: State, id: nat, o: Outcome, r: Rules)
    requires CanAct(t, Act(id, o)) && t.agents[id].pc != PushTag && Turn(t, id, o, r).agents[id].pc == PushTag
    ensures o == Works && Brings(t, Act(id, o), t.agents[id].clone, t.agents[id].tag, t.agents[id].merged)
    ensures Turn(t, id, o, r).agents[id].merged == t.agents[id].merged
  {
  }

  lemma {:induction false} PusherMade(s: State, events: seq<Event>, r: Rules, id: nat) returns (i: nat)
    requires Fresh(s) && Pushing(Run(s, events, r), id)
    ensures MadeAt(s, events, r, id, i)
  {
    hide Step, Brings;
    var before, e := events[..|events| - 1], events[|events| - 1];
    assert events == before + [e];
    var t := Run(s, before, r);
    AgentAfter(t, e, r, id);
    AgentsStay(t, e, r);
    assert events[..|events|] == events;
    if Pushing(t, id) {
      i := PusherMade(s, before, r, id);
      PushingUnturned(t, e, r, id);
      forall j | 0 <= j <= |before|
        ensures before[..j] == events[..j]
      {
      }
    } else {
      i := |before|;
      TurnMakes(t, id, e.outcome, r);
    }
  }

  lemma PushingUnturned(t: State, e: Event, r: Rules, id: nat)
    requires Pushing(t, id) && Pushing(Step(t, e, r), id)
    ensures Step(t, e, r).agents[id] == t.agents[id]
  {
    AgentAfter(t, e, r, id);
  }

  /** Event `p` is the turn in which this agent's push worked. */
  ghost predicate PushedAt(s: State, events: seq<Event>, r: Rules, id: nat, p: nat) {
    && p < |events| && events[p] == Act(id, Works)
    && var t, now := Run(s, events[..p], r), Run(s, events, r);
       && Pushing(t, id) && id in now.agents && CanAct(t, events[p]) && Pushes(t, t.agents[id].clone, t.agents[id].tag)
       && now.agents[id].clone == t.agents[id].clone && now.agents[id].tag == t.agents[id].tag
       && now.agents[id].merged == t.agents[id].merged
       && Find(now.remote, t.agents[id].tag) == Find(t.clones[t.agents[id].clone].tags, t.agents[id].tag)
  }

  lemma TurnPushes(t: State, id: nat, o: Outcome, r: Rules)
    requires CanAct(t, Act(id, o)) && t.agents[id].pc != Exited(0) && Turn(t, id, o, r).agents[id].pc == Exited(0)
    ensures o == Works && t.agents[id].pc == PushTag && Pushes(t, t.agents[id].clone, t.agents[id].tag)
    ensures Turn(t, id, o, r).agents[id].merged == t.agents[id].merged
    ensures var a := t.agents[id]; Find(Turn(t, id, o, r).remote, a.tag) == Find(t.clones[a.clone].tags, a.tag)
  {
    var a := t.agents[id];
    if a.pc == PushTag && Pushes(t, a.clone, a.tag) {
      FindInMore(t.remote, Find(t.clones[a.clone].tags, a.tag).value, a.tag);
    }
  }

  lemma LaunchedIsNotDone(t: State, e: Event, r: Rules, id: nat)
    ensures id !in t.agents && id in Step(t, e, r).agents ==> Step(t, e, r).agents[id].pc != Exited(0)
  {
    if CanAct(t, e) {
      TurnIsItsOwn(t, e.agent, e.outcome, r);
    }
  }

  lemma {:induction false} WhoExitedPushed(s: State, events: seq<Event>, r: Rules, id: nat) returns (p: nat)
    requires Fresh(s) && id in Run(s, events, r).agents && Run(s, events, r).agents[id].pc == Exited(0)
    ensures PushedAt(s, events, r, id, p)
  {
    hide Step, Find;
    var before, e := events[..|events| - 1], events[|events| - 1];
    assert events == before + [e];
    var t := Run(s, before, r);
    RunSnoc(s, before, e, r);
    AgentAfter(t, e, r, id);
    AgentsStay(t, e, r);
    LaunchedIsNotDone(t, e, r, id);
    if id in t.agents && t.agents[id].pc == Exited(0) {
      p := WhoExitedPushed(s, before, r, id);
      assert before[..p] == events[..p];
      RemoteTagStays(t, e, r, t.agents[id].tag);
    } else {
      p := |before|;
      assert before == events[..p];
      TurnPushes(t, id, e.outcome, r);
    }
  }

  // ----- what exit 0 says about the remote -----

  /**
   After exit 0 the remote's tag is on the merged commit that was checked if and only if the last tag
   of that name made or fetched in the clone before the push, from this run's own making on, is.
   */
  lemma ExitZeroNamesMergedExactlyWhen(s: State, events: seq<Event>, r: Rules, id: nat)
    returns (i: nat, k: nat, p: nat, commit: nat)
    requires Fresh(s) && id in Run(s, events, r).agents && Run(s, events, r).agents[id].pc == Exited(0)
    ensures i <= k < p && PushedAt(s, events, r, id, p) && MadeAt(s, events[..p], r, id, i)
    ensures var a := Run(s, events, r).agents[id];
            && LastBrought(s, events[..p], r, a.clone, a.tag, k, commit)
            && NamesCommit(Run(s, events, r).remote, a.tag, commit)
            && (NamesCommit(Run(s, events, r).remote, a.tag, a.merged) <==> commit == a.merged)
  {
    p := WhoExitedPushed(s, events, r, id);
    var early := events[..p];
    i := PusherMade(s, early, r, id);
    var a := Run(s, events, r).agents[id];
    k := BroughtSince(s, early, r, a.clone, a.tag, i);
    commit := Find(Run(s, early, r).clones[a.clone].tags, a.tag).value.commit;
  }

  /** Nobody deletes this run's tag in its clone between its making the tag and its pushing it. */
  predicate LeavesTagAlone(s: State, e: Event, id: nat) {
    id in s.agents && s.agents[id].pc == PushTag ==> e != DropLocally(s.agents[id].clone, s.agents[id].tag)
  }

  predicate TagLeftAlone(s: State, events: seq<Event>, r: Rules, id: nat) {
    forall k :: 0 <= k < |events| ==> LeavesTagAlone(Run(s, events[..k], r), events[k], id)
  }

  lemma LeftAloneIsLastBrought(s: State, events: seq<Event>, r: Rules, id: nat, i: nat, p: nat)
    requires TagLeftAlone(s, events, r, id) && p <= |events| && MadeAt(s, events[..p], r, id, i)
    ensures var a := Run(s, events[..p], r).agents[id];
            LastBrought(s, events[..p], r, a.clone, a.tag, i, a.merged)
  {
    hide Step, Brings;
    var early := events[..p];
    var a := Run(s, early, r).agents[id];
    forall j | i < j < |early|
      ensures early[j] != DropLocally(a.clone, a.tag)
    {
      assert early[..j] == events[..j];
      assert Pushing(Run(s, early[..j], r), id);
      AgentIsTheSame(s, early, r, id, j);
      assert LeavesTagAlone(Run(s, events[..j], r), events[j], id);
    }
  }

  /** In particular it is, for as long as the run goes on, if nobody deleted the tag locally in between. */
  lemma ExitZeroNamesMerged(s: State, events: seq<Event>, r: Rules, id: nat)
    requires Fresh(s) && TagLeftAlone(s, events, r, id)
    requires id in Run(s, events, r).agents && Run(s, events, r).agents[id].pc == Exited(0)
    ensures var t := Run(s, events, r);
            NamesCommit(t.remote, t.agents[id].tag, t.agents[id].merged)
            && exists k :: 0 <= k < |t.made| && t.made[k] == Made(id, t.agents[id].tag, t.agents[id].merged)
  {
    hide Step, Brings, LastBrought, TagLeftAlone, MadeAt;
    var i, k, p, commit := ExitZeroNamesMergedExactlyWhen(s, events, r, id);
    var t := Run(s, events, r);
    var a := t.agents[id];
    LeftAloneIsLastBrought(s, events, r, id, i, p);
    BroughtStays(s, events[..p], r, a.clone, a.tag, i, a.merged);
    ExitCodesAreHonest(s, events, r);
    assert HonestExit(t, id, a);
    MadeAreOwn(s, events, r);
  }

  /** Whoever made a tag made it of its own name, and on the commit it had read. */
  ghost predicate OwnTags(s: State) {
    forall k :: 0 <= k < |s.made| ==>
      var m := s.made[k];
      m.agent in s.agents && m.tag == s.agents[m.agent].tag && m.commit == s.agents[m.agent].merged
      && (Rank(s.agents[m.agent].pc) == 0 || s.agents[m.agent].pc == PushTag)
  }

  lemma TurnOwns(s: State, id: nat, o: Outcome, r: Rules)
    requires id in s.agents && s.agents[id].clone in s.clones
    ensures var a, b := s.agents[id], Turn(s, id, o, r).agents[id];
            && (Rank(a.pc) == 0 || a.pc == PushTag || a.pc == MakeTag ==> b.merged == a.merged)
            && (Rank(a.pc) == 0 || a.pc == PushTag || Turn(s, id, o, r).made != s.made ==>
                  Rank(b.pc) == 0 || b.pc == PushTag)
  {
  }

  lemma StepOwns(s: State, e: Event, r: Rules)
    requires OwnTags(s)
    ensures OwnTags(Step(s, e, r))
  {
    TagsAfter(s, e, r);
    AgentsStay(s, e, r);
    if CanAct(s, e) {
      TurnIsItsOwn(s, e.agent, e.outcome, r);
      TurnOwns(s, e.agent, e.outcome, r);
    }
  }

  lemma {:induction false} MadeAreOwn(s: State, events: seq<Event>, r: Rules)
    requires Fresh(s)
    ensures OwnTags(Run(s, events, r))
  {
    if events != [] {
      MadeAreOwn(s, events[..|events| - 1], r);
      StepOwns(Run(s, events[..|events| - 1], r), events[|events| - 1], r);
    }
  }

  /** Deleted and made again elsewhere in between, the tag that is pushed is the other one; still exit 0. */
  lemma ReplacedTagIsPushed(s: State, id: nat, other: nat, r: Rules)
    requires id in s.agents && s.agents[id].pc == PushTag && s.agents[id].clone in s.clones
    requires Find(s.remote, s.agents[id].tag).None?
    ensures var a := s.agents[id];
            var t := Step(Step(s, DropLocally(a.clone, a.tag), r), TagLocally(a.clone, a.tag, other), r);
            var u := Step(t, Act(id, Works), r);
            u.agents[id].pc == Exited(0) && NamesCommit(u.remote, a.tag, other)
  {
    var a := s.agents[id];
    var tags := s.clones[a.clone].tags;
    var ref := Ref(a.tag, s.objects, other);
    FindInFewer(tags, a.tag, a.tag);
    FindInMore(Drop(tags, a.tag), ref, a.tag);
    FindInMore(s.remote, ref, a.tag);
  }
}
