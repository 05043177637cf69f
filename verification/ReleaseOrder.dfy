/** The order in which release tags reach the remote, when several people release at once. */
module ReleaseOrder {
  import opened Commands
  import opened Options
  import opened ReleaseTag

  /** `below` is how the gate's order compares tags: what it passes is above every tag it was shown. */
  ghost predicate Orders(r: Rules, below: (string, string) -> bool) {
    forall tag, names, i :: r.inOrder(tag, names) && 0 <= i < |names| ==> below(names[i], tag)
  }

  predicate Waiting(pc: Pc) {
    pc == MakeTag || pc == PushTag
  }

  /** The gate's reading and the push are one step, as far as other pushes go; and nobody pushes tags by hand. */
  predicate AlonePushing(s: State, e: Event) {
    && !e.PushByHand?
    && (CanAct(s, e) && s.agents[e.agent].pc == PushTag ==>
          forall id :: id in s.agents && id != e.agent ==> !Waiting(s.agents[id].pc))
  }

  predicate AlwaysAlone(s: State, events: seq<Event>, r: Rules) {
    forall k :: 0 <= k < |events| ==> AlonePushing(Run(s, events[..k], r), events[k])
  }

  /** Every agent past its gate has a tag above all that is on the remote. */
  ghost predicate AboveAll(s: State, below: (string, string) -> bool) {
    forall id, i :: id in s.agents && Waiting(s.agents[id].pc) && 0 <= i < |s.remote| ==>
      below(s.remote[i].name, s.agents[id].tag)
  }

  /** The tags that arrived after the first `n` are each above all before them. */
  ghost predicate Rising(remote: seq<Ref>, n: nat, below: (string, string) -> bool) {
    forall i, j :: 0 <= i < j < |remote| && n <= j ==> below(remote[i].name, remote[j].name)
  }

  /** What the gate passes is above all that was on the remote when it read. */
  lemma GateReads(s: State, id: nat, r: Rules, below: (string, string) -> bool)
    requires id in s.agents && Orders(r, below)
    requires r.inOrder(s.agents[id].tag, s.agents[id].seen + Labels(s.remote))
    ensures forall i :: 0 <= i < |s.remote| ==> below(s.remote[i].name, s.agents[id].tag)
  {
    var names := s.agents[id].seen + Labels(s.remote);
    forall i | 0 <= i < |s.remote| ensures below(s.remote[i].name, s.agents[id].tag) {
      assert names[|s.agents[id].seen| + i] == s.remote[i].name;
    }
  }

  lemma TurnStaysAbove(s: State, id: nat, o: Outcome, r: Rules, below: (string, string) -> bool)
    requires id in s.agents && s.agents[id].clone in s.clones && Orders(r, below) && AboveAll(s, below)
    ensures var t := Turn(s, id, o, r);
            Waiting(t.agents[id].pc) ==>
              && t.remote == s.remote
              && forall i :: 0 <= i < |s.remote| ==> below(s.remote[i].name, t.agents[id].tag)
  {
    var a := s.agents[id];
    if a.pc == ReadRemoteTags && r.inOrder(a.tag, a.seen + Labels(s.remote)) {
      GateReads(s, id, r, below);
    }
  }

  lemma StepStaysAbove(s: State, e: Event, r: Rules, below: (string, string) -> bool)
    requires Orders(r, below) && AboveAll(s, below) && AlonePushing(s, e)
    ensures AboveAll(Step(s, e, r), below)
  {
    var t := Step(s, e, r);
    TagsAfter(s, e, r);
    forall id, i | id in t.agents && Waiting(t.agents[id].pc) && 0 <= i < |t.remote|
      ensures below(t.remote[i].name, t.agents[id].tag)
    {
      AgentAfter(s, e, r, id);
      if CanAct(s, e) && e.agent == id {
        TurnStaysAbove(s, id, e.outcome, r, below);
      }
    }
  }

  lemma StepStaysRising(s: State, e: Event, r: Rules, n: nat, below: (string, string) -> bool)
    requires AboveAll(s, below) && AlonePushing(s, e) && Rising(s.remote, n, below)
    ensures Rising(Step(s, e, r).remote, n, below)
  {
    TagsAfter(s, e, r);
  }

  /** With reading and pushing undivided, every tag a release pushes is above every tag already there. */
  lemma {:induction false} TagsRise(s: State, events: seq<Event>, r: Rules, below: (string, string) -> bool)
    requires Fresh(s) && Orders(r, below) && AlwaysAlone(s, events, r)
    ensures AboveAll(Run(s, events, r), below) && Rising(Run(s, events, r).remote, |s.remote|, below)
  {
    if events != [] {
      var before, e := events[..|events| - 1], events[|events| - 1];
      forall k | 0 <= k < |before| ensures AlonePushing(Run(s, before[..k], r), before[k]) {
        assert before[..k] == events[..k];
      }
      TagsRise(s, before, r, below);
      StepStaysAbove(Run(s, before, r), e, r, below);
      StepStaysRising(Run(s, before, r), e, r, |s.remote|, below);
    }
  }

  // ----- when a push rises -----

  /** Event `m` is the turn in which this agent read the remote's tags for its gate. */
  ghost predicate GateRead(s: State, events: seq<Event>, r: Rules, id: nat, m: nat) {
    && m < |events| && events[m] == Act(id, Works)
    && var t := Run(s, events[..m], r);
       && id in t.agents && t.agents[id].pc == ReadRemoteTags
       && r.inOrder(t.agents[id].tag, t.agents[id].seen + Labels(t.remote))
  }

  ghost predicate HasRead(s: State, events: seq<Event>, r: Rules, id: nat) {
    exists m: nat :: GateRead(s, events, r, id, m)
  }

  lemma ReadStays(s: State, events: seq<Event>, e: Event, r: Rules, id: nat)
    requires HasRead(s, events, r, id)
    ensures HasRead(s, events + [e], r, id)
  {
    var m: nat :| GateRead(s, events, r, id, m);
    assert (events + [e])[..m] == events[..m];
    assert GateRead(s, events + [e], r, id, m);
  }

  lemma NowReads(s: State, events: seq<Event>, o: Outcome, r: Rules, id: nat)
    requires var t := Run(s, events, r);
             id in t.agents && t.agents[id].clone in t.clones && !Waiting(t.agents[id].pc)
             && Waiting(Turn(t, id, o, r).agents[id].pc)
    ensures HasRead(s, events + [Act(id, o)], r, id)
  {
    assert (events + [Act(id, o)])[..|events|] == events;
    assert GateRead(s, events + [Act(id, o)], r, id, |events|);
  }

  lemma {:induction false} WaitingHasRead(s: State, events: seq<Event>, r: Rules, id: nat)
    requires Fresh(s) && id in Run(s, events, r).agents && Waiting(Run(s, events, r).agents[id].pc)
    ensures HasRead(s, events, r, id)
  {
    hide Step, HasRead;
    var before, e := events[..|events| - 1], events[|events| - 1];
    assert events == before + [e];
    var t := Run(s, before, r);
    AgentAfter(t, e, r, id);
    if id in t.agents && Waiting(t.agents[id].pc) {
      WaitingHasRead(s, before, r, id);
      ReadStays(s, before, e, r, id);
    } else {
      NowReads(s, before, e.outcome, r, id);
    }
  }

  /** Tags never leave the remote. */
  lemma {:induction false} RemoteGrows(s: State, events: seq<Event>, r: Rules, m: nat)
    requires m <= |events|
    ensures Run(s, events[..m], r).remote <= Run(s, events, r).remote
  {
    if m == |events| {
      assert events[..m] == events;
    } else {
      var before := events[..|events| - 1];
      assert before[..m] == events[..m];
      RemoteGrows(s, before, r, m);
      TagsAfter(Run(s, before, r), events[|events| - 1], r);
    }
  }

  ghost predicate AllUnder(refs: seq<Ref>, from: nat, tag: string, below: (string, string) -> bool) {
    forall i :: from <= i < |refs| ==> below(refs[i].name, tag)
  }

  /**
   With no hypothesis on what others do: a push that lands is above everything on the remote if and
   only if it is above what arrived there since the turn in which its gate read the remote.
   */
  lemma PushRisesExactlyWhen(
      s: State, events: seq<Event>, o: Outcome, r: Rules, id: nat, below: (string, string) -> bool)
    returns (m: nat)
    requires Fresh(s) && Orders(r, below)
    requires var t := Run(s, events, r); id in t.agents && t.agents[id].pc == PushTag
    requires Step(Run(s, events, r), Act(id, o), r).remote != Run(s, events, r).remote
    ensures GateRead(s, events, r, id, m)
    ensures var t, read := Run(s, events, r), Run(s, events[..m], r).remote;
            && read <= t.remote
            && (Rising(Step(t, Act(id, o), r).remote, |t.remote|, below) <==>
                AllUnder(t.remote, |read|, t.agents[id].tag, below))
  {
    var t := Run(s, events, r);
    WaitingHasRead(s, events, r, id);
    m :| GateRead(s, events, r, id, m);
    AgentIsTheSame(s, events, r, id, m);
    RemoteGrows(s, events, r, m);
    GateReads(Run(s, events[..m], r), id, r, below);
    LandedAbove(t, id, o, r, |Run(s, events[..m], r).remote|, below);
  }

  lemma LandedAbove(t: State, id: nat, o: Outcome, r: Rules, from: nat, below: (string, string) -> bool)
    requires id in t.agents && Step(t, Act(id, o), r).remote != t.remote && from <= |t.remote|
    requires forall i :: 0 <= i < from ==> below(t.remote[i].name, t.agents[id].tag)
    ensures Rising(Step(t, Act(id, o), r).remote, |t.remote|, below) <==>
            AllUnder(t.remote, from, t.agents[id].tag, below)
  {
    TagsAfter(t, Act(id, o), r);
    var after, n := Step(t, Act(id, o), r).remote, |t.remote|;
    assert forall i :: 0 <= i < n ==> after[i] == t.remote[i];
    if Rising(after, n, below) {
      forall i | from <= i < n ensures below(t.remote[i].name, t.agents[id].tag) {
        assert below(after[i].name, after[n].name);
      }
    }
  }

  // ----- why the reading and the push must not be divided -----

  /** Nothing stands in the way of this agent's tag. */
  predicate OnTrack(s: State, id: nat, r: Rules) {
    && id in s.agents && s.agents[id].clone in s.clones
    && var a := s.agents[id];
       var clone := s.clones[a.clone];
    && 1 <= Rank(a.pc) <= 9
    && clone.head == s.base && !clone.dirty && Find(clone.tags, a.tag).None?
    && r.manifestMatches(a.tag, s.base) && r.subjectMatches(a.tag, s.base)
    && r.inOrder(a.tag, Labels(clone.tags) + Labels(s.remote))
    && (Rank(a.pc) >= 2 ==> clone.fetchHead == Some(s.base))
    && (Rank(a.pc) >= 3 ==> a.merged == s.base)
    && (Rank(a.pc) >= 4 ==> a.head == s.base)
    && (Rank(a.pc) >= 8 ==> a.seen == Labels(clone.tags))
  }

  /** The rest of the world as this agent leaves it. */
  ghost predicate SameElsewhere(s: State, t: State, id: nat)
    requires id in s.agents
  {
    && OnlyItsTurn(s, id, t)
    && t.base == s.base && t.remote == s.remote && t.clones.Keys == s.clones.Keys
    && forall c :: c in s.clones && c != s.agents[id].clone ==> t.clones[c] == s.clones[c]
  }

  predicate ReadyToPush(t: State, id: nat) {
    && id in t.agents && t.agents[id].pc == PushTag && t.agents[id].clone in t.clones
    && Find(t.clones[t.agents[id].clone].tags, t.agents[id].tag).Some?
  }

  predicate Advanced(s: State, t: State, id: nat, r: Rules)
    requires id in s.agents
  {
    if Rank(s.agents[id].pc) < 9 then OnTrack(t, id, r) && Rank(t.agents[id].pc) == Rank(s.agents[id].pc) + 1
    else ReadyToPush(t, id)
  }

  lemma AdvanceEarly(s: State, id: nat, r: Rules)
    requires OnTrack(s, id, r) && Rank(s.agents[id].pc) <= 5
    ensures Advanced(s, Turn(s, id, Works, r), id, r)
  {
  }

  lemma AdvanceLate(s: State, id: nat, r: Rules)
    requires OnTrack(s, id, r) && Rank(s.agents[id].pc) > 5
    ensures Advanced(s, Turn(s, id, Works, r), id, r)
  {
  }

  lemma AdvanceAlone(s: State, id: nat, r: Rules)
    requires OnTrack(s, id, r)
    ensures SameElsewhere(s, Turn(s, id, Works, r), id)
  {
    TurnIsItsOwn(s, id, Works, r);
  }

  lemma Advance(s: State, id: nat, r: Rules)
    requires OnTrack(s, id, r)
    ensures SameElsewhere(s, Turn(s, id, Works, r), id) && Advanced(s, Turn(s, id, Works, r), id, r)
  {
    AdvanceAlone(s, id, r);
    if Rank(s.agents[id].pc) <= 5 {
      AdvanceEarly(s, id, r);
    } else {
      AdvanceLate(s, id, r);
    }
  }

  lemma {:induction false} Travel(s: State, events: seq<Event>, id: nat, r: Rules) returns (next: seq<Event>)
    requires OnTrack(Run(s, events, r), id, r)
    ensures ReadyToPush(Run(s, next, r), id) && SameElsewhere(Run(s, events, r), Run(s, next, r), id)
    decreases 9 - Rank(Run(s, events, r).agents[id].pc)
  {
    var e := Act(id, Works);
    RunSnoc(s, events, e, r);
    Advance(Run(s, events, r), id, r);
    next := events + [e];
    if !ReadyToPush(Run(s, next, r), id) {
      next := Travel(s, next, id, r);
    }
  }

  lemma PushLands(s: State, id: nat, r: Rules)
    requires ReadyToPush(s, id) && Find(s.remote, s.agents[id].tag).None?
    ensures Labels(Turn(s, id, Works, r).remote) == Labels(s.remote) + [s.agents[id].tag]
    ensures SameElsewhere(s, Turn(s, id, Works, r).(remote := s.remote), id)
  {
  }

  const TWO_CHECKOUTS := State(1, [], map[0 := Clone(1, false, [], None), 1 := Clone(2, false, [], None)], map[], [], 0)

  lemma OlderWaits(older: string, r: Rules) returns (events: seq<Event>)
    requires r.isTag(older) && r.inOrder(older, []) && r.manifestMatches(older, 1) && r.subjectMatches(older, 1)
    ensures var t := Run(TWO_CHECKOUTS, events, r);
            && ReadyToPush(t, 0) && t.agents.Keys == {0} && t.agents[0].tag == older && t.agents[0].clone == 0
            && t.remote == [] && 1 in t.clones && t.clones[1] == Clone(2, false, [], None)
  {
    var s := TWO_CHECKOUTS;
    events := AndThen(s, [], Launch(0, older, 0), r);
    NothingListed(r, older);
    assert OnTrack(Run(s, events, r), 0, r);
    events := Travel(s, events, 0, r);
  }

  /** The newer one is merged and launched meanwhile, and goes all the way to its push. */
  lemma NewerIsReadyToo(older: string, newer: string, r: Rules) returns (events: seq<Event>)
    requires r.isTag(older) && r.inOrder(older, []) && r.manifestMatches(older, 1) && r.subjectMatches(older, 1)
    requires r.isTag(newer) && r.inOrder(newer, []) && r.manifestMatches(newer, 2) && r.subjectMatches(newer, 2)
    ensures var t := Run(TWO_CHECKOUTS, events, r);
            && ReadyToPush(t, 0) && t.agents[0].tag == older && t.agents[0].clone == 0
            && ReadyToPush(t, 1) && t.agents[1].tag == newer && t.agents[1].clone == 1 && t.remote == []
  {
    var s := TWO_CHECKOUTS;
    events := OlderWaits(older, r);
    events := AndThen(s, events, Merge(2), r);
    events := AndThen(s, events, Launch(1, newer, 1), r);
    NothingListed(r, newer);
    assert OnTrack(Run(s, events, r), 1, r);
    hide Step, Turn;
    events := Travel(s, events, 1, r);
  }

  /**
   Two releases, each passing its gate before the other pushes: the older is pushed last, below a
   tag that is already there.
   */
  lemma DividedGateLetsTagsFall(older: string, newer: string, r: Rules) returns (events: seq<Event>)
    requires older != newer && r.isTag(older) && r.isTag(newer)
    requires r.inOrder(older, []) && r.inOrder(newer, [])
    requires r.manifestMatches(older, 1) && r.subjectMatches(older, 1)
    requires r.manifestMatches(newer, 2) && r.subjectMatches(newer, 2)
    ensures Labels(Run(TWO_CHECKOUTS, events, r).remote) == [newer, older]
  {
    hide Step, Turn, Run;
    var s := TWO_CHECKOUTS;
    var es := NewerIsReadyToo(older, newer, r);
    ActIsTurn(Run(s, es, r), Act(1, Works), r);
    PushLands(Run(s, es, r), 1, r);
    es := AndThen(s, es, Act(1, Works), r);
    NotThere(Run(s, es, r).remote, newer, older);
    ActIsTurn(Run(s, es, r), Act(0, Works), r);
    PushLands(Run(s, es, r), 0, r);
    events := AndThen(s, es, Act(0, Works), r);
  }

  lemma NotThere(refs: seq<Ref>, newer: string, older: string)
    requires Labels(refs) == [newer] && older != newer
    ensures Find(refs, older).None?
  {
    assert refs[0].name == Labels(refs)[0];
  }

  lemma NothingListed(r: Rules, tag: string)
    requires r.inOrder(tag, [])
    ensures r.inOrder(tag, [] + [])
  {
    var none: seq<string> := [];
    assert none + none == none;
  }

  lemma AndThen(s: State, events: seq<Event>, e: Event, r: Rules) returns (next: seq<Event>)
    ensures next == events + [e] && Run(s, next, r) == Step(Run(s, events, r), e, r)
  {
    next := events + [e];
    RunSnoc(s, events, e, r);
  }
}
