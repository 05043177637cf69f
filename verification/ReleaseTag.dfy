/**
 Phase B of a release: cutting the tag on the merged commit. Each `git` command is one step, and
 between any two of them other people may merge, check out, edit, fetch or push.
 */
module ReleaseTag {
  import opened Commands
  import opened Options

  /** The judgements the phase makes; a commit is known by its number and never changes. */
  datatype Rules = Rules(
    isTag: string -> bool,
    manifestMatches: (string, nat) -> bool,
    subjectMatches: (string, nat) -> bool,
    inOrder: (string, seq<string>) -> bool
  )

  // ----- the world -----

  /** An annotated tag is an object of its own, so two tags of one name on one commit still differ. */
  datatype Ref = Ref(name: string, object: nat, commit: nat)

  datatype Clone = Clone(head: nat, dirty: bool, tags: seq<Ref>, fetchHead: Option<nat>)

  datatype Pc =
    | FetchBase | ReadMerged | ReadHead | ReadManifest | ReadSubject | ReadStatus
    | ReadLocalTags | ReadRemoteTags | MakeTag | PushTag | Exited(code: nat)

  datatype Agent = Agent(tag: string, clone: nat, pc: Pc, merged: nat, head: nat, seen: seq<string>)

  /** A tag created by this program. */
  datatype Made = Made(agent: nat, tag: string, commit: nat)

  /** `remote` lists the tags on the remote in the order they arrived there; `objects` numbers tag objects. */
  datatype State = State(
    base: nat, remote: seq<Ref>, clones: map<nat, Clone>, agents: map<nat, Agent>, made: seq<Made>, objects: nat)

  datatype Event =
    | Launch(agent: nat, tag: string, clone: nat)
    | Act(agent: nat, outcome: Outcome)
    | Merge(commit: nat)
    | Checkout(clone: nat, commit: nat)
    | Edit(clone: nat, dirty: bool)
    | Refetch(clone: nat, commit: nat)
    | TagLocally(clone: nat, name: string, commit: nat)
    | DropLocally(clone: nat, name: string)
    | FetchTag(clone: nat, name: string)
    | PushByHand(clone: nat, name: string)

  function Labels(refs: seq<Ref>): (names: seq<string>)
    ensures |names| == |refs| && forall i :: 0 <= i < |refs| ==> names[i] == refs[i].name
  {
    seq(|refs|, i requires 0 <= i < |refs| => refs[i].name)
  }

  function Find(refs: seq<Ref>, name: string): (found: Option<Ref>)
    ensures found.Some? ==> found.value in refs && found.value.name == name
    ensures found.None? ==> forall ref :: ref in refs ==> ref.name != name
  {
    if refs == [] then None else if refs[0].name == name then Some(refs[0]) else Find(refs[1..], name)
  }

  function Drop(refs: seq<Ref>, name: string): seq<Ref> {
    if refs == [] then [] else (if refs[0].name == name then [] else [refs[0]]) + Drop(refs[1..], name)
  }

  lemma {:induction false} FindInMore(refs: seq<Ref>, ref: Ref, name: string)
    ensures Find(refs + [ref], name) ==
            if Find(refs, name).Some? then Find(refs, name) else if ref.name == name then Some(ref) else None
  {
    if refs == [] {
      assert refs + [ref] == [ref];
    } else {
      assert (refs + [ref])[1..] == refs[1..] + [ref];
      FindInMore(refs[1..], ref, name);
    }
  }

  lemma {:induction false} FindInFewer(refs: seq<Ref>, other: string, name: string)
    ensures Find(Drop(refs, other), name) == if name == other then None else Find(refs, name)
  {
    if refs != [] {
      var rest := Drop(refs[1..], other);
      FindInFewer(refs[1..], other, name);
      assert ([refs[0]] + rest)[1..] == rest;
      assert [] + rest == rest;
    }
  }

  /** `git tag`: refused when the name is taken. */
  function Tagged(s: State, c: nat, name: string, commit: nat): State
    requires c in s.clones
  {
    var clone := s.clones[c];
    if Find(clone.tags, name).Some? then s
    else
      WithClone(s, c, clone.(tags := clone.tags + [Ref(name, s.objects, commit)])).(objects := s.objects + 1)
  }

  /** `git push` of one tag: refused when the remote has another object of that name. */
  function Pushed(s: State, c: nat, name: string): State
    requires c in s.clones
  {
    var mine := Find(s.clones[c].tags, name);
    if mine.None? || Find(s.remote, name).Some? then s else s.(remote := s.remote + [mine.value])
  }

  /** Whether such a push has nothing against it. */
  predicate Pushes(s: State, c: nat, name: string)
    requires c in s.clones
  {
    var mine := Find(s.clones[c].tags, name);
    mine.Some? && (Find(s.remote, name).None? || Find(s.remote, name) == mine)
  }

  /** Fetching a tag never replaces one of the same name. */
  function Fetched(s: State, c: nat, name: string): State
    requires c in s.clones
  {
    var clone, theirs := s.clones[c], Find(s.remote, name);
    if theirs.None? || Find(clone.tags, name).Some? then s
    else WithClone(s, c, clone.(tags := clone.tags + [theirs.value]))
  }

  function With(s: State, id: nat, a: Agent): State {
    s.(agents := s.agents[id := a])
  }

  function WithClone(s: State, c: nat, clone: Clone): State {
    s.(clones := s.clones[c := clone])
  }

  function Exit(s: State, id: nat, code: nat): State
    requires id in s.agents
  {
    With(s, id, s.agents[id].(pc := Exited(code)))
  }

  function Goto(s: State, id: nat, pc: Pc): State
    requires id in s.agents
  {
    With(s, id, s.agents[id].(pc := pc))
  }

  function Turn(s: State, id: nat, o: Outcome, r: Rules): State
    requires id in s.agents && s.agents[id].clone in s.clones
  {
    var a := s.agents[id];
    var clone := s.clones[a.clone];
    match a.pc
    case FetchBase =>
      var t := if o.Fails? then s else WithClone(s, a.clone, clone.(fetchHead := Some(s.base)));
      if o.Works? then Goto(t, id, ReadMerged) else Exit(t, id, 2)
    case ReadMerged =>
      if o.Works? && clone.fetchHead.Some?
      then With(s, id, a.(pc := ReadHead, merged := clone.fetchHead.value))
      else Exit(s, id, 2)
    case ReadHead =>
      if o.Works? then With(s, id, a.(pc := ReadManifest, head := clone.head)) else Exit(s, id, 2)
    case ReadManifest =>
      if !o.Works? then Exit(s, id, 2)
      else if r.manifestMatches(a.tag, a.merged) then Goto(s, id, ReadSubject) else Exit(s, id, 1)
    case ReadSubject =>
      if !o.Works? then Exit(s, id, 2)
      else if !r.subjectMatches(a.tag, a.merged) then Exit(s, id, 1)
      else if a.head != a.merged then Exit(s, id, 1)
      else Goto(s, id, ReadStatus)
    case ReadStatus =>
      if !o.Works? then Exit(s, id, 2)
      else if clone.dirty then Exit(s, id, 1) else Goto(s, id, ReadLocalTags)
    case ReadLocalTags =>
      if o.Works? then With(s, id, a.(pc := ReadRemoteTags, seen := Labels(clone.tags))) else Exit(s, id, 2)
    case ReadRemoteTags =>
      if !o.Works? then Exit(s, id, 2)
      else if r.inOrder(a.tag, a.seen + Labels(s.remote)) then Goto(s, id, MakeTag) else Exit(s, id, 1)
    case MakeTag =>
      if o.Fails? || Find(clone.tags, a.tag).Some? then Exit(s, id, 2)
      else
        var t := Tagged(s, a.clone, a.tag, a.merged).(made := s.made + [Made(id, a.tag, a.merged)]);
        if o.Works? then Goto(t, id, PushTag) else Exit(t, id, 2)
    case PushTag =>
      if o.Fails? then Exit(s, id, 2)
      else Exit(Pushed(s, a.clone, a.tag), id, if o.Works? && Pushes(s, a.clone, a.tag) then 0 else 2)
    case Exited(_) => s
  }

  function Step(s: State, e: Event, r: Rules): State {
    match e
    case Launch(id, tag, c) =>
      if id in s.agents || c !in s.clones then s
      else With(s, id, Agent(tag, c, if r.isTag(tag) then FetchBase else Exited(1), 0, 0, []))
    case Act(id, o) => if id in s.agents && s.agents[id].clone in s.clones then Turn(s, id, o, r) else s
    case Merge(commit) => s.(base := commit)
    case Checkout(c, commit) => if c in s.clones then WithClone(s, c, s.clones[c].(head := commit)) else s
    case Edit(c, dirty) => if c in s.clones then WithClone(s, c, s.clones[c].(dirty := dirty)) else s
    case Refetch(c, commit) => if c in s.clones then WithClone(s, c, s.clones[c].(fetchHead := Some(commit))) else s
    case TagLocally(c, name, commit) => if c in s.clones then Tagged(s, c, name, commit) else s
    case DropLocally(c, name) =>
      if c in s.clones then WithClone(s, c, s.clones[c].(tags := Drop(s.clones[c].tags, name))) else s
    case FetchTag(c, name) => if c in s.clones then Fetched(s, c, name) else s
    case PushByHand(c, name) => if c in s.clones then Pushed(s, c, name) else s
  }

  /** Events are folded from the left, so a run's past is the run of a prefix. */
  function Run(s: State, events: seq<Event>, r: Rules): State {
    if events == [] then s else Step(Run(s, events[..|events| - 1], r), events[|events| - 1], r)
  }

  predicate Fresh(s: State) {
    s.agents == map[] && s.made == []
  }

  // ----- what every tag names -----

  predicate Past(pc: Pc, mark: Pc) {
    Rank(pc) > Rank(mark)
  }

  /** How far a run that has not exited has got. */
  function Rank(pc: Pc): nat {
    match pc
    case FetchBase => 1
    case ReadMerged => 2
    case ReadHead => 3
    case ReadManifest => 4
    case ReadSubject => 5
    case ReadStatus => 6
    case ReadLocalTags => 7
    case ReadRemoteTags => 8
    case MakeTag => 9
    case PushTag => 10
    case Exited(_) => 0
  }

  predicate Names(tag: string, commit: nat, r: Rules) {
    r.isTag(tag) && r.manifestMatches(tag, commit) && r.subjectMatches(tag, commit)
  }

  predicate Checked(a: Agent, r: Rules) {
    && (Rank(a.pc) > 0 ==> r.isTag(a.tag))
    && (Past(a.pc, ReadManifest) ==> r.manifestMatches(a.tag, a.merged))
    && (Past(a.pc, ReadSubject) ==> r.subjectMatches(a.tag, a.merged) && a.head == a.merged)
  }

  ghost predicate AllChecked(s: State, r: Rules) {
    && (forall id :: id in s.agents ==> Checked(s.agents[id], r))
    && (forall i :: 0 <= i < |s.made| ==> Names(s.made[i].tag, s.made[i].commit, r))
  }

  /** A turn is one agent's. */
  ghost predicate OnlyItsTurn(s: State, id: nat, t: State)
    requires id in s.agents
  {
    && t.agents.Keys == s.agents.Keys
    && (forall k :: k in s.agents && k != id ==> t.agents[k] == s.agents[k])
    && t.agents[id].tag == s.agents[id].tag && t.agents[id].clone == s.agents[id].clone
  }

  /** Neither the HEADs nor the state of the trees are touched. */
  ghost predicate SameTrees(s: State, t: State) {
    && t.clones.Keys == s.clones.Keys
    && (forall c :: c in s.clones ==> t.clones[c].head == s.clones[c].head && t.clones[c].dirty == s.clones[c].dirty)
  }

  /** One more tag, of a name that was not there. */
  predicate Gains(before: seq<Ref>, after: seq<Ref>, name: string) {
    && |after| == |before| + 1 && before == after[..|before|]
    && after[|before|].name == name && Find(before, name).None?
  }

  /** The only ways a turn touches the tags: creating its own, and pushing it. */
  predicate WritesTags(s: State, id: nat, t: State)
    requires id in s.agents
  {
    var a := s.agents[id];
    && (t.made == s.made || (a.pc == MakeTag && t.made == s.made + [Made(id, a.tag, a.merged)]))
    && (t.remote == s.remote || (a.pc == PushTag && Gains(s.remote, t.remote, a.tag)))
  }

  lemma EarlyTurnIsItsOwn(s: State, id: nat, o: Outcome, r: Rules)
    requires id in s.agents && s.agents[id].clone in s.clones && 1 <= Rank(s.agents[id].pc) <= 5
    ensures OnlyItsTurn(s, id, Turn(s, id, o, r))
  {
  }

  lemma LateTurnIsItsOwn(s: State, id: nat, o: Outcome, r: Rules)
    requires id in s.agents && s.agents[id].clone in s.clones && !(1 <= Rank(s.agents[id].pc) <= 5)
    requires s.agents[id].pc != MakeTag && s.agents[id].pc != PushTag
    ensures OnlyItsTurn(s, id, Turn(s, id, o, r))
  {
  }

  lemma LastTurnIsItsOwn(s: State, id: nat, o: Outcome, r: Rules)
    requires id in s.agents && s.agents[id].clone in s.clones
    requires s.agents[id].pc == MakeTag || s.agents[id].pc == PushTag
    ensures OnlyItsTurn(s, id, Turn(s, id, o, r))
  {
  }

  lemma TurnIsItsOwn(s: State, id: nat, o: Outcome, r: Rules)
    requires id in s.agents && s.agents[id].clone in s.clones
    ensures OnlyItsTurn(s, id, Turn(s, id, o, r))
  {
    if 1 <= Rank(s.agents[id].pc) <= 5 {
      EarlyTurnIsItsOwn(s, id, o, r);
    } else if s.agents[id].pc == MakeTag || s.agents[id].pc == PushTag {
      LastTurnIsItsOwn(s, id, o, r);
    } else {
      LateTurnIsItsOwn(s, id, o, r);
    }
  }

  lemma TurnLeavesTrees(s: State, id: nat, o: Outcome, r: Rules)
    requires id in s.agents && s.agents[id].clone in s.clones
    ensures SameTrees(s, Turn(s, id, o, r))
  {
  }

  lemma TurnWritesTags(s: State, id: nat, o: Outcome, r: Rules)
    requires id in s.agents && s.agents[id].clone in s.clones
    ensures WritesTags(s, id, Turn(s, id, o, r))
  {
  }

  lemma TurnChecks(s: State, id: nat, o: Outcome, r: Rules)
    requires id in s.agents && s.agents[id].clone in s.clones && Checked(s.agents[id], r)
    ensures Checked(Turn(s, id, o, r).agents[id], r)
    ensures s.agents[id].pc == MakeTag ==> Names(s.agents[id].tag, s.agents[id].merged, r)
  {
  }

  lemma StepChecks(s: State, e: Event, r: Rules)
    requires AllChecked(s, r)
    ensures AllChecked(Step(s, e, r), r)
  {
    if e.Act? && e.agent in s.agents && s.agents[e.agent].clone in s.clones {
      TurnIsItsOwn(s, e.agent, e.outcome, r);
      TurnWritesTags(s, e.agent, e.outcome, r);
      TurnChecks(s, e.agent, e.outcome, r);
    }
  }

  /** Every tag ever created names a commit that passed both checks. */
  lemma {:induction false} EveryTagIsChecked(s: State, events: seq<Event>, r: Rules)
    requires Fresh(s)
    ensures AllChecked(Run(s, events, r), r)
  {
    if events != [] {
      EveryTagIsChecked(s, events[..|events| - 1], r);
      StepChecks(Run(s, events[..|events| - 1], r), events[|events| - 1], r);
    }
  }

  // ----- where the releaser stood -----

  /** Event `i` is the turn in which this agent read HEAD, and it read this commit. */
  ghost predicate HeadWas(s: State, events: seq<Event>, r: Rules, id: nat, commit: nat, i: nat) {
    && i < |events| && events[i] == Act(id, Works)
    && var t := Run(s, events[..i], r);
       id in t.agents && t.agents[id].pc == ReadHead && HeadIs(t, t.agents[id].clone, commit)
  }

  /** Event `j` is the turn in which this agent read the status, and the tree was clean. */
  ghost predicate CleanWas(s: State, events: seq<Event>, r: Rules, id: nat, j: nat) {
    && j < |events| && events[j] == Act(id, Works)
    && var t := Run(s, events[..j], r);
       id in t.agents && t.agents[id].pc == ReadStatus && IsClean(t, t.agents[id].clone)
  }

  predicate HeadIs(s: State, c: nat, commit: nat) {
    c in s.clones && s.clones[c].head == commit
  }

  predicate IsClean(s: State, c: nat) {
    c in s.clones && !s.clones[c].dirty
  }

  ghost predicate StoodAt(s: State, events: seq<Event>, r: Rules, id: nat, commit: nat) {
    exists i: nat :: HeadWas(s, events, r, id, commit, i)
  }

  /** HEAD was the commit, and then the tree was clean. */
  ghost predicate StoodCleanAt(s: State, events: seq<Event>, r: Rules, id: nat, commit: nat) {
    exists i: nat, j: nat :: i < j && HeadWas(s, events, r, id, commit, i) && CleanWas(s, events, r, id, j)
  }

  lemma PastStays(s: State, events: seq<Event>, e: Event, r: Rules, id: nat, commit: nat)
    ensures StoodAt(s, events, r, id, commit) ==> StoodAt(s, events + [e], r, id, commit)
    ensures StoodCleanAt(s, events, r, id, commit) ==> StoodCleanAt(s, events + [e], r, id, commit)
  {
    var all := events + [e];
    if i: nat :| HeadWas(s, events, r, id, commit, i) {
      assert all[..i] == events[..i];
      assert HeadWas(s, all, r, id, commit, i);
    }
    if i: nat, j: nat :| i < j && HeadWas(s, events, r, id, commit, i) && CleanWas(s, events, r, id, j) {
      assert all[..i] == events[..i] && all[..j] == events[..j];
      assert HeadWas(s, all, r, id, commit, i) && CleanWas(s, all, r, id, j);
    }
  }

  /** What an agent's progress says about its own past. */
  ghost predicate Grounded(s: State, events: seq<Event>, r: Rules, id: nat, a: Agent) {
    && (Past(a.pc, ReadHead) ==> StoodAt(s, events, r, id, a.head))
    && (Past(a.pc, ReadSubject) ==> a.head == a.merged)
    && (Past(a.pc, ReadStatus) ==> StoodCleanAt(s, events, r, id, a.merged))
  }

  ghost predicate MadeGrounded(s: State, events: seq<Event>, r: Rules, m: Made) {
    m.agent in Run(s, events, r).agents && StoodCleanAt(s, events, r, m.agent, m.commit)
  }

  ghost predicate AllGrounded(s: State, events: seq<Event>, r: Rules) {
    var t := Run(s, events, r);
    && (forall id :: id in t.agents ==> Grounded(s, events, r, id, t.agents[id]))
    && (forall i :: 0 <= i < |t.made| ==> MadeGrounded(s, events, r, t.made[i]))
  }

  lemma NowReadsHead(s: State, events: seq<Event>, r: Rules, id: nat)
    requires var t := Run(s, events, r); id in t.agents && t.agents[id].clone in t.clones && t.agents[id].pc == ReadHead
    ensures var t := Run(s, events, r); StoodAt(s, events + [Act(id, Works)], r, id, t.clones[t.agents[id].clone].head)
  {
    var all, t := events + [Act(id, Works)], Run(s, events, r);
    assert all[..|events|] == events;
    assert HeadWas(s, all, r, id, t.clones[t.agents[id].clone].head, |events|);
  }

  lemma NowReadsClean(s: State, events: seq<Event>, r: Rules, id: nat, commit: nat)
    requires var t := Run(s, events, r);
             id in t.agents && t.agents[id].pc == ReadStatus && IsClean(t, t.agents[id].clone)
    requires StoodAt(s, events, r, id, commit)
    ensures StoodCleanAt(s, events + [Act(id, Works)], r, id, commit)
  {
    var all := events + [Act(id, Works)];
    var i: nat :| HeadWas(s, events, r, id, commit, i);
    assert all[..i] == events[..i] && all[..|events|] == events;
    assert HeadWas(s, all, r, id, commit, i) && CleanWas(s, all, r, id, |events|);
  }

  /** How a turn gets past the three readings. */
  lemma TurnReads(s: State, id: nat, o: Outcome, r: Rules)
    requires id in s.agents && s.agents[id].clone in s.clones
    ensures var a, b := s.agents[id], Turn(s, id, o, r).agents[id];
            && (Past(b.pc, ReadHead) ==>
                  || (Past(a.pc, ReadHead) && b.head == a.head)
                  || (a.pc == ReadHead && o.Works? && HeadIs(s, a.clone, b.head)))
            && (Past(b.pc, ReadSubject) ==>
                  (Past(a.pc, ReadSubject) && b.head == a.head && b.merged == a.merged) || b.head == b.merged)
            && (Past(b.pc, ReadStatus) ==>
                  && b.merged == a.merged
                  && (Past(a.pc, ReadStatus) || (a.pc == ReadStatus && o.Works? && IsClean(s, a.clone))))
  {
  }

  lemma TurnGrounds(s: State, events: seq<Event>, r: Rules, id: nat, o: Outcome)
    requires var t := Run(s, events, r);
             id in t.agents && t.agents[id].clone in t.clones && Grounded(s, events, r, id, t.agents[id])
    ensures Grounded(s, events + [Act(id, o)], r, id, Turn(Run(s, events, r), id, o, r).agents[id])
  {
    var t := Run(s, events, r);
    var a := t.agents[id];
    GroundedStays(s, events, Act(id, o), r, id, a);
    if a.pc == ReadHead && o.Works? {
      NowReadsHead(s, events, r, id);
    } else if a.pc == ReadStatus && o.Works? && IsClean(t, a.clone) {
      NowReadsClean(s, events, r, id, a.merged);
    }
    ReadsGround(s, events + [Act(id, o)], r, id, o, t);
  }

  lemma ReadsGround(s: State, all: seq<Event>, r: Rules, id: nat, o: Outcome, t: State)
    requires id in t.agents && t.agents[id].clone in t.clones && Grounded(s, all, r, id, t.agents[id])
    requires var a := t.agents[id];
             && (a.pc == ReadHead && o.Works? ==> StoodAt(s, all, r, id, t.clones[a.clone].head))
             && (a.pc == ReadStatus && o.Works? && IsClean(t, a.clone) ==> StoodCleanAt(s, all, r, id, a.merged))
    ensures Grounded(s, all, r, id, Turn(t, id, o, r).agents[id])
  {
    TurnReads(t, id, o, r);
  }

  lemma GroundedStays(s: State, events: seq<Event>, e: Event, r: Rules, id: nat, a: Agent)
    requires Grounded(s, events, r, id, a)
    ensures Grounded(s, events + [e], r, id, a)
  {
    PastStays(s, events, e, r, id, a.head);
    PastStays(s, events, e, r, id, a.merged);
  }

  lemma RunSnoc(s: State, events: seq<Event>, e: Event, r: Rules)
    ensures Run(s, events + [e], r) == Step(Run(s, events, r), e, r)
  {
    assert (events + [e])[..|events|] == events;
  }

  /** An agent record after one more event: as it was, or what its turn made of it, or new. */
  lemma AgentAfter(t: State, e: Event, r: Rules, id: nat)
    requires id in Step(t, e, r).agents
    ensures var u := Step(t, e, r);
            || (id in t.agents && u.agents[id] == t.agents[id])
            || (e.Act? && e.agent == id && id in t.agents && t.agents[id].clone in t.clones
                && u == Turn(t, id, e.outcome, r))
            || (id !in t.agents && Rank(u.agents[id].pc) <= 1)
  {
    if e.Act? && e.agent in t.agents && t.agents[e.agent].clone in t.clones {
      TurnIsItsOwn(t, e.agent, e.outcome, r);
    }
  }

  lemma ActIsTurn(t: State, e: Event, r: Rules)
    requires CanAct(t, e)
    ensures Step(t, e, r) == Turn(t, e.agent, e.outcome, r)
  {
  }

  /** A new agent has just been launched. */
  lemma NewAgent(t: State, e: Event, r: Rules, id: nat)
    requires id in Step(t, e, r).agents && id !in t.agents
    ensures Step(t, e, r).made == t.made
    ensures Step(t, e, r).agents[id].pc == FetchBase || Step(t, e, r).agents[id].pc == Exited(1)
  {
    if CanAct(t, e) {
      TurnIsItsOwn(t, e.agent, e.outcome, r);
    }
  }

  predicate CanAct(t: State, e: Event) {
    e.Act? && e.agent in t.agents && t.agents[e.agent].clone in t.clones
  }

  lemma AgentsStay(t: State, e: Event, r: Rules)
    ensures forall id :: id in t.agents ==>
              && id in Step(t, e, r).agents && Step(t, e, r).agents[id].clone == t.agents[id].clone
              && Step(t, e, r).agents[id].tag == t.agents[id].tag
  {
    if CanAct(t, e) {
      TurnIsItsOwn(t, e.agent, e.outcome, r);
    }
  }

  lemma TagsAfter(t: State, e: Event, r: Rules)
    ensures Step(t, e, r).made == t.made || (CanAct(t, e) && t.agents[e.agent].pc == MakeTag
              && Step(t, e, r).made == t.made + [Made(e.agent, t.agents[e.agent].tag, t.agents[e.agent].merged)])
    ensures Step(t, e, r).remote == t.remote
            || (CanAct(t, e) && t.agents[e.agent].pc == PushTag
                && Gains(t.remote, Step(t, e, r).remote, t.agents[e.agent].tag))
            || (e.PushByHand? && Gains(t.remote, Step(t, e, r).remote, e.name))
  {
    if CanAct(t, e) {
      TurnWritesTags(t, e.agent, e.outcome, r);
    }
  }

  lemma AgentGrounds(s: State, events: seq<Event>, e: Event, r: Rules, id: nat)
    requires AllGrounded(s, events, r) && id in Step(Run(s, events, r), e, r).agents
    ensures Grounded(s, events + [e], r, id, Step(Run(s, events, r), e, r).agents[id])
  {
    hide Step, Run, StoodAt, StoodCleanAt;
    var t := Run(s, events, r);
    var a := Step(t, e, r).agents[id];
    if id !in t.agents {
      NewAgent(t, e, r, id);
    } else {
      AgentAfter(t, e, r, id);
      if a == t.agents[id] {
        GroundedStays(s, events, e, r, id, a);
      } else {
        TurnGrounds(s, events, r, id, e.outcome);
      }
    }
  }

  /** A tag in the record stays grounded. */
  lemma MadeStays(s: State, events: seq<Event>, e: Event, r: Rules, m: Made)
    requires MadeGrounded(s, events, r, m)
    ensures MadeGrounded(s, events + [e], r, m)
  {
    RunSnoc(s, events, e, r);
    AgentsStay(Run(s, events, r), e, r);
    PastStays(s, events, e, r, m.agent, m.commit);
  }

  lemma MadeGrounds(s: State, events: seq<Event>, e: Event, r: Rules, i: nat)
    requires AllGrounded(s, events, r) && i < |Step(Run(s, events, r), e, r).made|
    ensures MadeGrounded(s, events + [e], r, Step(Run(s, events, r), e, r).made[i])
  {
    var t := Run(s, events, r);
    TagsAfter(t, e, r);
    if i >= |t.made| {
      NewTagIsGrounded(s, events, r, e.agent);
    }
    MadeStays(s, events, e, r, Step(t, e, r).made[i]);
  }

  lemma NewTagIsGrounded(s: State, events: seq<Event>, r: Rules, id: nat)
    requires AllGrounded(s, events, r)
    requires var t := Run(s, events, r); id in t.agents && t.agents[id].pc == MakeTag
    ensures var a := Run(s, events, r).agents[id]; MadeGrounded(s, events, r, Made(id, a.tag, a.merged))
  {
    hide Run, StoodAt, StoodCleanAt;
    assert Grounded(s, events, r, id, Run(s, events, r).agents[id]);
  }

  lemma {:induction false} EveryTagIsGrounded(s: State, events: seq<Event>, r: Rules)
    requires Fresh(s)
    ensures AllGrounded(s, events, r)
  {
    if events != [] {
      var before, e := events[..|events| - 1], events[|events| - 1];
      assert events == before + [e];
      EveryTagIsGrounded(s, before, r);
      RunSnoc(s, before, e, r);
      var u := Run(s, events, r);
      forall id | id in u.agents ensures Grounded(s, events, r, id, u.agents[id]) {
        AgentGrounds(s, before, e, r, id);
      }
      forall i | 0 <= i < |u.made| ensures MadeGrounded(s, events, r, u.made[i]) {
        MadeGrounds(s, before, e, r, i);
      }
    }
  }

  /** An agent keeps its checkout and its tag for good. */
  lemma {:induction false} AgentIsTheSame(s: State, events: seq<Event>, r: Rules, id: nat, i: nat)
    requires i <= |events| && id in Run(s, events[..i], r).agents
    ensures id in Run(s, events, r).agents
    ensures Run(s, events, r).agents[id].clone == Run(s, events[..i], r).agents[id].clone
    ensures Run(s, events, r).agents[id].tag == Run(s, events[..i], r).agents[id].tag
  {
    if i == |events| {
      assert events[..i] == events;
    } else {
      var before := events[..|events| - 1];
      assert before[..i] == events[..i];
      AgentIsTheSame(s, before, r, id, i);
      AgentsStay(Run(s, before, r), events[|events| - 1], r);
    }
  }

  predicate NoCheckout(events: seq<Event>, c: nat) {
    forall k :: 0 <= k < |events| && events[k].Checkout? ==> events[k].clone != c
  }

  lemma HeadAfter(t: State, e: Event, r: Rules, c: nat)
    requires c in t.clones && (e.Checkout? ==> e.clone != c)
    ensures c in Step(t, e, r).clones && Step(t, e, r).clones[c].head == t.clones[c].head
  {
    if CanAct(t, e) {
      TurnLeavesTrees(t, e.agent, e.outcome, r);
    }
  }

  lemma {:induction false} HeadStays(s: State, events: seq<Event>, r: Rules, c: nat, i: nat, j: nat)
    requires i <= j <= |events| && c in Run(s, events[..i], r).clones && NoCheckout(events[i..j], c)
    ensures c in Run(s, events[..j], r).clones
    ensures Run(s, events[..j], r).clones[c].head == Run(s, events[..i], r).clones[c].head
    decreases j
  {
    if i < j {
      var longer, shorter := events[i..j], events[i..j - 1];
      forall k | 0 <= k < |shorter| && shorter[k].Checkout? ensures shorter[k].clone != c {
        assert shorter[k] == longer[k];
      }
      HeadStays(s, events, r, c, i, j - 1);
      assert events[..j] == events[..j - 1] + [events[j - 1]];
      RunSnoc(s, events[..j - 1], events[j - 1], r);
      assert events[i..j][j - 1 - i] == events[j - 1];
      HeadAfter(Run(s, events[..j - 1], r), events[j - 1], r, c);
    }
  }

  /**
   The run that made a tag read the tag's commit as HEAD of its own checkout, and in a later turn
   read that tree as clean. At the later turn HEAD was still that commit, provided nobody checked
   anything out there in between.
   */
  lemma EveryTagWasHeadOnACleanTree(s: State, events: seq<Event>, r: Rules, k: nat)
    requires Fresh(s) && k < |Run(s, events, r).made|
    ensures var t := Run(s, events, r);
            var m := t.made[k];
            m.agent in t.agents &&
            var c := t.agents[m.agent].clone;
            exists i: nat, j: nat :: i < j && HeadWas(s, events, r, m.agent, m.commit, i)
                     && CleanWas(s, events, r, m.agent, j)
                     && (NoCheckout(events[i..j], c) ==> HeadIs(Run(s, events[..j], r), c, m.commit))
  {
    EveryTagIsGrounded(s, events, r);
    var t := Run(s, events, r);
    var m := t.made[k];
    assert MadeGrounded(s, events, r, m);
    var c := t.agents[m.agent].clone;
    var i: nat, j: nat :|
      i < j && HeadWas(s, events, r, m.agent, m.commit, i) && CleanWas(s, events, r, m.agent, j);
    AgentIsTheSame(s, events, r, m.agent, i);
    if NoCheckout(events[i..j], c) {
      HeadStays(s, events, r, c, i, j);
    }
  }

  // ----- what an exit code says -----

  predicate Wrote(s: State, id: nat) {
    exists i :: 0 <= i < |s.made| && s.made[i].agent == id
  }

  /** Exit 1 and anything before the tag: no tag of its own. Exit 0: its tag exists and is on the remote. */
  predicate HonestExit(s: State, id: nat, a: Agent) {
    && (a.pc == Exited(1) || 0 < Rank(a.pc) < 10 ==> !Wrote(s, id))
    && (a.pc == PushTag || a.pc == Exited(0) ==> Wrote(s, id))
    && (a.pc == Exited(0) ==> Find(s.remote, a.tag).Some?)
  }

  ghost predicate HonestExits(s: State) {
    && (forall id :: id in s.agents ==> HonestExit(s, id, s.agents[id]))
    && (forall i :: 0 <= i < |s.made| ==> s.made[i].agent in s.agents)
  }

  lemma WroteAfter(s: State, t: State, id: nat)
    requires s.made <= t.made
    ensures Wrote(s, id) ==> Wrote(t, id)
  {
    if i :| 0 <= i < |s.made| && s.made[i].agent == id {
      assert t.made[i] == s.made[i];
    }
  }

  lemma WroteByAnother(s: State, t: State, m: Made, id: nat)
    requires t.made == s.made + [m]
    ensures Wrote(t, id) <==> Wrote(s, id) || m.agent == id
  {
    assert t.made[|s.made|] == m;
    WroteAfter(s, t, id);
  }

  lemma TurnExitsHonestly(s: State, id: nat, o: Outcome, r: Rules)
    requires id in s.agents && s.agents[id].clone in s.clones && HonestExit(s, id, s.agents[id])
    ensures HonestExit(Turn(s, id, o, r), id, Turn(s, id, o, r).agents[id])
  {
    var t := Turn(s, id, o, r);
    if s.agents[id].pc == MakeTag && t.made != s.made {
      WroteByAnother(s, t, Made(id, s.agents[id].tag, s.agents[id].merged), id);
    }
  }

  lemma StepExitsOneHonestly(s: State, e: Event, r: Rules, id: nat)
    requires HonestExits(s) && id in Step(s, e, r).agents
    ensures HonestExit(Step(s, e, r), id, Step(s, e, r).agents[id])
  {
    hide Step, Turn;
    var t := Step(s, e, r);
    if id in s.agents {
      AgentAfter(s, e, r, id);
      assert HonestExit(s, id, s.agents[id]);
      if CanAct(s, e) && e.agent == id {
        ActIsTurn(s, e, r);
        TurnExitsHonestly(s, id, e.outcome, r);
        assert t == Turn(s, id, e.outcome, r);
      } else {
        OtherExitsHonestly(s, e, r, id);
      }
    } else {
      NewAgent(s, e, r, id);
    }
  }

  lemma OtherExitsHonestly(s: State, e: Event, r: Rules, id: nat)
    requires id in s.agents && !(CanAct(s, e) && e.agent == id) && HonestExit(s, id, s.agents[id])
    requires id in Step(s, e, r).agents && Step(s, e, r).agents[id] == s.agents[id]
    ensures HonestExit(Step(s, e, r), id, s.agents[id])
  {
    var t := Step(s, e, r);
    TagsAfter(s, e, r);
    if t.made != s.made {
      WroteByAnother(s, t, t.made[|s.made|], id);
    }
    if s.agents[id].pc == Exited(0) {
      RemoteTagStays(s, e, r, s.agents[id].tag);
    }
  }

  lemma StepExitsHonestly(s: State, e: Event, r: Rules)
    requires HonestExits(s)
    ensures HonestExits(Step(s, e, r))
  {
    var t := Step(s, e, r);
    forall id | id in t.agents ensures HonestExit(t, id, t.agents[id]) {
      StepExitsOneHonestly(s, e, r, id);
    }
    AgentsStay(s, e, r);
    TagsAfter(s, e, r);
  }

  /** Over any run: exit 1 means no tag was made, and exit 0 that one was made and pushed. */
  lemma {:induction false} ExitCodesAreHonest(s: State, events: seq<Event>, r: Rules)
    requires Fresh(s)
    ensures HonestExits(Run(s, events, r))
  {
    if events != [] {
      ExitCodesAreHonest(s, events[..|events| - 1], r);
      StepExitsHonestly(Run(s, events[..|events| - 1], r), events[|events| - 1], r);
    }
  }

  /** A tag on the remote stays as it is. */
  lemma RemoteTagStays(t: State, e: Event, r: Rules, name: string)
    requires Find(t.remote, name).Some?
    ensures Find(Step(t, e, r).remote, name) == Find(t.remote, name)
  {
    TagsAfter(t, e, r);
    var after := Step(t, e, r).remote;
    if after != t.remote {
      assert after == t.remote + [after[|t.remote|]];
      FindInMore(t.remote, after[|t.remote|], name);
    }
  }

  lemma OthersLeaveIt(t: State, e: Event, r: Rules, id: nat)
    requires id in t.agents && t.agents[id].clone in t.clones && !(e.Act? && e.agent == id)
    ensures id in Step(t, e, r).agents && Step(t, e, r).agents[id] == t.agents[id]
    ensures t.agents[id].clone in Step(t, e, r).clones
  {
    if CanAct(t, e) {
      TurnIsItsOwn(t, e.agent, e.outcome, r);
      TurnLeavesTrees(t, e.agent, e.outcome, r);
    }
  }
}
