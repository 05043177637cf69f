/**
 Both phases at once: any number of runs of `prepare` and of `tag`, and everybody else, in any
 order. A `prepare` under way writes its effects one by one, and others act in between.
 */
module ReleaseSystem {
  import opened Commands
  import opened Options
  import opened ReleaseCommit
  import opened PullRequests
  import opened ReleaseGates
  import P = ReleasePrepare
  import Protocol = ReleaseProtocol
  import T = ReleaseTag
  import opened Text
  import opened Versions

  /** What `prepare` is called with, and the command `bumpp` is to execute, which is quoted. */
  datatype Order = Order(tag: Option<string>, forwarded: seq<string>, execute: string, interactive: bool)

  /** A `prepare` under way: its clone, the commit `bumpp` makes there, and the effects still to come. */
  datatype Preparing = Preparing(clone: nat, tag: string, commit: nat, left: seq<P.Effect>)

  datatype State = State(world: T.State, preparing: map<nat, Preparing>)

  datatype Event =
    | Prepares(id: nat, clone: nat, order: Order, answers: P.Answers, commit: nat)
    | Proceeds(id: nat)
    | Happens(event: T.Event)

  predicate Quoted(o: Order) {
    o.execute != [] && o.execute[0] == '"'
  }

  function Begun(clone: nat, o: Order, a: P.Answers, commit: nat, bumpp: seq<string> -> bool): Preparing {
    Preparing(clone, if o.tag.Some? then o.tag.value else "", commit,
              P.Wrote(o.tag, o.forwarded, o.execute, o.interactive, a, bumpp))
  }

  /** What an effect of `prepare` is to the clone it runs in: a branch starts where HEAD is. */
  function Carried(p: Preparing, effect: P.Effect): seq<T.Event> {
    match effect
    case Committed => [T.Checkout(p.clone, p.commit), T.Edit(p.clone, false)]
    case TagMade => [T.TagLocally(p.clone, p.tag, p.commit)]
    case Branched => []
    case BranchPushed => []
    case PrOpened => []
  }

  function Means(s: State, e: Event): seq<T.Event> {
    match e
    case Prepares(_, _, _, _, _) => []
    case Proceeds(id) =>
      if id in s.preparing && s.preparing[id].left != []
      then Carried(s.preparing[id], s.preparing[id].left[0]) else []
    case Happens(event) => [event]
  }

  function Step(s: State, e: Event, r: T.Rules, bumpp: seq<string> -> bool): State {
    var t := s.(world := T.Run(s.world, Means(s, e), r));
    match e
    case Prepares(id, c, o, a, commit) =>
      if id in s.preparing || !Quoted(o) then t
      else t.(preparing := s.preparing[id := Begun(c, o, a, commit, bumpp)])
    case Proceeds(id) =>
      if id !in s.preparing || s.preparing[id].left == [] then t
      else
        var p := s.preparing[id];
        t.(preparing := s.preparing[id := p.(left := p.left[1..])])
    case Happens(_) => t
  }

  function Run(s: State, events: seq<Event>, r: T.Rules, bumpp: seq<string> -> bool): State {
    if events == [] then s
    else Step(Run(s, events[..|events| - 1], r, bumpp), events[|events| - 1], r, bumpp)
  }

  /** The same run as the clones and the remote see it. */
  function Seen(s: State, events: seq<Event>, r: T.Rules, bumpp: seq<string> -> bool): seq<T.Event> {
    if events == [] then []
    else
      var before := events[..|events| - 1];
      Seen(s, before, r, bumpp) + Means(Run(s, before, r, bumpp), events[|events| - 1])
  }

  lemma {:induction false} RunConcat(s: T.State, a: seq<T.Event>, b: seq<T.Event>, r: T.Rules)
    ensures T.Run(s, a + b, r) == T.Run(T.Run(s, a, r), b, r)
    decreases |b|
  {
    if b == [] {
      assert a + b == a;
    } else {
      var before := b[..|b| - 1];
      RunConcat(s, a, before, r);
      assert (a + b)[..|a + b| - 1] == a + before;
    }
  }

  /** Whatever holds of every run of the tag phase holds when releases are being prepared as well. */
  lemma {:induction false} JointRunIsATagRun(s: State, events: seq<Event>, r: T.Rules, bumpp: seq<string> -> bool)
    ensures Run(s, events, r, bumpp).world == T.Run(s.world, Seen(s, events, r, bumpp), r)
    decreases |events|
  {
    if events != [] {
      var before := events[..|events| - 1];
      JointRunIsATagRun(s, before, r, bumpp);
      RunConcat(s.world, Seen(s, before, r, bumpp), Means(Run(s, before, r, bumpp), events[|events| - 1]), r);
    }
  }

  // ----- where tags come from -----

  predicate Anywhere(s: T.State, ref: T.Ref) {
    ref in s.remote || exists c :: c in s.clones && ref in s.clones[c].tags
  }

  /** Made by the tag phase, under this name and on this commit. */
  predicate MadeHere(s: T.State, ref: T.Ref) {
    exists k :: 0 <= k < |s.made| && s.made[k].tag == ref.name && s.made[k].commit == ref.commit
  }

  ghost predicate Accounted(s: T.State, t: T.State) {
    forall ref :: Anywhere(t, ref) ==> Anywhere(s, ref) || MadeHere(t, ref)
  }

  lemma {:induction false} DropOnlyDrops(refs: seq<T.Ref>, name: string, ref: T.Ref)
    requires ref in T.Drop(refs, name)
    ensures ref in refs
  {
    if refs[0].name == name || ref != refs[0] {
      DropOnlyDrops(refs[1..], name, ref);
    }
  }

  lemma MadeHereStays(t: T.State, e: T.Event, r: T.Rules, ref: T.Ref)
    requires MadeHere(t, ref)
    ensures MadeHere(T.Step(t, e, r), ref)
  {
    T.TagsAfter(t, e, r);
    hide T.Step;
    var k :| 0 <= k < |t.made| && t.made[k].tag == ref.name && t.made[k].commit == ref.commit;
    assert T.Step(t, e, r).made[k] == t.made[k];
  }

  /** A turn of the phase brings into the world only the tag it makes. */
  lemma TurnBringsItsOwn(t: T.State, id: nat, o: Outcome, r: T.Rules, ref: T.Ref)
    requires id in t.agents && t.agents[id].clone in t.clones
    requires Anywhere(T.Turn(t, id, o, r), ref) && !Anywhere(t, ref)
    ensures MadeHere(T.Turn(t, id, o, r), ref)
  {
    var u, a := T.Turn(t, id, o, r), t.agents[id];
    if a.pc == T.MakeTag {
      assert u.remote == t.remote;
      assert u.made[|t.made|] == T.Made(id, a.tag, a.merged);
    } else {
      assert forall c :: c in u.clones ==> c in t.clones && u.clones[c].tags == t.clones[c].tags;
    }
  }

  lemma OtherBringsNothing(t: T.State, e: T.Event, r: T.Rules, ref: T.Ref)
    requires !e.Act? && !e.TagLocally? && Anywhere(T.Step(t, e, r), ref)
    ensures Anywhere(t, ref)
  {
    if e.DropLocally? && e.clone in t.clones {
      if ref in T.Drop(t.clones[e.clone].tags, e.name) {
        DropOnlyDrops(t.clones[e.clone].tags, e.name, ref);
      }
    }
  }

  lemma {:induction false} TagsAreAccountedFor(s: T.State, events: seq<T.Event>, r: T.Rules)
    requires forall e :: e in events ==> !e.TagLocally?
    ensures Accounted(s, T.Run(s, events, r))
    decreases |events|
  {
    if events != [] {
      var before, e := events[..|events| - 1], events[|events| - 1];
      TagsAreAccountedFor(s, before, r);
      var t := T.Run(s, before, r);
      forall ref | Anywhere(T.Step(t, e, r), ref) && !Anywhere(s, ref)
        ensures MadeHere(T.Step(t, e, r), ref)
      {
        if MadeHere(t, ref) {
          MadeHereStays(t, e, r, ref);
        } else if T.CanAct(t, e) {
          TurnBringsItsOwn(t, e.agent, e.outcome, r, ref);
        } else if !e.Act? {
          OtherBringsNothing(t, e, r, ref);
        }
      }
    }
  }

  // ----- both phases -----

  /** No argument that any `prepare` is given to forward asks for a tag. */
  predicate NobodyAsks(events: seq<Event>) {
    forall e :: e in events && e.Prepares? ==> !P.SomeAsks(e.order.forwarded)
  }

  predicate NobodyTagsByHand(events: seq<Event>) {
    forall e :: e in events && e.Happens? ==> !e.event.TagLocally?
  }

  predicate Tagless(s: State) {
    forall id :: id in s.preparing ==> P.TagMade !in s.preparing[id].left
  }

  lemma BegunTagless(c: nat, o: Order, a: P.Answers, commit: nat, bumpp: seq<string> -> bool)
    requires Quoted(o) && P.HonoursNoTag(bumpp) && !P.SomeAsks(o.forwarded)
    ensures P.TagMade !in Begun(c, o, a, commit, bumpp).left
  {
    if P.MayWrite(o.tag, a) {
      P.NoTagFromBumpp(o.execute, o.tag.value, o.forwarded, o.interactive, bumpp);
      P.WrittenMeans(a, bumpp(P.BumppArgv(o.execute, o.tag.value, o.forwarded, o.interactive)));
    }
  }

  lemma StepStaysTagless(s: State, e: Event, r: T.Rules, bumpp: seq<string> -> bool)
    requires Tagless(s) && P.HonoursNoTag(bumpp) && NobodyAsks([e]) && NobodyTagsByHand([e])
    ensures Tagless(Step(s, e, r, bumpp))
    ensures forall x :: x in Means(s, e) ==> !x.TagLocally?
  {
    assert e in [e];
    if e.Prepares? && Quoted(e.order) {
      BegunTagless(e.clone, e.order, e.answers, e.commit, bumpp);
    }
  }

  lemma {:induction false} PrepareTagsNothing(s: State, events: seq<Event>, r: T.Rules, bumpp: seq<string> -> bool)
    requires s.preparing == map[] && P.HonoursNoTag(bumpp) && NobodyAsks(events) && NobodyTagsByHand(events)
    ensures Tagless(Run(s, events, r, bumpp))
    ensures forall x :: x in Seen(s, events, r, bumpp) ==> !x.TagLocally?
    decreases |events|
  {
    if events != [] {
      var before, e := events[..|events| - 1], events[|events| - 1];
      PrepareTagsNothing(s, before, r, bumpp);
      StepStaysTagless(Run(s, before, r, bumpp), e, r, bumpp);
    }
  }

  /**
   Over every run of both phases by any number of people: a tag that was not there at the start is
   one that the tag phase made, and it names its release.
   */
  lemma EveryNewTagNamesItsRelease(
      s: State, events: seq<Event>, h: History, bumpp: seq<string> -> bool, ref: T.Ref)
    requires T.Fresh(s.world) && s.preparing == map[]
    requires P.HonoursNoTag(bumpp) && NobodyAsks(events) && NobodyTagsByHand(events)
    requires Anywhere(Run(s, events, Protocol.RulesOf(h), bumpp).world, ref) && !Anywhere(s.world, ref)
    ensures MadeHere(Run(s, events, Protocol.RulesOf(h), bumpp).world, ref)
    ensures IsTag(ref.name)
    ensures h(ref.commit).manifest.Some? && "v" + Trim(h(ref.commit).manifest.value) == ref.name
    ensures SquashOf(Trim(h(ref.commit).subject), ReleaseCommitSubject(ref.name))
  {
    var r := Protocol.RulesOf(h);
    var seen := Seen(s, events, r, bumpp);
    PrepareTagsNothing(s, events, r, bumpp);
    JointRunIsATagRun(s, events, r, bumpp);
    TagsAreAccountedFor(s.world, seen, r);
    var t := T.Run(s.world, seen, r);
    var k :| 0 <= k < |t.made| && t.made[k].tag == ref.name && t.made[k].commit == ref.commit;
    Protocol.EveryTagNamesItsRelease(s.world, seen, h, k);
  }

  /** All goes well, and the branch, the commit and what comes with it have been written. */
  function ThroughTheCommit(id: nat, c: nat, o: Order, a: P.Answers, commit: nat): seq<Event> {
    [Prepares(id, c, o, a, commit), Proceeds(id), Proceeds(id), Proceeds(id)]
  }

  /** `bumpp` tags just when it is asked to, whatever else it is told. */
  ghost predicate TagsWhenAsked(bumpp: seq<string> -> bool) {
    forall argv :: "--no-tag" in argv ==> (bumpp(argv) <==> P.SomeAsks(argv))
  }

  lemma CommitMoves(s: State, id: nat, r: T.Rules, bumpp: seq<string> -> bool)
    requires id in s.preparing && s.preparing[id].left != [] && s.preparing[id].left[0].Committed?
    requires s.preparing[id].clone in s.world.clones
    ensures var p := s.preparing[id];
            var clone := s.world.clones[p.clone].(head := p.commit, dirty := false);
            Step(s, Proceeds(id), r, bumpp) ==
            State(T.WithClone(s.world, p.clone, clone), s.preparing[id := p.(left := p.left[1..])])
  {
    var p := s.preparing[id];
    var two := Carried(p, p.left[0]);
    assert two[..1] == [two[0]] && two[..1][..0] == [];
    var t := T.Step(s.world, two[0], r);
    assert T.Run(s.world, two[..1], r) == t;
    assert T.Step(t, two[1], r).clones ==
           s.world.clones[p.clone := s.world.clones[p.clone].(head := p.commit, dirty := false)];
  }

  /** What follows the commit: the tag, or else the push of the branch. */
  lemma TagComes(s: State, id: nat, r: T.Rules, bumpp: seq<string> -> bool)
    requires id in s.preparing && s.preparing[id].left != [] && s.preparing[id].clone in s.world.clones
    requires s.preparing[id].left[0].TagMade? || s.preparing[id].left[0].BranchPushed?
    ensures var p, t := s.preparing[id], Step(s, Proceeds(id), r, bumpp).world;
            t == if p.left[0].TagMade? then T.Tagged(s.world, p.clone, p.tag, p.commit) else s.world
  {
    var p := s.preparing[id];
    if p.left[0].TagMade? {
      var one := Carried(p, p.left[0]);
      assert one[..0] == [];
      assert T.Run(s.world, one, r) == T.Step(s.world, one[0], r);
    }
  }

  lemma RunFour(s: State, es: seq<Event>, r: T.Rules, bumpp: seq<string> -> bool)
    requires |es| == 4
    ensures Run(s, es, r, bumpp) ==
            Step(Step(Step(Step(s, es[0], r, bumpp), es[1], r, bumpp), es[2], r, bumpp), es[3], r, bumpp)
  {
    hide Step;
    assert es[..3][..2] == es[..2] && es[..2][..1] == es[..1] && es[..1][..0] == [];
    assert Run(s, es[..1], r, bumpp) == Step(s, es[0], r, bumpp);
    assert Run(s, es[..2], r, bumpp) == Step(Run(s, es[..1], r, bumpp), es[1], r, bumpp);
    assert Run(s, es[..3], r, bumpp) == Step(Run(s, es[..2], r, bumpp), es[2], r, bumpp);
  }

  lemma WrittenInFull(a: P.Answers, tagged: bool)
    requires P.EverythingWorks(a)
    ensures P.Written(a, tagged) ==
            [P.Branched, P.Committed] + (if tagged then [P.TagMade] else []) + [P.BranchPushed, P.PrOpened]
  {
  }

  lemma BegunWith(c: nat, o: Order, a: P.Answers, commit: nat, bumpp: seq<string> -> bool)
    requires Quoted(o) && TagsWhenAsked(bumpp) && P.MayWrite(o.tag, a) && P.EverythingWorks(a)
    ensures Begun(c, o, a, commit, bumpp) ==
            Preparing(c, o.tag.value, commit,
                      [P.Branched, P.Committed] + (if P.SomeAsks(o.forwarded) then [P.TagMade] else [])
                      + [P.BranchPushed, P.PrOpened])
  {
    hide P.BumppArgv, P.SomeAsks, P.Written, P.EverythingPasses, P.EverythingWorks, IsTag;
    P.AsksExactlyWhenForwarded(o.execute, o.tag.value, o.forwarded, o.interactive);
    var argv := P.BumppArgv(o.execute, o.tag.value, o.forwarded, o.interactive);
    assert bumpp(argv) <==> P.SomeAsks(argv);
    WrittenInFull(a, P.SomeAsks(o.forwarded));
  }

  /** From the branch to what comes after the commit. */
  lemma PastTheCommit(s: State, id: nat, p: Preparing, tagged: bool, r: T.Rules, bumpp: seq<string> -> bool)
    requires id in s.preparing && s.preparing[id] == p && p.clone in s.world.clones
    requires p.left == [P.Branched, P.Committed] + (if tagged then [P.TagMade] else [])
                       + [P.BranchPushed, P.PrOpened]
    ensures var w := T.WithClone(s.world, p.clone,
                                 s.world.clones[p.clone].(head := p.commit, dirty := false));
            Step(Step(Step(s, Proceeds(id), r, bumpp), Proceeds(id), r, bumpp), Proceeds(id), r, bumpp).world ==
            if tagged then T.Tagged(w, p.clone, p.tag, p.commit) else w
  {
    var s2 := Step(s, Proceeds(id), r, bumpp);
    assert s2 == State(s.world, s.preparing[id := p.(left := p.left[1..])]);
    assert p.left[1..][0] == P.Committed;
    CommitMoves(s2, id, r, bumpp);
    var s3 := Step(s2, Proceeds(id), r, bumpp);
    assert p.left[1..][1..][0] == if tagged then P.TagMade else P.BranchPushed;
    hide Step;
    TagComes(s3, id, r, bumpp);
  }

  /**
   The hypothesis is needed: in a clone without the tag, `prepare` leaves it there, on the commit of its
   own branch, if and only if a forwarded argument asks for it.
   */
  lemma PrepareTagsExactlyWhenAsked(
      s: State, id: nat, c: nat, o: Order, a: P.Answers, commit: nat, r: T.Rules, bumpp: seq<string> -> bool)
    requires Quoted(o) && TagsWhenAsked(bumpp) && P.MayWrite(o.tag, a) && P.EverythingWorks(a)
    requires c in s.world.clones && id !in s.preparing && T.Find(s.world.clones[c].tags, o.tag.value).None?
    ensures var t := Run(s, ThroughTheCommit(id, c, o, a, commit), r, bumpp).world;
            && t.made == s.world.made && c in t.clones && t.clones[c].head == commit
            && (T.Find(t.clones[c].tags, o.tag.value).Some? <==> P.SomeAsks(o.forwarded))
            && (P.SomeAsks(o.forwarded) ==>
                  T.Find(t.clones[c].tags, o.tag.value) == Some(T.Ref(o.tag.value, s.world.objects, commit)))
  {
    var es := ThroughTheCommit(id, c, o, a, commit);
    var p := Begun(c, o, a, commit, bumpp);
    BegunWith(c, o, a, commit, bumpp);
    var s1 := Step(s, es[0], r, bumpp);
    assert s1 == s.(preparing := s.preparing[id := p]);
    hide Step, Begun, P.SomeAsks, P.MayWrite, P.EverythingWorks;
    RunFour(s, es, r, bumpp);
    PastTheCommit(s1, id, p, P.SomeAsks(o.forwarded), r, bumpp);
    T.FindInMore(s.world.clones[c].tags, T.Ref(o.tag.value, s.world.objects, commit), o.tag.value);
  }
}
