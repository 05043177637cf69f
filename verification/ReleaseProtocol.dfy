/** What the two phases guarantee together, with the release's own rules. */
module ReleaseProtocol {
  import opened Commands
  import opened Options
  import opened ReleaseCommit
  import opened PullRequests
  import opened ReleaseGates
  import O = ReleaseOrder
  import T = ReleaseTag
  import opened Text
  import opened Versions

  /** The judgements of phase B over a repository whose commits are `h`. */
  function RulesOf(h: History): T.Rules {
    T.Rules(
      IsTag,
      (tag: string, commit: nat) => ManifestMatches(tag, h(commit)),
      (tag: string, commit: nat) => SubjectMatches(tag, h(commit)),
      (tag: string, names: seq<string>) => InOrder(tag, names, false))
  }

  /** Whatever release `name` spells is before the release `tag` spells. */
  predicate Before(name: string, tag: string) {
    ParseReleaseTag(name).Some? ==>
      ParseReleaseTag(tag).Some? && Less(ParseReleaseTag(name).value, ParseReleaseTag(tag).value)
  }

  lemma GateOrders(h: History)
    ensures O.Orders(RulesOf(h), Before)
  {
    var r := RulesOf(h);
    forall tag, names, i | r.inOrder(tag, names) && 0 <= i < |names|
      ensures Before(names[i], tag)
    {
      if ParseReleaseTag(names[i]).Some? {
        PassingTagIsHighest(tag, names, names[i]);
      }
    }
  }

  /**
   Over every run, by any number of releasers: a tag names a commit whose manifest reads exactly
   its version and whose subject is its release, with or without the squash merge's suffix.
   */
  lemma EveryTagNamesItsRelease(s: T.State, events: seq<T.Event>, h: History, i: nat)
    requires T.Fresh(s) && i < |T.Run(s, events, RulesOf(h)).made|
    ensures var m := T.Run(s, events, RulesOf(h)).made[i];
            && IsTag(m.tag)
            && h(m.commit).manifest.Some? && "v" + Trim(h(m.commit).manifest.value) == m.tag
            && SquashOf(Trim(h(m.commit).subject), ReleaseCommitSubject(m.tag))
  {
    T.EveryTagIsChecked(s, events, RulesOf(h));
    var m := T.Run(s, events, RulesOf(h)).made[i];
    Judged(m.tag, m.commit, h);
  }

  lemma Judged(tag: string, commit: nat, h: History)
    requires T.Names(tag, commit, RulesOf(h))
    ensures IsTag(tag)
    ensures h(commit).manifest.Some? && "v" + Trim(h(commit).manifest.value) == tag
    ensures SquashOf(Trim(h(commit).subject), ReleaseCommitSubject(tag))
  {
    ManifestReadsTheTag(tag, h(commit));
    SubjectMatchesExactlyWhen(tag, h(commit));
  }

  /** Release tags strictly increase as they reach the remote, if reading and pushing are one step. */
  lemma ReleaseTagsIncrease(s: T.State, events: seq<T.Event>, h: History, i: nat, j: nat)
    requires T.Fresh(s) && O.AlwaysAlone(s, events, RulesOf(h))
    requires i < j < |T.Run(s, events, RulesOf(h)).remote| && |s.remote| <= j
    ensures Before(T.Run(s, events, RulesOf(h)).remote[i].name, T.Run(s, events, RulesOf(h)).remote[j].name)
  {
    GateOrders(h);
    O.TagsRise(s, events, RulesOf(h), Before);
  }

  /** A release at or above this one, from the remote's tags numbered `from` on. */
  ghost predicate Overtaken(refs: seq<T.Ref>, from: nat, tag: string) {
    exists i :: from <= i < |refs| && !Before(refs[i].name, tag)
  }

  /**
   With no hypothesis on the schedule: a release that is pushed is above every release on the remote
   if and only if none at or above it arrived there since its gate read the remote.
   */
  lemma ReleaseRisesExactlyWhen(s: T.State, events: seq<T.Event>, o: Outcome, h: History, id: nat) returns (m: nat)
    requires T.Fresh(s)
    requires var t := T.Run(s, events, RulesOf(h)); id in t.agents && t.agents[id].pc == T.PushTag
    requires var t := T.Run(s, events, RulesOf(h)); T.Step(t, T.Act(id, o), RulesOf(h)).remote != t.remote
    ensures O.GateRead(s, events, RulesOf(h), id, m)
    ensures var t, read := T.Run(s, events, RulesOf(h)), T.Run(s, events[..m], RulesOf(h)).remote;
            O.Rising(T.Step(t, T.Act(id, o), RulesOf(h)).remote, |t.remote|, Before) <==>
            !Overtaken(t.remote, |read|, t.agents[id].tag)
  {
    GateOrders(h);
    m := O.PushRisesExactlyWhen(s, events, o, RulesOf(h), id, Before);
    var t := T.Run(s, events, RulesOf(h));
    OvertakenMeans(t.remote, |T.Run(s, events[..m], RulesOf(h)).remote|, t.agents[id].tag);
  }

  lemma OvertakenMeans(refs: seq<T.Ref>, from: nat, tag: string)
    ensures Overtaken(refs, from, tag) <==> !O.AllUnder(refs, from, tag, Before)
  {
  }

  lemma OwnManifestMatches(v: Version, commit: Commit)
    requires commit.manifest == Some(Numbers(v))
    ensures ManifestMatches(FormatVersion(v), commit)
  {
    FormatReadsBack(v);
    NumbersAreTrimmed(v);
  }

  lemma OwnSubjectMatches(tag: string, commit: Commit)
    requires IsTag(tag) && commit.subject == ReleaseCommitSubject(tag)
    ensures SubjectMatches(tag, commit)
  {
    SubjectIsTrimmed(tag);
    SubjectMatchesExactlyWhen(tag, commit);
  }

  lemma FirstTagIsInOrder(v: Version)
    ensures InOrder(FormatVersion(v), [], false)
  {
    FormatReadsBack(v);
  }

  lemma RulesAgree(tag: string, commit: nat, h: History)
    ensures var r := RulesOf(h);
            && r.isTag(tag) == IsTag(tag)
            && r.manifestMatches(tag, commit) == ManifestMatches(tag, h(commit))
            && r.subjectMatches(tag, commit) == SubjectMatches(tag, h(commit))
            && r.inOrder(tag, []) == InOrder(tag, [], false)
  {
  }

  predicate Passes(tag: string, commit: Commit) {
    IsTag(tag) && ManifestMatches(tag, commit) && SubjectMatches(tag, commit) && InOrder(tag, [], false)
  }

  /** A version, its tag, and the commit that `bumpp` makes for it. */
  predicate Bump(v: Version, tag: string, commit: Commit) {
    tag == FormatVersion(v) && commit == Commit(Some(Numbers(v)), ReleaseCommitSubject(tag))
  }

  /** Such a commit passes every check for its tag. */
  lemma BumpPasses(v: Version, tag: string, commit: Commit)
    requires Bump(v, tag, commit)
    ensures Passes(tag, commit)
  {
    FormatReadsBack(v);
    OwnManifestMatches(v, commit);
    OwnSubjectMatches(tag, commit);
    FirstTagIsInOrder(v);
  }

  lemma NumbersAreTrimmed(v: Version)
    ensures Trim(Numbers(v)) == Numbers(v)
  {
    hide Trim, ParseTriple;
    var s := Numbers(v);
    TripleOfNumbers(v);
    TripleEndsInDigit(s);
    assert s[0] == Printed(v.major)[0];
    TrimOfSolid(s);
  }

  lemma NewerIsNotBefore(older: Version, newer: Version, first: string, second: string)
    requires Less(older, newer) && first == FormatVersion(older) && second == FormatVersion(newer)
    ensures !Before(second, first)
  {
    FormatReadsBack(older);
    FormatReadsBack(newer);
    LessIsATotalOrder(older, newer, older);
  }

  /** Two releases that would each pass on their own: in this run the first to pass its gate pushes last. */
  lemma FirstThroughTheGatePushesLast(older: string, newer: string, h: History) returns (events: seq<T.Event>)
    requires older != newer && Passes(older, h(1)) && Passes(newer, h(2))
    ensures T.Labels(T.Run(O.TWO_CHECKOUTS, events, RulesOf(h)).remote) == [newer, older]
  {
    RulesAgree(older, 1, h);
    RulesAgree(newer, 2, h);
    events := O.DividedGateLetsTagsFall(older, newer, RulesOf(h));
  }

  lemma NewerIsAnother(older: Version, newer: Version, first: string, second: string)
    requires Less(older, newer) && first == FormatVersion(older) && second == FormatVersion(newer)
    ensures first != second
  {
    FormatReadsBack(older);
    FormatReadsBack(newer);
    LessIsATotalOrder(older, newer, older);
  }

  /** A repository in which both bumps were merged, the older one first. */
  function TwoReleases(older: Commit, newer: Commit): History {
    (n: nat) => if n == 1 then older else newer
  }

  lemma TwoBumpsPass(v1: Version, v2: Version, older: string, newer: string, first: Commit, second: Commit)
    requires Less(v1, v2) && Bump(v1, older, first) && Bump(v2, newer, second)
    ensures older != newer && Passes(older, first) && Passes(newer, second) && !Before(newer, older)
  {
    BumpPasses(v1, older, first);
    BumpPasses(v2, newer, second);
    NewerIsAnother(v1, v2, older, newer);
    NewerIsNotBefore(v1, v2, older, newer);
  }

  /** The two bumps of a pair of versions. */
  lemma TwoBumpsFall(v1: Version, v2: Version, older: string, newer: string, first: Commit, second: Commit)
    returns (events: seq<T.Event>)
    requires Less(v1, v2) && Bump(v1, older, first) && Bump(v2, newer, second)
    ensures T.Labels(T.Run(O.TWO_CHECKOUTS, events, RulesOf(TwoReleases(first, second))).remote) == [newer, older]
    ensures !Before(newer, older)
  {
    TwoBumpsPass(v1, v2, older, newer, first, second);
    var h := TwoReleases(first, second);
    assert h(1) == first && h(2) == second;
    events := FirstThroughTheGatePushesLast(older, newer, TwoReleases(first, second));
  }

  lemma TwoNamed(refs: seq<T.Ref>, a: string, b: string)
    requires T.Labels(refs) == [a, b]
    ensures |refs| == 2 && refs[0].name == a && refs[1].name == b
  {
    assert T.Labels(refs)[0] == a && T.Labels(refs)[1] == b;
  }

  /**
   And not otherwise: for any two versions there is a repository and a run, by two releasers who each
   pass the gate, at whose end the release that arrived last is not above the one before it.
   */
  lemma DividedReleaseTagsCanFall(v1: Version, v2: Version) returns (h: History, events: seq<T.Event>)
    requires Less(v1, v2)
    ensures var refs := T.Run(O.TWO_CHECKOUTS, events, RulesOf(h)).remote;
            && |refs| == 2 && refs[0].name == FormatVersion(v2) && refs[1].name == FormatVersion(v1)
            && !Before(refs[0].name, refs[1].name)
  {
    var older, newer := FormatVersion(v1), FormatVersion(v2);
    var first := Commit(Some(Numbers(v1)), ReleaseCommitSubject(older));
    var second := Commit(Some(Numbers(v2)), ReleaseCommitSubject(newer));
    h := TwoReleases(first, second);
    events := TwoBumpsFall(v1, v2, older, newer, first, second);
    TwoNamed(T.Run(O.TWO_CHECKOUTS, events, RulesOf(h)).remote, newer, older);
  }
}
