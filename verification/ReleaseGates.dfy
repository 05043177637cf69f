/** The gates a release passes: the size of its version bump, and the order of its tag. */
module ReleaseGates {
  import opened Options
  import opened PullRequests
  import opened Sequences
  import opened Text
  import opened Versions

  // ----- bumps -----

  datatype Level = Patch | Minor | Major {
    function Rank(): nat {
      match this
      case Patch => 1
      case Minor => 2
      case Major => 3
    }
  }

  /** The highest component that increased; nothing when the target is not ahead. */
  function ClassifyBump(current: Version, target: Version): Option<Level> {
    if target.major != current.major then (if target.major > current.major then Some(Major) else None)
    else if target.minor != current.minor then (if target.minor > current.minor then Some(Minor) else None)
    else if target.patch != current.patch then (if target.patch > current.patch then Some(Patch) else None)
    else None
  }

  lemma NotAheadExactlyWhen(current: Version, target: Version)
    ensures ClassifyBump(current, target).None? <==> target == current || Less(target, current)
  {
    LessIsATotalOrder(current, target, current);
  }

  function RequiredBump(feature: bool, breaking: bool, current: Version): Level {
    if current.major == 0 then (if breaking then Minor else Patch)
    else if breaking then Major
    else if feature then Minor
    else Patch
  }

  /** What a consumer's `^current` installs on a routine update. */
  predicate CaretCovers(current: Version, target: Version) {
    && !Less(target, current)
    && target.major == current.major
    && (current.major == 0 ==> target.minor == current.minor)
    && (current.major == 0 && current.minor == 0 ==> target.patch == current.patch)
  }

  predicate BigEnough(level: Level, feature: bool, breaking: bool, current: Version) {
    level.Rank() >= RequiredBump(feature, breaking, current).Rank()
  }

  /** A bump the gate finds big enough for a breaking change takes it out of every consumer's range. */
  lemma BreakingLeavesTheRange(current: Version, target: Version, feature: bool)
    requires ClassifyBump(current, target).Some?
    requires BigEnough(ClassifyBump(current, target).value, feature, true, current)
    ensures Less(current, target) && !CaretCovers(current, target)
  {
    NotAheadExactlyWhen(current, target);
    LessIsATotalOrder(current, target, current);
  }

  /**
   The converse has one exception. On `0.0.z` the range is a single version, yet the gate still
   asks a breaking change to leave `0.0`, and tells its author that the range covers the target.
   */
  lemma TooSmallExactlyWhen(current: Version, target: Version, feature: bool)
    requires Less(current, target)
    ensures ClassifyBump(current, target).Some?
    ensures !BigEnough(ClassifyBump(current, target).value, feature, true, current) <==>
            || CaretCovers(current, target)
            || (current.major == 0 && current.minor == 0 && target.major == 0 && target.minor == 0)
  {
    NotAheadExactlyWhen(current, target);
    LessIsATotalOrder(current, target, current);
  }

  /** The target leaves what this change must not reach, by the numbers alone. */
  predicate FarEnough(feature: bool, breaking: bool, current: Version, target: Version) {
    var nextMinor := target.major != current.major || target.minor != current.minor;
    if current.major == 0 then (breaking ==> nextMinor)
    else (breaking ==> target.major != current.major) && (feature ==> nextMinor)
  }

  /**
   Before 1.0 a breaking change needs a new minor and everything else ships in a patch; from 1.0 on a
   breaking change needs a new major and a feature a new minor.
   */
  lemma BigEnoughExactlyWhen(current: Version, target: Version, feature: bool, breaking: bool)
    requires Less(current, target)
    ensures ClassifyBump(current, target).Some?
    ensures BigEnough(ClassifyBump(current, target).value, feature, breaking, current) <==>
            FarEnough(feature, breaking, current, target)
  {
  }

  // ----- findings -----

  datatype Severity = Error | Warn

  datatype Kind =
    | BreakingMarkerMismatch | BumpTooSmall | EmptyMilestone | MilestoneNotARelease | MilestoneNotAhead
    | NonAdjacentBump | NonConformingTitle | TagAlreadyExists | TagNotARelease | TagNotHighest

  datatype Finding = Finding(kind: Kind, severity: Severity, number: Option<nat>)

  predicate Blocks(findings: seq<Finding>) {
    exists i :: 0 <= i < |findings| && findings[i].severity.Error?
  }

  lemma BlocksConcat(a: seq<Finding>, b: seq<Finding>)
    ensures Blocks(a + b) <==> Blocks(a) || Blocks(b)
  {
    var all := a + b;
    if Blocks(a) {
      var i :| 0 <= i < |a| && a[i].severity.Error?;
      assert all[i] == a[i];
    }
    if Blocks(b) {
      var i :| 0 <= i < |b| && b[i].severity.Error?;
      assert all[|a| + i] == b[i];
    }
  }

  /** What the gates read off a pull request. */
  datatype Claim = Claim(number: nat, exempt: bool, title: Option<Title>, footer: bool)

  function ClaimOf(pr: PullRequest, parse: TitleReader): Claim {
    Claim(pr.number, Exempt(pr), parse(pr.title), HasBreakingFooter(pr.body))
  }

  function ClaimsOf(prs: seq<PullRequest>, parse: TitleReader): (claims: seq<Claim>)
    ensures |claims| == |prs|
    ensures forall i :: 0 <= i < |prs| ==> claims[i] == ClaimOf(prs[i], parse)
  {
    seq(|prs|, i requires 0 <= i < |prs| => ClaimOf(prs[i], parse))
  }

  /** What the gate asks of one pull request that ships in a bump of this level. */
  predicate Acceptable(claim: Claim, level: Level, current: Version) {
    || claim.exempt
    || (claim.title.Some? &&
        var title := claim.title.value;
        (claim.footer ==> title.breaking) && BigEnough(level, title.kind == "feat", title.breaking, current))
  }

  function PrFindings(claim: Claim, level: Level, current: Version): seq<Finding> {
    if claim.exempt then []
    else
      match claim.title
      case None => [Finding(NonConformingTitle, Error, Some(claim.number))]
      case Some(title) =>
        (if claim.footer && !title.breaking then [Finding(BreakingMarkerMismatch, Error, Some(claim.number))] else []) +
        (if BigEnough(level, title.kind == "feat", title.breaking || claim.footer, current) then []
         else [Finding(BumpTooSmall, Error, Some(claim.number))])
  }

  lemma PrFindingsBlock(claim: Claim, level: Level, current: Version)
    ensures Blocks(PrFindings(claim, level, current)) <==> !Acceptable(claim, level, current)
  {
    var f := PrFindings(claim, level, current);
    if f != [] {
      assert f[0].severity.Error?;
    }
  }

  /** Which of the three complaints a pull request earns. */
  predicate Earns(claim: Claim, level: Level, current: Version, kind: Kind) {
    && !claim.exempt
    && match kind
       case NonConformingTitle => claim.title.None?
       case BreakingMarkerMismatch => claim.title.Some? && claim.footer && !claim.title.value.breaking
       case BumpTooSmall =>
         && claim.title.Some?
         && !BigEnough(level, claim.title.value.kind == "feat", claim.title.value.breaking || claim.footer, current)
       case _ => false
  }

  /** The complaints are those that somebody earns, each under the number of who does. */
  ghost predicate Reported(findings: seq<Finding>, claims: seq<Claim>, level: Level, current: Version) {
    forall f :: f in findings <==>
      f.severity.Error? && exists i :: 0 <= i < |claims| && f.number == Some(claims[i].number)
                                       && Earns(claims[i], level, current, f.kind)
  }

  lemma ReportedNext(findings: seq<Finding>, claims: seq<Claim>, claim: Claim, level: Level, current: Version)
    requires Reported(findings, claims, level, current)
    ensures Reported(findings + PrFindings(claim, level, current), claims + [claim], level, current)
  {
    var all, more := claims + [claim], PrFindings(claim, level, current);
    OwnFindings(claim, level, current);
    hide PrFindings, Earns;
    forall f | f in findings + more
      ensures f.severity.Error? && exists i :: 0 <= i < |all| && f.number == Some(all[i].number)
                                               && Earns(all[i], level, current, f.kind)
    {
      if f in findings {
        var i :| 0 <= i < |claims| && f.number == Some(claims[i].number) && Earns(claims[i], level, current, f.kind);
        assert all[i] == claims[i];
      } else {
        assert all[|claims|] == claim;
      }
    }
    forall f: Finding, i | f.severity.Error? && 0 <= i < |all| && f.number == Some(all[i].number)
                           && Earns(all[i], level, current, f.kind)
      ensures f in findings + more
    {
      if i < |claims| {
        assert all[i] == claims[i];
      }
    }
  }

  lemma OwnFindings(claim: Claim, level: Level, current: Version)
    ensures forall f :: f in PrFindings(claim, level, current) <==>
              f.severity.Error? && f.number == Some(claim.number) && Earns(claim, level, current, f.kind)
  {
  }

  predicate AllAcceptable(claims: seq<Claim>, level: Level, current: Version) {
    forall i :: 0 <= i < |claims| ==> Acceptable(claims[i], level, current)
  }

  method EvaluatePrBumps(claims: seq<Claim>, target: Version, current: Version) returns (findings: seq<Finding>)
    ensures Blocks(findings) <==>
            ClassifyBump(current, target).Some? && !AllAcceptable(claims, ClassifyBump(current, target).value, current)
    ensures if ClassifyBump(current, target).None? then findings == []
            else Reported(findings, claims, ClassifyBump(current, target).value, current)
  {
    findings := [];
    var level := ClassifyBump(current, target);
    if level.None? {
      return;
    }
    for k := 0 to |claims|
      invariant Blocks(findings) <==> !AllAcceptable(claims[..k], level.value, current)
      invariant Reported(findings, claims[..k], level.value, current)
    {
      NextPrefix(claims, k);
      var more := PrFindings(claims[k], level.value, current);
      PrFindingsBlock(claims[k], level.value, current);
      BlocksConcat(findings, more);
      ReportedNext(findings, claims[..k], claims[k], level.value, current);
      findings := findings + more;
    }
    WholePrefix(claims);
  }

  predicate Adjacent(current: Version, target: Version, level: Level) {
    match level
    case Patch => target.patch == current.patch + 1
    case Minor => target.minor == current.minor + 1 && target.patch == 0
    case Major => target.major == current.major + 1 && target.minor == 0 && target.patch == 0
  }

  /** A skipped version is worth a warning and nothing more. */
  function MilestoneVersionFindings(target: Version, current: Version): (f: seq<Finding>)
    ensures Blocks(f) <==> !Less(current, target)
    ensures f == [] <==>
            || target == current.(patch := current.patch + 1)
            || target == Version(current.major, current.minor + 1, 0)
            || target == Version(current.major + 1, 0, 0)
  {
    NotAheadExactlyWhen(current, target);
    LessIsATotalOrder(current, target, current);
    match ClassifyBump(current, target)
    case None =>
      var f := [Finding(MilestoneNotAhead, Error, None)];
      assert f[0].severity.Error?;
      f
    case Some(level) => if Adjacent(current, target, level) then [] else [Finding(NonAdjacentBump, Warn, None)]
  }

  /** What a milestone must be for its release to go ahead. */
  predicate Releasable(tag: string, current: Version, claims: seq<Claim>) {
    && ParseReleaseTag(tag).Some?
    && claims != []
    && Less(current, ParseReleaseTag(tag).value)
    && ClassifyBump(current, ParseReleaseTag(tag).value).Some?
    && AllAcceptable(claims, ClassifyBump(current, ParseReleaseTag(tag).value).value, current)
  }

  /** What is asked of one pull request, by its text, its labels and the numbers. */
  ghost predicate MayShip(pr: PullRequest, parse: TitleReader, current: Version, target: Version) {
    || "release-gate-override" in pr.labels || IsReleaseTitle(Trim(pr.title))
    || (parse(pr.title).Some? &&
        var title := parse(pr.title).value;
        && (HasFooterLine(pr.body) ==> title.breaking)
        && FarEnough(title.kind == "feat", title.breaking, current, target))
  }

  /** And of the milestone: its name is a release ahead of the current one, and it is not empty. */
  ghost predicate MilestoneMayShip(tag: string, current: Version, prs: seq<PullRequest>, parse: TitleReader) {
    && ParseReleaseTag(tag).Some? && prs != []
    && Less(current, ParseReleaseTag(tag).value)
    && forall i :: 0 <= i < |prs| ==> MayShip(prs[i], parse, current, ParseReleaseTag(tag).value)
  }

  lemma AcceptableExactlyWhen(pr: PullRequest, parse: TitleReader, current: Version, target: Version)
    requires Less(current, target)
    ensures ClassifyBump(current, target).Some?
    ensures Acceptable(ClaimOf(pr, parse), ClassifyBump(current, target).value, current) <==>
            MayShip(pr, parse, current, target)
  {
    ExemptExactlyWhen(pr);
    FooterExactlyWhen(pr.body);
    hide Exempt, IsReleaseTitle, HasBreakingFooter, HasFooterLine, Trim, BigEnough, FarEnough, ClassifyBump;
    if parse(pr.title).Some? {
      var title := parse(pr.title).value;
      BigEnoughExactlyWhen(current, target, title.kind == "feat", title.breaking);
    } else {
      BigEnoughExactlyWhen(current, target, false, false);
    }
  }

  lemma ReleasableExactlyWhen(tag: string, current: Version, prs: seq<PullRequest>, parse: TitleReader)
    ensures Releasable(tag, current, ClaimsOf(prs, parse)) <==> MilestoneMayShip(tag, current, prs, parse)
  {
    if ParseReleaseTag(tag).Some? && Less(current, ParseReleaseTag(tag).value) {
      var target := ParseReleaseTag(tag).value;
      var claims := ClaimsOf(prs, parse);
      hide Acceptable, MayShip, ClassifyBump, Less, ParseReleaseTag;
      forall i | 0 <= i < |prs|
        ensures ClassifyBump(current, target).Some?
        ensures Acceptable(claims[i], ClassifyBump(current, target).value, current) <==>
                MayShip(prs[i], parse, current, target)
      {
        AcceptableExactlyWhen(prs[i], parse, current, target);
      }
      BigEnoughExactlyWhen(current, target, false, false);
    }
  }

  /** What the tag of a milestone must read, and what it reads as. */
  lemma TagReads(tag: string)
    ensures ParseReleaseTag(tag).Some? <==> exists numbers :: Trim(tag) == "v" + numbers && IsTriple(numbers)
    ensures forall a, b, c ::
              IsNumeral(a) && IsNumeral(b) && IsNumeral(c) && Trim(tag) == "v" + (a + ("." + (b + ("." + c)))) ==>
              ParseReleaseTag(tag) == Some(Version(Value(a), Value(b), Value(c)))
  {
    var t := Trim(tag);
    hide Trim, ParseTriple, IsTriple, Value;
    if t != [] {
      TripleExactlyWhen(t[1..]);
      assert t[0] == 'v' ==> t == "v" + t[1..];
    }
    if exists numbers :: t == "v" + numbers && IsTriple(numbers) {
      var numbers :| t == "v" + numbers && IsTriple(numbers);
      assert t[1..] == numbers;
    }
    forall a, b, c | IsNumeral(a) && IsNumeral(b) && IsNumeral(c) && t == "v" + (a + ("." + (b + ("." + c))))
      ensures ParseReleaseTag(tag) == Some(Version(Value(a), Value(b), Value(c)))
    {
      assert t[1..] == a + ("." + (b + ("." + c)));
    }
  }

  method EvaluateMilestone(tag: string, current: Version, prs: seq<PullRequest>, parse: TitleReader)
    returns (findings: seq<Finding>)
    ensures !Blocks(findings) <==> MilestoneMayShip(tag, current, prs, parse)
  {
    ReleasableExactlyWhen(tag, current, prs, parse);
    hide MilestoneMayShip;
    var target := ParseReleaseTag(tag);
    if target.None? {
      findings := [Finding(MilestoneNotARelease, Error, None)];
      assert findings[0].severity.Error?;
      return;
    }
    var empty := if prs == [] then [Finding(EmptyMilestone, Error, None)] else [];
    assert prs == [] ==> empty[0].severity.Error?;
    var version := MilestoneVersionFindings(target.value, current);
    var bumps := EvaluatePrBumps(ClaimsOf(prs, parse), target.value, current);
    NotAheadExactlyWhen(current, target.value);
    LessIsATotalOrder(current, target.value, current);
    BlocksConcat(empty, version);
    BlocksConcat(empty + version, bumps);
    findings := empty + version + bumps;
  }

  /** No consumer is upgraded across a breaking change by a routine update. */
  lemma MilestoneProtectsConsumers(tag: string, current: Version, prs: seq<PullRequest>, parse: TitleReader, i: nat)
    requires MilestoneMayShip(tag, current, prs, parse) && i < |prs|
    requires "release-gate-override" !in prs[i].labels && !IsReleaseTitle(Trim(prs[i].title))
    requires HasFooterLine(prs[i].body) || (parse(prs[i].title).Some? && parse(prs[i].title).value.breaking)
    ensures Less(current, ParseReleaseTag(tag).value) && !CaretCovers(current, ParseReleaseTag(tag).value)
  {
    ReleasableExactlyWhen(tag, current, prs, parse);
    ExemptExactlyWhen(prs[i]);
    FooterExactlyWhen(prs[i].body);
    hide MilestoneMayShip, MayShip, Trim, IsReleaseTitle, HasFooterLine, Exempt, HasBreakingFooter;
    ClaimProtectsConsumers(ClaimsOf(prs, parse)[i], ParseReleaseTag(tag).value, current);
  }

  lemma ClaimProtectsConsumers(claim: Claim, target: Version, current: Version)
    requires ClassifyBump(current, target).Some? && Acceptable(claim, ClassifyBump(current, target).value, current)
    requires !claim.exempt && (claim.footer || (claim.title.Some? && claim.title.value.breaking))
    ensures Less(current, target) && !CaretCovers(current, target)
  {
    BreakingLeavesTheRange(current, target, claim.title.value.kind == "feat");
  }

  // ----- the order of tags -----

  predicate AllBelow(names: seq<string>, skip: string, target: Version) {
    forall i :: 0 <= i < |names| && names[i] != skip && ParseReleaseTag(names[i]).Some? ==>
                  Less(ParseReleaseTag(names[i]).value, target)
  }

  function Parsed(names: seq<string>): (vs: seq<Option<Version>>)
    ensures |vs| == |names|
    ensures forall i :: 0 <= i < |names| ==> vs[i] == ParseReleaseTag(names[i])
  {
    seq(|names|, i requires 0 <= i < |names| => ParseReleaseTag(names[i]))
  }

  /** The greatest of some versions, if there is any. */
  predicate Highest(vs: seq<Option<Version>>, best: Option<Version>) {
    && (best.None? <==> forall i :: 0 <= i < |vs| ==> vs[i].None?)
    && (best.Some? ==> best in vs)
    && (best.Some? ==> forall i :: 0 <= i < |vs| && vs[i].Some? ==> !Less(best.value, vs[i].value))
  }

  function Higher(best: Option<Version>, v: Option<Version>): Option<Version> {
    if v.None? || (best.Some? && !Less(best.value, v.value)) then best else v
  }

  lemma HighestSnoc(vs: seq<Option<Version>>, best: Option<Version>, v: Option<Version>)
    requires Highest(vs, best)
    ensures Highest(vs + [v], Higher(best, v))
  {
    var all := vs + [v];
    assert all[|vs|] == v && forall i :: 0 <= i < |vs| ==> all[i] == vs[i];
    if v.Some? && best.Some? && Less(best.value, v.value) {
      forall i | 0 <= i < |all| && all[i].Some?
        ensures !Less(v.value, all[i].value)
      {
        LessIsATotalOrder(best.value, v.value, all[i].value);
      }
    }
  }

  /** One turn of the loop over the tags. */
  method KeepHigher(best: Option<Version>, v: Option<Version>) returns (next: Option<Version>)
    ensures next == Higher(best, v)
  {
    if v.None? {
      return best;
    }
    if best.None? {
      return v;
    }
    var order := CompareVersions(v.value, best.value);
    LessIsATotalOrder(v.value, best.value, v.value);
    next := if order > 0 then v else best;
  }

  method HighestTag(tags: seq<string>) returns (best: Option<Version>)
    ensures Highest(Parsed(tags), best)
  {
    best := None;
    ghost var vs := Parsed(tags);
    for k := 0 to |tags|
      invariant Highest(vs[..k], best)
    {
      NextPrefix(vs, k);
      HighestSnoc(vs[..k], best, vs[k]);
      best := KeepHigher(best, ParseReleaseTag(tags[k]));
    }
    WholePrefix(vs);
  }

  function Without(names: seq<string>, skip: string): (out: seq<string>)
    ensures forall n :: n in out <==> n in names && n != skip
  {
    if names == [] then []
    else (if names[0] == skip then [] else [names[0]]) + Without(names[1..], skip)
  }

  /** The tag is a release, new unless already pushed, and ahead of every other release tag. */
  predicate InOrder(tag: string, names: seq<string>, pushed: bool) {
    && ParseReleaseTag(tag).Some?
    && (!pushed ==> Trim(tag) !in names)
    && AllBelow(names, Trim(tag), ParseReleaseTag(tag).value)
  }

  predicate AllLess(vs: seq<Option<Version>>, target: Version) {
    forall i :: 0 <= i < |vs| && vs[i].Some? ==> Less(vs[i].value, target)
  }

  lemma BelowHighest(vs: seq<Option<Version>>, target: Version, highest: Option<Version>)
    requires Highest(vs, highest)
    ensures AllLess(vs, target) <==> highest.None? || Less(highest.value, target)
  {
    if highest.Some? && Less(highest.value, target) {
      forall i | 0 <= i < |vs| && vs[i].Some?
        ensures Less(vs[i].value, target)
      {
        LessIsATotalOrder(vs[i].value, highest.value, target);
      }
    }
  }

  lemma OthersBelow(names: seq<string>, skip: string, target: Version)
    ensures AllBelow(names, skip, target) <==> AllLess(Parsed(Without(names, skip)), target)
  {
    var others := Without(names, skip);
    if AllBelow(names, skip, target) {
      forall j | 0 <= j < |others| && Parsed(others)[j].Some?
        ensures Less(Parsed(others)[j].value, target)
      {
        assert others[j] in names;
      }
    }
    if AllLess(Parsed(others), target) {
      forall i | 0 <= i < |names| && names[i] != skip && ParseReleaseTag(names[i]).Some?
        ensures Less(ParseReleaseTag(names[i]).value, target)
      {
        assert names[i] in others;
        var j :| 0 <= j < |others| && others[j] == names[i];
        assert Parsed(others)[j] == ParseReleaseTag(names[i]);
      }
    }
  }

  method OrderFindings(taken: bool, target: Version, highest: Option<Version>) returns (findings: seq<Finding>)
    ensures Blocks(findings) <==> taken || (highest.Some? && !Less(highest.value, target))
  {
    findings := [];
    if taken {
      findings := [Finding(TagAlreadyExists, Error, None)];
      assert findings[0].severity.Error?;
    }
    if highest.Some? {
      var order := CompareVersions(target, highest.value);
      LessIsATotalOrder(target, highest.value, target);
      if order <= 0 {
        ghost var before := findings;
        findings := findings + [Finding(TagNotHighest, Error, None)];
        assert findings[|before|].severity.Error?;
      }
    }
  }

  method EvaluateTagOrder(tag: string, local: seq<string>, remote: seq<string>, pushed: bool)
    returns (findings: seq<Finding>)
    ensures !Blocks(findings) <==> InOrder(tag, local + remote, pushed)
  {
    var target := ParseReleaseTag(tag);
    if target.None? {
      findings := [Finding(TagNotARelease, Error, None)];
      assert findings[0].severity.Error?;
      return;
    }
    var name := Trim(tag);
    var all := local + remote;
    var others := Without(all, name);
    var highest := HighestTag(others);
    OthersBelow(all, name, target.value);
    BelowHighest(Parsed(others), target.value, highest);
    findings := OrderFindings(!pushed && name in all, target.value, highest);
  }

  /** A tag that passes before it is pushed is ahead of every release tag anyone can see. */
  lemma PassingTagIsHighest(tag: string, names: seq<string>, name: string)
    requires InOrder(tag, names, false) && name in names && ParseReleaseTag(name).Some?
    ensures Less(ParseReleaseTag(name).value, ParseReleaseTag(tag).value)
  {
    var i :| 0 <= i < |names| && names[i] == name;
  }
}
