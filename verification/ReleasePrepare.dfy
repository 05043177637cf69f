/**
 Phase A of a release: everything that can refuse, then the branch, the commit, the push and the
 pull request. What every command answers is up to the world.
 */
module ReleasePrepare {
  import opened Commands
  import opened Options
  import opened Sequences
  import opened Versions

  // ----- the arguments -----

  const REBUILD_FLAG := "--rebuild"
  const NO_PUBLISH_FLAG := "--no-publish"
  const RELEASE_FLAG := "--release"

  predicate IsOwnFlag(arg: string) {
    arg == REBUILD_FLAG || arg == NO_PUBLISH_FLAG
  }

  predicate IsFlag(arg: string) {
    arg != [] && arg[0] == '-'
  }

  datatype Phase = Prepare | Tag

  datatype Parsed = Parsed(
    phase: Option<Phase>, tag: Option<string>, rebuild: bool, forwarded: seq<string>, objection: bool)

  /** The argument at `i` may name the release: it looks like a tag and is not the value of a forwarded flag. */
  predicate MayClaim(rest: seq<string>, i: nat, isTag: string -> bool)
    requires i < |rest|
  {
    && isTag(rest[i]) && !IsOwnFlag(rest[i]) && rest[i] != RELEASE_FLAG
    && (i > 0 && IsFlag(rest[i - 1]) ==> IsOwnFlag(rest[i - 1]))
  }

  /** The first argument that may; or the length, when none may. */
  ghost predicate ClaimedAt(rest: seq<string>, i: nat, isTag: string -> bool) {
    && i <= |rest|
    && (i < |rest| ==> MayClaim(rest, i, isTag))
    && forall k: nat :: k < i ==> !MayClaim(rest, k, isTag)
  }

  /** Arguments that are nobody's here. */
  function Others(rest: seq<string>): seq<string> {
    if rest == [] then []
    else
      var n := |rest| - 1;
      Others(rest[..n]) + (if IsOwnFlag(rest[n]) then [] else [rest[n]])
  }

  lemma OthersNext(rest: seq<string>, k: nat)
    requires k < |rest|
    ensures Others(rest[..k + 1]) == Others(rest[..k]) + if IsOwnFlag(rest[k]) then [] else [rest[k]]
  {
    assert rest[..k + 1][..k] == rest[..k];
  }

  /**
   Own flags are dropped, the first eligible tag is claimed, and everything else is forwarded
   untouched and in order. `--release` is refused.
   */
  method ParseRest(rest: seq<string>, isTag: string -> bool)
    returns (tag: Option<string>, forwarded: seq<string>, objection: bool)
    ensures objection <==> RELEASE_FLAG in rest
    ensures !objection ==>
              exists i: nat :: ClaimedAt(rest, i, isTag)
                && tag == (if i < |rest| then Some(rest[i]) else None)
                && forwarded == Others(rest[..i]) + (if i < |rest| then Others(rest[i + 1..]) else [])
  {
    tag, forwarded, objection := None, [], false;
    ghost var claimed: nat := |rest|;
    for k := 0 to |rest|
      invariant RELEASE_FLAG !in rest[..k]
      invariant tag.None? ==>
                  && claimed == |rest| && forwarded == Others(rest[..k])
                  && forall j: nat :: j < k ==> !MayClaim(rest, j, isTag)
      invariant tag.Some? ==> claimed < k && tag.value == rest[claimed] && ClaimedAt(rest, claimed, isTag)
                              && forwarded == Around(rest, claimed, k)
    {
      var arg := rest[k];
      NextPrefix(rest, k);
      OthersNext(rest, k);
      if tag.Some? {
        AroundNext(rest, claimed, k);
      }
      if IsOwnFlag(arg) {
        continue;
      }
      if arg == RELEASE_FLAG {
        objection := true;
        return;
      }
      var couldBeAValue := k > 0 && IsFlag(rest[k - 1]) && !IsOwnFlag(rest[k - 1]);
      if tag.None? && !couldBeAValue && isTag(arg) {
        tag := Some(arg);
        claimed := k;
        AroundStart(rest, k);
        continue;
      }
      forwarded := forwarded + [arg];
    }
    WholePrefix(rest);
    assert ClaimedAt(rest, claimed, isTag);
    if tag.Some? {
      assert rest[claimed + 1..|rest|] == rest[claimed + 1..];
    }
  }

  /** What is forwarded once the argument at `i` has been claimed and those before `k` looked at. */
  function Around(rest: seq<string>, i: nat, k: nat): seq<string>
    requires i < k <= |rest|
  {
    Others(rest[..i]) + Others(rest[i + 1..k])
  }

  lemma AroundNext(rest: seq<string>, i: nat, k: nat)
    requires i < k < |rest|
    ensures Around(rest, i, k + 1) == Around(rest, i, k) + if IsOwnFlag(rest[k]) then [] else [rest[k]]
  {
    var longer := rest[i + 1..k + 1];
    assert longer[..|longer| - 1] == rest[i + 1..k] && longer[|longer| - 1] == rest[k];
    Reassociate(Others(rest[..i]), Others(rest[i + 1..k]), if IsOwnFlag(rest[k]) then [] else [rest[k]]);
  }

  lemma AroundStart(rest: seq<string>, k: nat)
    requires k < |rest|
    ensures Around(rest, k, k + 1) == Others(rest[..k])
  {
    assert rest[k + 1..k + 1] == [];
  }

  function AfterPhase(argv: seq<string>): seq<string> {
    if argv != [] && (argv[0] == "prepare" || argv[0] == "tag") then argv[1..] else argv
  }

  /** The phase is read from the first place only, and there is no default. */
  method ParseArgv(argv: seq<string>, isTag: string -> bool) returns (parsed: Parsed)
    ensures parsed.rebuild <==> REBUILD_FLAG in argv
    ensures parsed.phase == Some(Prepare) <==> argv != [] && argv[0] == "prepare"
    ensures parsed.phase == Some(Tag) <==> argv != [] && argv[0] == "tag"
    ensures var rest := AfterPhase(argv);
            && (parsed.objection <==> RELEASE_FLAG in rest)
            && (!parsed.objection ==>
                  exists i: nat :: ClaimedAt(rest, i, isTag)
                    && parsed.tag == (if i < |rest| then Some(rest[i]) else None)
                    && parsed.forwarded == Others(rest[..i]) + (if i < |rest| then Others(rest[i + 1..]) else []))
  {
    var phase :=
      if argv == [] then None
      else if argv[0] == "prepare" then Some(Prepare)
      else if argv[0] == "tag" then Some(Tag) else None;
    var rest := AfterPhase(argv);
    var tag, forwarded, objection := ParseRest(rest, isTag);
    parsed := Parsed(phase, tag, REBUILD_FLAG in argv, forwarded, objection);
  }

  // ----- bumpp -----

  const BUMPP_PREFIX: seq<string> := ["x", "bumpp", "--all", "--no-tag", "--no-push", "--execute"]

  predicate Consents(args: seq<string>) {
    "--yes" in args || "-y" in args
  }

  function BumppArgv(execute: string, tag: string, forwarded: seq<string>, interactive: bool): seq<string> {
    BUMPP_PREFIX + [execute, RELEASE_FLAG, StripV(tag)] + forwarded +
    (if interactive || Consents(forwarded) then [] else ["--yes"])
  }

  /**
   What `bumpp` is told, whatever is forwarded: neither to tag nor to push, which command to execute and
   which version to write; then the forwarded arguments as they came; and to go ahead, if nobody is asked.
   */
  lemma BumppIsTold(execute: string, tag: string, forwarded: seq<string>, interactive: bool)
    ensures var argv := BumppArgv(execute, tag, forwarded, interactive);
            && 9 + |forwarded| <= |argv| <= 10 + |forwarded|
            && argv[3] == "--no-tag" && argv[4] == "--no-push" && argv[5] == "--execute" && argv[6] == execute
            && argv[7] == "--release" && (tag != "" && tag[0] == 'v' ==> argv[8] == tag[1..])
            && argv[9..9 + |forwarded|] == forwarded
            && argv[9 + |forwarded|..] == if interactive || Consents(forwarded) then [] else ["--yes"]
  {
    var own := BUMPP_PREFIX + [execute, RELEASE_FLAG, StripV(tag)];
    assert BumppArgv(execute, tag, forwarded, interactive)[..9] == own;
    assert own[3] == BUMPP_PREFIX[3] && own[4] == BUMPP_PREFIX[4] && own[5] == BUMPP_PREFIX[5];
  }

  /** An argument that would ask `bumpp` to tag after all: `--tag`, or `t` among grouped short flags. */
  predicate AsksForTag(arg: string) {
    |arg| >= 2 && arg[0] == '-' &&
    if arg[1] == '-' then |arg| >= 5 && arg[2] == 't' && arg[3] == 'a' && arg[4] == 'g' else 't' in arg[1..]
  }

  /** All that is assumed of `bumpp`: told not to tag, and nothing else about tags, it does not. */
  ghost predicate HonoursNoTag(tags: seq<string> -> bool) {
    forall argv :: "--no-tag" in argv && !SomeAsks(argv) ==> !tags(argv)
  }

  predicate SomeAsks(args: seq<string>) {
    exists i :: 0 <= i < |args| && AsksForTag(args[i])
  }

  lemma SomeAsksConcat(a: seq<string>, b: seq<string>)
    ensures SomeAsks(a + b) <==> SomeAsks(a) || SomeAsks(b)
  {
    var all := a + b;
    if SomeAsks(a) {
      var i :| 0 <= i < |a| && AsksForTag(a[i]);
      assert all[i] == a[i];
    }
    if SomeAsks(b) {
      var i :| 0 <= i < |b| && AsksForTag(b[i]);
      assert all[|a| + i] == b[i];
    }
  }

  lemma OwnArgumentsDoNotAsk(execute: string, tag: string)
    requires IsTag(tag) && execute != [] && execute[0] == '"'
    ensures !SomeAsks(BUMPP_PREFIX + [execute, RELEASE_FLAG, StripV(tag)])
    ensures !SomeAsks(["--yes"])
  {
    var middle := [execute, RELEASE_FLAG, StripV(tag)];
    StartsWithDigit(tag[1..]);
    assert !AsksForTag("x") && !AsksForTag("bumpp") && !AsksForTag("--all");
    assert !AsksForTag("--no-tag") && !AsksForTag("--no-push") && !AsksForTag("--execute");
    assert !AsksForTag(RELEASE_FLAG) && !AsksForTag("--yes");
    assert !SomeAsks(BUMPP_PREFIX) && !SomeAsks(middle);
    SomeAsksConcat(BUMPP_PREFIX, middle);
  }

  /** `bumpp` is told not to tag; it is asked to after all exactly when a forwarded argument asks. */
  lemma AsksExactlyWhenForwarded(execute: string, tag: string, forwarded: seq<string>, interactive: bool)
    requires IsTag(tag) && execute != [] && execute[0] == '"'
    ensures var argv := BumppArgv(execute, tag, forwarded, interactive);
            "--no-tag" in argv && (SomeAsks(argv) <==> SomeAsks(forwarded))
  {
    var own := BUMPP_PREFIX + [execute, RELEASE_FLAG, StripV(tag)];
    var last := if interactive || Consents(forwarded) then [] else ["--yes"];
    OwnArgumentsDoNotAsk(execute, tag);
    SomeAsksConcat(own, forwarded);
    SomeAsksConcat(own + forwarded, last);
    assert BUMPP_PREFIX[3] == "--no-tag";
    assert BumppArgv(execute, tag, forwarded, interactive)[3] == BUMPP_PREFIX[3];
  }

  lemma StartsWithDigit(s: string)
    requires ParseTriple(s).Some?
    ensures s != [] && IsDigit(s[0])
  {
    assert DigitRun(s) > 0;
  }

  // ----- the phase -----

  datatype Verdict = Passed | Refused | CouldNotRun

  datatype Plan = Entry | AlreadyThere | Objection

  /** What the world answers, should it be asked. */
  datatype Answers = Answers(
    statusRead: bool, dirty: bool,
    pin: Verdict, order: Verdict, openPrs: Verdict,
    changelog: Plan,
    switchTo: Outcome, bump: Outcome, push: Outcome, open: Outcome
  )

  datatype Effect = Branched | Committed | TagMade | BranchPushed | PrOpened

  function CodeOf(v: Verdict): nat {
    match v
    case Passed => 0
    case Refused => 1
    case CouldNotRun => 2
  }

  predicate EverythingPasses(a: Answers) {
    && a.statusRead && !a.dirty && a.pin.Passed? && a.order.Passed? && a.openPrs.Passed? && !a.changelog.Objection?
  }

  predicate EverythingWorks(a: Answers) {
    a.switchTo.Works? && a.bump.Works? && a.push.Works? && a.open.Works?
  }

  /** No refusal stands before the line below which things are written. */
  predicate MayWrite(tag: Option<string>, a: Answers) {
    tag.Some? && IsTag(tag.value) && EverythingPasses(a)
  }

  function Commit(tagMade: bool): seq<Effect> {
    [Committed] + if tagMade then [TagMade] else []
  }

  function Effects(o: Outcome, does: seq<Effect>): seq<Effect> {
    if o.Fails? then [] else does
  }

  /** What has been written when the writing stops: each command is given only after all before it worked. */
  function Written(a: Answers, tagMade: bool): seq<Effect> {
    Effects(a.switchTo, [Branched]) +
    (if !a.switchTo.Works? then [] else Effects(a.bump, Commit(tagMade))) +
    (if !a.switchTo.Works? || !a.bump.Works? then [] else Effects(a.push, [BranchPushed])) +
    (if !a.switchTo.Works? || !a.bump.Works? || !a.push.Works? then [] else Effects(a.open, [PrOpened]))
  }

  /** What the phase writes: nothing when anything refuses. */
  function Wrote(tag: Option<string>, forwarded: seq<string>, execute: string, interactive: bool,
                 a: Answers, tags: seq<string> -> bool): seq<Effect>
  {
    if MayWrite(tag, a) then Written(a, tags(BumppArgv(execute, tag.value, forwarded, interactive))) else []
  }

  /** The branch comes before the commit, the commit before the push, and the push before the pull request. */
  lemma WrittenMeans(a: Answers, tagMade: bool)
    ensures Branched in Written(a, tagMade) <==> !a.switchTo.Fails?
    ensures Committed in Written(a, tagMade) ==> Branched in Written(a, tagMade)
    ensures BranchPushed in Written(a, tagMade) ==> Committed in Written(a, tagMade)
    ensures PrOpened in Written(a, tagMade) ==> BranchPushed in Written(a, tagMade)
    ensures TagMade in Written(a, tagMade) ==> tagMade
    ensures !a.switchTo.Works? ==> Written(a, tagMade) == Effects(a.switchTo, [Branched])
  {
  }

  lemma NoTagFromBumpp(
      execute: string, tag: string, forwarded: seq<string>, interactive: bool, tags: seq<string> -> bool)
    requires IsTag(tag) && execute != [] && execute[0] == '"'
    ensures HonoursNoTag(tags) && !SomeAsks(forwarded) ==> !tags(BumppArgv(execute, tag, forwarded, interactive))
  {
    AsksExactlyWhenForwarded(execute, tag, forwarded, interactive);
  }

  /** What each check would say, in the order they are made. */
  function Checks(isTag: bool, a: Answers): seq<Verdict> {
    [ if isTag then Passed else Refused,
      if a.statusRead then Passed else CouldNotRun,
      if a.dirty then Refused else Passed,
      a.pin, a.order, a.openPrs,
      if a.changelog.Objection? then Refused else Passed ]
  }

  /** The first check that does not pass decides. */
  predicate Decides(checks: seq<Verdict>, v: Verdict) {
    exists i :: 0 <= i < |checks| && checks[i] == v && !v.Passed? && forall j :: 0 <= j < i ==> checks[j].Passed?
  }

  lemma DecidesAt(checks: seq<Verdict>, i: nat)
    requires i < |checks| && !checks[i].Passed? && forall j :: 0 <= j < i ==> checks[j].Passed?
    ensures Decides(checks, checks[i])
  {
  }

  /** Everything that can refuse, before anything is written. */
  method Refusal(isTag: bool, a: Answers) returns (code: nat)
    ensures code == 0 <==> isTag && EverythingPasses(a)
    ensures code == 0 <==> forall i :: 0 <= i < |Checks(isTag, a)| ==> Checks(isTag, a)[i].Passed?
    ensures code != 0 ==> code <= 2 && Decides(Checks(isTag, a), if code == 1 then Refused else CouldNotRun)
  {
    ghost var checks := Checks(isTag, a);
    if !isTag {
      DecidesAt(checks, 0);
      return 1;
    }
    if !a.statusRead {
      DecidesAt(checks, 1);
      return 2;
    }
    if a.dirty {
      DecidesAt(checks, 2);
      return 1;
    }
    if !a.pin.Passed? {
      DecidesAt(checks, 3);
      return CodeOf(a.pin);
    }
    if !a.order.Passed? {
      DecidesAt(checks, 4);
      return CodeOf(a.order);
    }
    if !a.openPrs.Passed? {
      DecidesAt(checks, 5);
      return CodeOf(a.openPrs);
    }
    if a.changelog.Objection? {
      DecidesAt(checks, 6);
      return 1;
    }
    return 0;
  }

  class Preparation {
    /** What has been done to the repository and to the remote, in order. */
    var effects: seq<Effect>
    var handedOver: bool

    constructor ()
      ensures effects == [] && !handedOver
    {
      effects, handedOver := [], false;
    }

    method Command(o: Outcome, does: seq<Effect>) returns (ok: bool)
      modifies this`effects
      ensures ok <==> o.Works?
      ensures effects == old(effects) + if o.Fails? then [] else does
    {
      if !o.Fails? {
        effects := effects + does;
      }
      ok := o.Works?;
    }

    /**
     Exit 0 is the whole sequence; exit 1 is nothing at all, unless `git switch` fails after
     switching; and a tag is made only if `bumpp` makes it.
     */
    method Prepare(tag: Option<string>, forwarded: seq<string>, execute: string, interactive: bool,
                   a: Answers, tags: seq<string> -> bool) returns (code: nat)
      requires effects == [] && execute != [] && execute[0] == '"'
      modifies this
      ensures code <= 2 && !handedOver
      ensures code == 0 <==> MayWrite(tag, a) && EverythingWorks(a)
      ensures !MayWrite(tag, a) ==>
                code != 0
                && Decides(Checks(tag.Some? && IsTag(tag.value), a), if code == 1 then Refused else CouldNotRun)
      ensures code == 1 && effects != [] <==> MayWrite(tag, a) && a.switchTo.FailsLate?
      ensures code == 1 ==> effects == [] || effects == [Branched]
      ensures effects == Wrote(tag, forwarded, execute, interactive, a, tags)
      ensures HonoursNoTag(tags) && !SomeAsks(forwarded) ==> TagMade !in effects
    {
      handedOver := false;
      code := Refusal(tag.Some? && IsTag(tag.value), a);
      if code != 0 {
        return;
      }
      var tagMade := tags(BumppArgv(execute, tag.value, forwarded, interactive));
      NoTagFromBumpp(execute, tag.value, forwarded, interactive, tags);
      WrittenMeans(a, tagMade);
      code := Write(a, tagMade);
    }

    /** Everything below the line that writes. */
    method Write(a: Answers, tagMade: bool) returns (code: nat)
      requires effects == []
      modifies this
      ensures !handedOver
      ensures code == if !a.switchTo.Works? then 1 else if EverythingWorks(a) then 0 else 2
      ensures effects == Written(a, tagMade)
    {
      handedOver := false;
      var switched := Command(a.switchTo, [Branched]);
      if !switched {
        return 1;
      }
      handedOver := true;
      var bumped := Command(a.bump, Commit(tagMade));
      handedOver := false;
      if !bumped {
        return 2;
      }
      var pushed := Command(a.push, [BranchPushed]);
      if !pushed {
        return 2;
      }
      var created := Command(a.open, [PrOpened]);
      if !created {
        return 2;
      }
      return 0;
    }
  }

  /** Whatever argument asks for a tag comes after the `--no-tag` it contradicts, and is a forwarded one. */
  lemma ForwardedTagFollows(execute: string, tag: string, forwarded: seq<string>, interactive: bool, i: nat)
    requires IsTag(tag) && execute != [] && execute[0] == '"'
    requires i < |BumppArgv(execute, tag, forwarded, interactive)|
    requires AsksForTag(BumppArgv(execute, tag, forwarded, interactive)[i])
    ensures BumppArgv(execute, tag, forwarded, interactive)[3] == "--no-tag" && 3 < i
    ensures BumppArgv(execute, tag, forwarded, interactive)[i] in forwarded
  {
    var own := BUMPP_PREFIX + [execute, RELEASE_FLAG, StripV(tag)];
    var last := if interactive || Consents(forwarded) then [] else ["--yes"];
    var argv := BumppArgv(execute, tag, forwarded, interactive);
    OwnArgumentsDoNotAsk(execute, tag);
    assert argv == own + forwarded + last;
    InTheMiddle(own, forwarded, last, i);
    assert argv[3] == BUMPP_PREFIX[3];
  }

  lemma InTheMiddle(a: seq<string>, b: seq<string>, c: seq<string>, i: nat)
    requires i < |a + b + c| && AsksForTag((a + b + c)[i]) && !SomeAsks(a) && !SomeAsks(c)
    ensures |a| <= i < |a| + |b| && (a + b + c)[i] == b[i - |a|]
  {
  }
}
