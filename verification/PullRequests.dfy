/** What the release gates read off a pull request: its title, its labels and the footer of its body. */
module PullRequests {
  import opened Options
  import opened Text
  import opened Versions

  datatype Title = Title(kind: string, breaking: bool)

  datatype PullRequest = PullRequest(number: nat, title: string, body: string, labels: seq<string>)

  /** Reading a title as one Conventional Commit. */
  type TitleReader = string -> Option<Title>

  const OVERRIDE_LABEL := "release-gate-override"

  /** A `BREAKING CHANGE:` footer, at the start of a line and followed by a blank. */
  predicate FooterAt(body: string, i: nat)
    requires i <= |body|
  {
    && (i == 0 || IsLineEnd(body[i - 1]))
    && "BREAKING" <= body[i..]
    && |body| - i > 16 && (body[i + 8] == ' ' || body[i + 8] == '-')
    && "CHANGE:" <= body[i + 9..]
    && (body[i + 16] == ' ' || body[i + 16] == '\t')
  }

  predicate HasBreakingFooter(body: string) {
    exists i: nat :: i <= |body| && FooterAt(body, i)
  }

  predicate IsWordChar(c: char) {
    IsDigit(c) || 'a' <= c <= 'z' || 'A' <= c <= 'Z' || c == '_' || c == '-'
  }

  function WordRun(s: string): (n: nat)
    ensures n <= |s|
  {
    if s == [] || !IsWordChar(s[0]) then 0 else 1 + WordRun(s[1..])
  }

  const CHORE := "chore"
  const RELEASE := ": release "

  /** An optional scope in parentheses. */
  function SkipScope(s: string): string {
    if s == [] || s[0] != '(' then s
    else
      var n := WordRun(s[1..]);
      if n > 0 && n + 1 < |s| && s[n + 1] == ')' then s[n + 2..] else s
  }

  predicate IsReleaseCommit(title: string) {
    && CHORE <= title
    && var rest := SkipScope(title[|CHORE|..]);
       RELEASE <= rest && ParseTriple(StripV(rest[|RELEASE|..])).Some?
  }

  function ReleaseCommitSubject(tag: string): string {
    CHORE + (RELEASE + tag)
  }

  predicate Exempt(pr: PullRequest) {
    IsReleaseCommit(Trim(pr.title)) || OVERRIDE_LABEL in pr.labels
  }

  lemma SubjectIsTrimmed(tag: string)
    requires IsTag(tag)
    ensures Trim(ReleaseCommitSubject(tag)) == ReleaseCommitSubject(tag)
  {
    TripleEndsInDigit(tag[1..]);
    var s := ReleaseCommitSubject(tag);
    assert s[|s| - 1] == tag[|tag| - 1];
    assert s[0] == 'c';
    TrimOfSolid(s);
  }

  lemma SubjectIsARelease(tag: string)
    requires IsTag(tag)
    ensures IsReleaseCommit(ReleaseCommitSubject(tag))
  {
    var s, rest := ReleaseCommitSubject(tag), RELEASE + tag;
    assert s[|CHORE|..] == rest;
    assert rest[0] == ':';
    assert rest[|RELEASE|..] == tag;
    assert RELEASE <= rest;
  }

  /** The release pull request never blocks the release it is cutting. */
  lemma ReleasePullRequestIsExempt(pr: PullRequest, tag: string)
    requires IsTag(tag) && pr.title == ReleaseCommitSubject(tag)
    ensures Exempt(pr)
  {
    SubjectIsTrimmed(tag);
    SubjectIsARelease(tag);
  }

  // ----- what a footer looks like -----

  /** `body` has this before and after a footer that begins a line. */
  predicate FooterBetween(body: string, pre: string, sep: char, blank: char, post: string) {
    && body == pre + ("BREAKING" + ([sep] + ("CHANGE:" + ([blank] + post))))
    && (pre == "" || IsLineEnd(pre[|pre| - 1])) && sep in " -" && blank in " \t"
  }

  ghost predicate HasFooterLine(body: string) {
    exists pre, sep, blank, post :: FooterBetween(body, pre, sep, blank, post)
  }

  lemma Spelled(s: string, sep: char, blank: char)
    requires |s| > 16 && "BREAKING" <= s && s[8] == sep && "CHANGE:" <= s[9..] && s[16] == blank
    ensures s == "BREAKING" + ([sep] + ("CHANGE:" + ([blank] + s[17..])))
  {
    var t, u := s[9..], s[17..];
    assert t == "CHANGE:" + ([blank] + u) by {
      assert t[7] == blank && t[8..] == u;
      assert t == t[..7] + ([t[7]] + t[8..]);
    }
    assert s == s[..8] + ([s[8]] + t);
  }

  lemma FooterIsBetween(body: string, i: nat)
    requires i <= |body| && FooterAt(body, i)
    ensures exists pre, sep, blank, post :: FooterBetween(body, pre, sep, blank, post)
  {
    var s := body[i..];
    assert s[9..] == body[i + 9..];
    Spelled(s, s[8], s[16]);
    SplitsAt(body, i);
    assert FooterBetween(body, body[..i], s[8], s[16], s[17..]);
  }

  lemma SplitsAt(body: string, i: nat)
    requires i <= |body|
    ensures body == body[..i] + body[i..]
  {
  }

  lemma FooterExactlyWhen(body: string)
    ensures HasBreakingFooter(body) <==> HasFooterLine(body)
  {
    hide FooterAt, FooterBetween;
    if HasBreakingFooter(body) {
      var i: nat :| i <= |body| && FooterAt(body, i);
      FooterIsBetween(body, i);
    }
    if HasFooterLine(body) {
      var pre, sep, blank, post :| FooterBetween(body, pre, sep, blank, post);
      FooterStands(body, pre, sep, blank, post);
    }
  }

  lemma FooterStands(body: string, pre: string, sep: char, blank: char, post: string)
    requires FooterBetween(body, pre, sep, blank, post)
    ensures HasBreakingFooter(body)
  {
    var i := |pre|;
    var tail := [blank] + post;
    var t := "CHANGE:" + tail;
    var s := "BREAKING" + ([sep] + t);
    assert body[i..] == s && s[8] == sep;
    assert body[i + 9..] == s[9..] == t;
    assert t[7] == blank && body[i + 16] == t[7];
    assert FooterAt(body, i);
  }

  // ----- which pull requests are exempt -----

  /** A scope in parentheses, or none. */
  predicate IsScope(scope: string) {
    scope == "" || (|scope| > 2 && scope[0] == '(' && scope[|scope| - 1] == ')'
                    && forall k :: 0 < k < |scope| - 1 ==> IsWordChar(scope[k]))
  }

  /** `chore`, a scope or none, `: release `, a `v` or none, and three numbers. */
  ghost predicate IsReleaseTitle(title: string) {
    exists scope, v, numbers ::
      && title == CHORE + (scope + (RELEASE + (v + numbers)))
      && IsScope(scope) && (v == "" || v == "v") && IsTriple(numbers)
  }

  lemma {:induction false} WordRunOf(word: string, rest: string)
    requires (forall k :: 0 <= k < |word| ==> IsWordChar(word[k])) && (rest == [] || !IsWordChar(rest[0]))
    ensures WordRun(word + rest) == |word|
  {
    if word == [] {
      assert word + rest == rest;
    } else {
      assert (word + rest)[1..] == word[1..] + rest;
      WordRunOf(word[1..], rest);
    }
  }

  lemma {:induction false} WordRunIsWord(s: string)
    ensures forall k :: 0 <= k < WordRun(s) ==> IsWordChar(s[k])
  {
    if s != [] && IsWordChar(s[0]) {
      WordRunIsWord(s[1..]);
    }
  }

  lemma SkipScopeSkips(s: string)
    ensures exists scope :: IsScope(scope) && s == scope + SkipScope(s)
  {
    if SkipScope(s) == s {
      assert IsScope("") && s == "" + SkipScope(s);
    } else {
      var n := WordRun(s[1..]);
      WordRunIsWord(s[1..]);
      var scope := s[..n + 2];
      assert forall k :: 0 < k < n + 1 ==> scope[k] == s[1..][k - 1];
      assert s == scope + s[n + 2..];
      assert IsScope(scope);
    }
  }

  lemma ScopeIsSkipped(scope: string, rest: string)
    requires IsScope(scope) && rest != [] && rest[0] != '('
    ensures SkipScope(scope + rest) == rest
  {
    var s := scope + rest;
    if scope != "" {
      var word, tail := scope[1..|scope| - 1], [')'] + rest;
      assert s[1..] == word + tail;
      assert !IsWordChar(')');
      WordRunOf(word, tail);
      assert s[|word| + 2..] == rest;
    } else {
      assert s == rest;
    }
  }

  lemma TripleIsNotV(numbers: string)
    requires IsTriple(numbers)
    ensures numbers != [] && numbers[0] != 'v' && StripV(numbers) == numbers && StripV("v" + numbers) == numbers
  {
    var a, b, c :| IsNumeral(a) && IsNumeral(b) && IsNumeral(c) && numbers == a + ("." + (b + ("." + c)));
    assert numbers[0] == a[0];
  }

  lemma ReleaseCommitExactlyWhen(title: string)
    ensures IsReleaseCommit(title) <==> IsReleaseTitle(title)
  {
    if IsReleaseCommit(title) {
      CommitIsTitle(title);
    }
    if IsReleaseTitle(title) {
      var scope, v, numbers :|
        && title == CHORE + (scope + (RELEASE + (v + numbers)))
        && IsScope(scope) && (v == "" || v == "v") && IsTriple(numbers);
      TitleIsCommit(title, scope, v, numbers);
    }
  }

  lemma CommitIsTitle(title: string)
    requires IsReleaseCommit(title)
    ensures IsReleaseTitle(title)
  {
    hide SkipScope, IsScope, IsTriple, ParseTriple, StripV;
    var s := title[|CHORE|..];
    SkipScopeSkips(s);
    var scope :| IsScope(scope) && s == scope + SkipScope(s);
    Prefixed(title, CHORE);
    Prefixed(SkipScope(s), RELEASE);
    var last := SkipScope(s)[|RELEASE|..];
    var v := VOf(last);
    TripleExactlyWhen(StripV(last));
    Together(title, scope, v, StripV(last));
  }

  lemma Together(title: string, scope: string, v: string, numbers: string)
    requires title == CHORE + (scope + (RELEASE + (v + numbers)))
    requires IsScope(scope) && (v == "" || v == "v") && IsTriple(numbers)
    ensures IsReleaseTitle(title)
  {
  }

  lemma Prefixed(s: string, prefix: string)
    requires prefix <= s
    ensures s == prefix + s[|prefix|..]
  {
  }

  lemma VOf(last: string) returns (v: string)
    ensures (v == "" || v == "v") && last == v + StripV(last)
  {
    v := if last != [] && last[0] == 'v' then "v" else "";
  }

  lemma TitleIsCommit(title: string, scope: string, v: string, numbers: string)
    requires title == CHORE + (scope + (RELEASE + (v + numbers)))
    requires IsScope(scope) && (v == "" || v == "v") && IsTriple(numbers)
    ensures IsReleaseCommit(title)
  {
    var last := v + numbers;
    var rest := RELEASE + last;
    assert title[|CHORE|..] == scope + rest;
    assert rest[0] == ':';
    ScopeIsSkipped(scope, rest);
    assert rest[|RELEASE|..] == last;
    TripleIsNotV(numbers);
    assert v == "" ==> last == numbers;
    TripleExactlyWhen(numbers);
  }

  /** A pull request is exempt for the label itself or for its title, and for nothing else. */
  lemma ExemptExactlyWhen(pr: PullRequest)
    ensures Exempt(pr) <==> "release-gate-override" in pr.labels || IsReleaseTitle(Trim(pr.title))
  {
    ReleaseCommitExactlyWhen(Trim(pr.title));
  }
}
