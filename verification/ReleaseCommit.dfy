/** Recognising the commit a release is cut on, by what its manifest and its subject say. */
module ReleaseCommit {
  import opened Options
  import opened PullRequests
  import opened ReleaseGates
  import opened Sequences
  import opened Text
  import opened Versions

  // ----- the subject of a squash-merged release -----

  function TrailingDigits(s: string): (n: nat)
    ensures n <= |s| && AllDigits(s[|s| - n..])
    ensures n < |s| ==> !IsDigit(s[|s| - n - 1])
  {
    if s == [] || !IsDigit(s[|s| - 1]) then 0
    else
      var front := s[..|s| - 1];
      var n := TrailingDigits(front);
      assert s[|s| - (n + 1)..] == front[|front| - n..] + [s[|s| - 1]];
      n + 1
  }

  /** The subject without a trailing ` (#N)`. */
  function WithoutSquashSuffix(s: string): string {
    if s == [] || s[|s| - 1] != ')' then s
    else
      var t := s[..|s| - 1];
      var n := TrailingDigits(t);
      var u := t[..|t| - n];
      if n > 0 && |u| >= 3 && u[|u| - 1] == '#' && u[|u| - 2] == '(' && IsSpace(u[|u| - 3])
      then TrimRight(u[..|u| - 2])
      else s
  }

  const OPEN := "(#"
  const CLOSE := ")"

  /** `s` is `subject`, or `subject` with the suffix a squash merge adds. */
  ghost predicate SquashOf(s: string, subject: string) {
    s == subject || exists gap, digits :: SquashSuffix(gap, digits) && s == subject + (gap + (OPEN + (digits + CLOSE)))
  }

  predicate SquashSuffix(gap: string, digits: string) {
    gap != [] && Blank(gap) && digits != [] && AllDigits(digits)
  }

  lemma {:induction false} TrimRightOfGap(s: string, gap: string)
    requires s != [] && !IsSpace(s[|s| - 1]) && Blank(gap)
    ensures TrimRight(s + gap) == s
  {
    if gap == [] {
      assert s + gap == s;
    } else {
      assert (s + gap)[..|s + gap| - 1] == s + gap[..|gap| - 1];
      TrimRightOfGap(s, gap[..|gap| - 1]);
    }
  }

  lemma {:induction false} TrimRightLeavesGap(s: string)
    ensures Blank(s[|TrimRight(s)|..]) && TrimRight(s) + s[|TrimRight(s)|..] == s
  {
    if s != [] && IsSpace(s[|s| - 1]) {
      var front := s[..|s| - 1];
      TrimRightLeavesGap(front);
      assert s[|TrimRight(s)|..] == front[|TrimRight(s)|..] + [s[|s| - 1]];
    }
  }

  lemma {:induction false} TrailingDigitsOf(front: string, digits: string)
    requires AllDigits(digits) && (front == [] || !IsDigit(front[|front| - 1]))
    ensures TrailingDigits(front + digits) == |digits|
  {
    if digits == [] {
      assert front + digits == front;
    } else {
      assert (front + digits)[..|front + digits| - 1] == front + digits[..|digits| - 1];
      TrailingDigitsOf(front, digits[..|digits| - 1]);
    }
  }

  /** The suffix `(#N)`, put together from the left as it is read and from the right as it is defined. */
  lemma SuffixAsRead(subject: string, gap: string, open: string, digits: string, close: string)
    ensures subject + gap + open + digits + close == subject + (gap + (open + (digits + close)))
  {
    Reassociate(open, digits, close);
    Reassociate(gap, open + digits, close);
    Reassociate(gap, open, digits);
    Reassociate(subject, gap, open);
    Reassociate(subject, gap + open, digits);
    Reassociate(subject, gap + open + digits, close);
  }

  lemma DropLast(s: string, c: char)
    ensures (s + [c])[..|s + [c]| - 1] == s && (s + [c])[|s + [c]| - 1] == c
  {
  }

  lemma TakeFront(a: string, b: string)
    ensures (a + b)[..|a + b| - |b|] == a && (a + b)[|a + b| - |b|..] == b
  {
  }

  lemma Strips(front: string, digits: string)
    requires front != [] && IsSpace(front[|front| - 1]) && digits != [] && AllDigits(digits)
    ensures WithoutSquashSuffix(front + OPEN + digits + CLOSE) == TrimRight(front)
  {
    var u := front + OPEN;
    DropLast(u + digits, ')');
    TrailingDigitsOf(u, digits);
    TakeFront(u, digits);
    TakeFront(front, OPEN);
    assert u[|u| - 3] == front[|front| - 1];
  }

  lemma SuffixIsStripped(subject: string, gap: string, digits: string)
    requires subject != [] && !IsSpace(subject[|subject| - 1]) && SquashSuffix(gap, digits)
    ensures WithoutSquashSuffix(subject + (gap + (OPEN + (digits + CLOSE)))) == subject
  {
    SuffixAsRead(subject, gap, OPEN, digits, CLOSE);
    assert (subject + gap)[|subject + gap| - 1] == gap[|gap| - 1];
    Strips(subject + gap, digits);
    TrimRightOfGap(subject, gap);
  }

  lemma GapIsThere(front: string)
    requires front != [] && IsSpace(front[|front| - 1])
    ensures front[|TrimRight(front)|..] != []
  {
  }

  lemma SuffixParts(s: string) returns (front: string, digits: string)
    requires WithoutSquashSuffix(s) != s
    ensures s == front + OPEN + digits + CLOSE && WithoutSquashSuffix(s) == TrimRight(front)
    ensures front != [] && IsSpace(front[|front| - 1]) && digits != [] && AllDigits(digits)
  {
    var t := s[..|s| - 1];
    var n := TrailingDigits(t);
    var u := t[..|t| - n];
    front, digits := u[..|u| - 2], t[|t| - n..];
    Rebuilt(s, t, u, front, digits);
  }

  lemma StrippedHadSuffix(s: string)
    requires WithoutSquashSuffix(s) != s
    ensures SquashOf(s, WithoutSquashSuffix(s))
  {
    var front, digits := SuffixParts(s);
    var subject := TrimRight(front);
    var gap := front[|subject|..];
    TrimRightLeavesGap(front);
    GapIsThere(front);
    SuffixAsRead(subject, gap, OPEN, digits, CLOSE);
    assert SquashSuffix(gap, digits);
  }

  lemma Rebuilt(s: string, t: string, u: string, front: string, digits: string)
    requires s != [] && t == s[..|s| - 1] && s[|s| - 1] == ')'
    requires |digits| <= |t| && u == t[..|t| - |digits|] && digits == t[|t| - |digits|..]
    requires |u| >= 2 && front == u[..|u| - 2] && u[|u| - 2] == '(' && u[|u| - 1] == '#'
    ensures s == front + OPEN + digits + CLOSE
  {
    assert u == front + OPEN;
    assert t == u + digits;
  }

  /** The suffix is stripped, and only the suffix. */
  lemma MatchesExactlyWhen(s: string, subject: string)
    requires subject != [] && !IsSpace(subject[|subject| - 1]) && subject[|subject| - 1] != ')'
    ensures WithoutSquashSuffix(s) == subject <==> SquashOf(s, subject)
  {
    if WithoutSquashSuffix(s) == subject && s != subject {
      StrippedHadSuffix(s);
    }
    if SquashOf(s, subject) && s != subject {
      var gap, digits :| SquashSuffix(gap, digits) && s == subject + (gap + (OPEN + (digits + CLOSE)));
      SuffixIsStripped(subject, gap, digits);
    }
  }

  // ----- the two questions asked of the merged commit -----

  /** What a commit says; a commit never changes. */
  datatype Commit = Commit(manifest: Option<string>, subject: string)

  type History = nat -> Commit

  predicate ManifestMatches(tag: string, commit: Commit) {
    commit.manifest.Some? && Trim(commit.manifest.value) == StripV(tag)
  }

  predicate SubjectMatches(tag: string, commit: Commit) {
    WithoutSquashSuffix(Trim(commit.subject)) == ReleaseCommitSubject(tag)
  }

  lemma SubjectEndsInDigit(tag: string)
    requires IsTag(tag)
    ensures var s := ReleaseCommitSubject(tag); s != [] && !IsSpace(s[|s| - 1]) && s[|s| - 1] != ')'
  {
    TripleEndsInDigit(tag[1..]);
    var s := ReleaseCommitSubject(tag);
    assert s[|s| - 1] == tag[|tag| - 1];
    DigitIsSolid(tag[|tag| - 1]);
  }

  lemma DigitIsSolid(c: char)
    requires IsDigit(c)
    ensures !IsSpace(c) && c != ')'
  {
  }

  lemma SubjectMatchesExactlyWhen(tag: string, commit: Commit)
    requires IsTag(tag)
    ensures SubjectMatches(tag, commit) <==> SquashOf(Trim(commit.subject), ReleaseCommitSubject(tag))
  {
    SubjectEndsInDigit(tag);
    MatchesExactlyWhen(Trim(commit.subject), ReleaseCommitSubject(tag));
  }

  lemma ManifestReadsTheTag(tag: string, commit: Commit)
    requires IsTag(tag) && ManifestMatches(tag, commit)
    ensures "v" + Trim(commit.manifest.value) == tag
  {
    assert "v" + tag[1..] == tag;
  }
}
