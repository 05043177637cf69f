/** The changelog: finding whether a version is documented, and inserting an entry for a new one. */
module Changelog {
  import opened Options
  import opened Sequences
  import opened Text

  const ANCHOR := "<!-- releases below"
  const HEADING := "## "

  predicate LineStart(s: string, i: nat)
    requires i <= |s|
  {
    i == 0 || IsLineEnd(s[i - 1])
  }

  /** `s` holds `word` at `i`. */
  predicate HasAt(s: string, i: nat, word: string) {
    i + |word| <= |s| && s[i..i + |word|] == word
  }

  /** A heading of either shape: the linked one, and the unlinked one a first release gets. */
  predicate HeadingAt(s: string, i: nat, version: string)
    requires i <= |s|
  {
    && LineStart(s, i)
    && (|| HasAt(s, i, HEADING + "[" + version + "]")
        || HasAt(s, i, HEADING + version + " ")
        || HasAt(s, i, HEADING + version + "("))
  }

  predicate HasVersion(s: string, version: string) {
    exists i: nat :: i <= |s| && HeadingAt(s, i, version)
  }

  // ----- inserting -----

  /** The end of the line that `i` is in. */
  function LineEnd(s: string, i: nat): (n: nat)
    requires i <= |s|
    ensures i <= n <= |s|
    ensures n < |s| ==> IsLineEnd(s[n])
    ensures forall k :: i <= k < n ==> !IsLineEnd(s[k])
    decreases |s| - i
  {
    if i == |s| || IsLineEnd(s[i]) then i else LineEnd(s, i + 1)
  }

  function AnchorFrom(s: string, i: nat): (a: Option<nat>)
    requires i <= |s|
    ensures a.Some? ==> i <= a.value <= |s| && LineStart(s, a.value) && HasAt(s, a.value, ANCHOR)
    ensures a.Some? ==> forall k: nat :: i <= k < a.value ==> !(LineStart(s, k) && HasAt(s, k, ANCHOR))
    ensures a.None? ==> forall k: nat :: i <= k <= |s| ==> !(LineStart(s, k) && HasAt(s, k, ANCHOR))
    decreases |s| - i
  {
    if LineStart(s, i) && HasAt(s, i, ANCHOR) then Some(i)
    else if i == |s| then None
    else AnchorFrom(s, i + 1)
  }

  function DropNewlines(s: string): (t: string)
    ensures t == [] || t[0] != '\n'
  {
    if s != [] && s[0] == '\n' then DropNewlines(s[1..]) else s
  }

  const GAP := "\n\n"
  const NEWLINE := "\n"

  function Below(entry: string, tail: string): string {
    if Trim(tail) == [] then GAP + (entry + NEWLINE) else GAP + (entry + (GAP + DropNewlines(tail)))
  }

  /** The new text, with the entry right below the anchor; nothing, when the anchor is gone. */
  function Insert(s: string, block: string): Option<string> {
    match AnchorFrom(s, 0)
    case None => None
    case Some(i) =>
      var at := LineEnd(s, i);
      Some(s[..at] + Below(TrimRight(block), s[at..]))
  }

  // ----- what an insertion does to the versions documented -----

  predicate NoLineEnd(w: string) {
    forall i :: 0 <= i < |w| ==> !IsLineEnd(w[i])
  }

  /** The two parts meet at the end of a line. */
  predicate MeetAtLine(a: string, b: string) {
    a == [] || b == [] || IsLineEnd(a[|a| - 1]) || IsLineEnd(b[0])
  }

  lemma HasAtLeft(a: string, b: string, i: nat, word: string)
    requires i + |word| <= |a|
    ensures HasAt(a + b, i, word) <==> HasAt(a, i, word)
  {
    assert (a + b)[i..i + |word|] == a[i..i + |word|];
  }

  lemma HasAtRight(a: string, b: string, i: nat, word: string)
    requires |a| <= i
    ensures HasAt(a + b, i, word) <==> HasAt(b, i - |a|, word)
  {
    if i + |word| <= |a + b| {
      assert (a + b)[i..i + |word|] == b[i - |a|..i - |a| + |word|];
    }
  }

  lemma HasAtChar(s: string, i: nat, word: string, k: nat)
    requires HasAt(s, i, word) && k < |word|
    ensures s[i + k] == word[k]
  {
    assert s[i..i + |word|][k] == s[i + k];
  }

  /** A word without line ends does not lie across the place where two parts meet at a line. */
  lemma HasAtNotAcross(a: string, b: string, i: nat, word: string)
    requires i < |a| < i + |word| && NoLineEnd(word) && MeetAtLine(a, b)
    ensures !HasAt(a + b, i, word)
  {
    var last := |a| - 1 - i;
    if HasAt(a + b, i, word) && (b == [] || IsLineEnd(b[0])) {
      HasAtChar(a + b, i, word, last + 1);
    } else if HasAt(a + b, i, word) {
      HasAtChar(a + b, i, word, last);
    }
  }

  predicate WordAt(s: string, i: nat, word: string)
    requires i <= |s|
  {
    LineStart(s, i) && HasAt(s, i, word)
  }

  /** A line that begins with `word` begins in one part or in the other. */
  lemma LineBegins(a: string, b: string, i: nat, word: string)
    requires i <= |a + b| && word != [] && NoLineEnd(word) && MeetAtLine(a, b)
    ensures WordAt(a + b, i, word) <==>
            if i < |a| then WordAt(a, i, word) else (i == |a| || LineStart(b, i - |a|)) && WordAt(b, i - |a|, word)
  {
    var s := a + b;
    if i < |a| {
      assert i > 0 ==> s[i - 1] == a[i - 1];
      if i + |word| <= |a| {
        HasAtLeft(a, b, i, word);
      } else {
        HasAtNotAcross(a, b, i, word);
      }
    } else {
      HasAtRight(a, b, i, word);
      if i > |a| {
        assert s[i - 1] == b[i - |a| - 1];
      } else if i > 0 {
        assert s[i - 1] == a[|a| - 1];
        if b != [] && HasAt(b, 0, word) {
          assert b[0..|word|][0] == b[0];
        }
      }
    }
  }

  /** The three ways to write a heading. */
  function Shapes(version: string): (words: seq<string>)
    ensures |words| == 3
    ensures NoLineEnd(version) ==> forall k :: 0 <= k < 3 ==> words[k] != [] && NoLineEnd(words[k])
  {
    [HEADING + "[" + version + "]", HEADING + version + " ", HEADING + version + "("]
  }

  lemma HeadingIsAShape(s: string, i: nat, version: string)
    requires i <= |s|
    ensures HeadingAt(s, i, version) <==> exists k :: 0 <= k < 3 && WordAt(s, i, Shapes(version)[k])
  {
    var words := Shapes(version);
    if HeadingAt(s, i, version) {
      assert WordAt(s, i, words[0]) || WordAt(s, i, words[1]) || WordAt(s, i, words[2]);
    }
  }

  ghost predicate Begins(s: string, word: string) {
    exists i: nat :: i <= |s| && WordAt(s, i, word)
  }

  lemma HasVersionByShape(s: string, version: string)
    ensures HasVersion(s, version) <==> exists k :: 0 <= k < 3 && Begins(s, Shapes(version)[k])
  {
    if HasVersion(s, version) {
      var i: nat :| i <= |s| && HeadingAt(s, i, version);
      HeadingIsAShape(s, i, version);
      var k :| 0 <= k < 3 && WordAt(s, i, Shapes(version)[k]);
      assert Begins(s, Shapes(version)[k]);
    }
    if k :| 0 <= k < 3 && Begins(s, Shapes(version)[k]) {
      var i: nat :| i <= |s| && WordAt(s, i, Shapes(version)[k]);
      HeadingIsAShape(s, i, version);
    }
  }

  lemma BeginsConcat(a: string, b: string, word: string)
    requires word != [] && NoLineEnd(word) && MeetAtLine(a, b)
    ensures Begins(a + b, word) <==> Begins(a, word) || Begins(b, word)
  {
    var s := a + b;
    if Begins(s, word) {
      var i: nat :| i <= |s| && WordAt(s, i, word);
      LineBegins(a, b, i, word);
    }
    if Begins(a, word) {
      var i: nat :| i <= |a| && WordAt(a, i, word);
      LineBegins(a, b, i, word);
      assert WordAt(s, i, word);
    }
    if Begins(b, word) {
      var i: nat :| i <= |b| && WordAt(b, i, word);
      LineBegins(a, b, |a| + i, word);
      assert WordAt(s, |a| + i, word);
    }
  }

  /** Text that meets at a line documents what its parts document. */
  lemma HasVersionConcat(a: string, b: string, version: string)
    requires NoLineEnd(version) && MeetAtLine(a, b)
    ensures HasVersion(a + b, version) <==> HasVersion(a, version) || HasVersion(b, version)
  {
    HasVersionByShape(a, version);
    HasVersionByShape(b, version);
    HasVersionByShape(a + b, version);
    var words := Shapes(version);
    forall k | 0 <= k < 3
      ensures Begins(a + b, words[k]) <==> Begins(a, words[k]) || Begins(b, words[k])
    {
      BeginsConcat(a, b, words[k]);
    }
  }

  lemma SpaceBeginsNoHeading(s: string, i: nat, version: string, k: nat)
    requires Blank(s) && i <= |s| && k < 3
    ensures !WordAt(s, i, Shapes(version)[k])
  {
    assert Shapes(version)[k][0] == '#';
    if HasAt(s, i, Shapes(version)[k]) {
      HasAtChar(s, i, Shapes(version)[k], 0);
    }
  }

  lemma SpaceHasNoVersion(s: string, version: string)
    requires Blank(s)
    ensures !HasVersion(s, version)
  {
    forall i: nat | i <= |s|
      ensures !HeadingAt(s, i, version)
    {
      SpaceBeginsNoHeading(s, i, version, 0);
      SpaceBeginsNoHeading(s, i, version, 1);
      SpaceBeginsNoHeading(s, i, version, 2);
      HeadingIsAShape(s, i, version);
    }
  }

  lemma {:induction false} RightTrimmedAway(s: string)
    requires TrimRight(s) == []
    ensures Blank(s)
  {
    if s != [] {
      RightTrimmedAway(s[..|s| - 1]);
      assert s == s[..|s| - 1] + [s[|s| - 1]];
    }
  }

  lemma {:induction false} LeftTrimmedAway(s: string, k: nat)
    requires TrimLeft(s) == [] && k < |s|
    ensures IsSpace(s[k])
    decreases k
  {
    if k > 0 {
      LeftTrimmedAway(s[1..], k - 1);
    }
  }

  lemma TrimmedAwayIsSpace(s: string)
    requires Trim(s) == []
    ensures Blank(s)
  {
    RightTrimmedAway(TrimLeft(s));
    forall k | 0 <= k < |s|
      ensures IsSpace(s[k])
    {
      LeftTrimmedAway(s, k);
    }
  }

  lemma {:induction false} DroppedNewlines(s: string) returns (dropped: string)
    ensures s == dropped + DropNewlines(s) && Blank(dropped)
    ensures dropped == [] || IsLineEnd(dropped[|dropped| - 1])
  {
    if s != [] && s[0] == '\n' {
      var rest := DroppedNewlines(s[1..]);
      dropped := [s[0]] + rest;
      assert s == [s[0]] + s[1..];
      Reassociate([s[0]], rest, DropNewlines(s));
    } else {
      dropped := [];
    }
  }

  lemma BelowDocuments(entry: string, tail: string, version: string)
    requires NoLineEnd(version)
    ensures HasVersion(Below(entry, tail), version) <==> HasVersion(entry, version) || HasVersion(tail, version)
  {
    SpaceHasNoVersion(GAP, version);
    SpaceHasNoVersion(NEWLINE, version);
    if Trim(tail) == [] {
      TrimmedAwayIsSpace(tail);
      SpaceHasNoVersion(tail, version);
      HasVersionConcat(entry, NEWLINE, version);
      HasVersionConcat(GAP, entry + NEWLINE, version);
    } else {
      var dropped := DroppedNewlines(tail);
      SpaceHasNoVersion(dropped, version);
      HasVersionConcat(dropped, DropNewlines(tail), version);
      HasVersionConcat(GAP, DropNewlines(tail), version);
      HasVersionConcat(entry, GAP + DropNewlines(tail), version);
      HasVersionConcat(GAP, entry + (GAP + DropNewlines(tail)), version);
    }
  }

  /** An insertion documents the entry's versions and takes none away; in particular a second run finds its own. */
  lemma InsertDocuments(s: string, block: string, version: string)
    requires NoLineEnd(version) && Insert(s, block).Some?
    ensures HasVersion(Insert(s, block).value, version) <==>
            HasVersion(s, version) || HasVersion(TrimRight(block), version)
  {
    var at := LineEnd(s, AnchorFrom(s, 0).value);
    var head, tail := s[..at], s[at..];
    TwoParts(s, at);
    HasVersionConcat(head, tail, version);
    BelowDocuments(TrimRight(block), tail, version);
    var below := Below(TrimRight(block), tail);
    assert below[0] == '\n';
    HasVersionConcat(head, below, version);
  }

  /** `rest` follows the anchor's line in `s`, after blank lines, and the entry's in `out`. */
  predicate RestKept(s: string, out: string, head: string, entry: string, gap: string, rest: string) {
    Blank(gap) && s == head + (gap + rest) && out == head + (GAP + (entry + (GAP + rest)))
  }

  lemma BelowKeeps(s: string, head: string, tail: string, entry: string)
    requires s == head + tail && Trim(tail) != []
    ensures exists gap, rest :: RestKept(s, head + Below(entry, tail), head, entry, gap, rest)
  {
    var gap := DroppedNewlines(tail);
    assert RestKept(s, head + Below(entry, tail), head, entry, gap, DropNewlines(tail));
  }

  /** The text above and below the new entry is what it was, but for the blank lines between. */
  lemma InsertKeepsTheRest(s: string, block: string)
    requires Insert(s, block).Some?
    ensures var at := LineEnd(s, AnchorFrom(s, 0).value);
            if Trim(s[at..]) == [] then Insert(s, block).value == s[..at] + (GAP + (TrimRight(block) + NEWLINE))
            else exists gap, rest :: RestKept(s, Insert(s, block).value, s[..at], TrimRight(block), gap, rest)
  {
    var at := LineEnd(s, AnchorFrom(s, 0).value);
    var head, tail := s[..at], s[at..];
    if Trim(tail) != [] {
      TwoParts(s, at);
      BelowKeeps(s, head, tail, TrimRight(block));
    }
  }

  datatype Plan = Entry(block: string) | AlreadyThere | Refused

  /** What to do about the changelog: `notes` are what could be rendered from the milestone, if anything. */
  function PlanFor(s: string, version: string, notes: Option<string>): Plan {
    if AnchorFrom(s, 0).None? then Refused
    else if HasVersion(s, version) then AlreadyThere
    else if notes.None? then Refused
    else Entry(notes.value)
  }

  lemma AnchorInHead(head: string, tail: string, below: string, i: nat)
    requires i + |ANCHOR| <= |head| && LineStart(head + tail, i) && HasAt(head + tail, i, ANCHOR)
    ensures AnchorFrom(head + below, 0).Some?
  {
    HasAtLeft(head, tail, i, ANCHOR);
    HasAtLeft(head, below, i, ANCHOR);
    assert i > 0 ==> (head + tail)[i - 1] == head[i - 1] == (head + below)[i - 1];
    assert LineStart(head + below, i) && HasAt(head + below, i, ANCHOR);
  }

  lemma AnchorStays(s: string, block: string)
    requires Insert(s, block).Some?
    ensures AnchorFrom(Insert(s, block).value, 0).Some?
  {
    var i := AnchorFrom(s, 0).value;
    var at := LineEnd(s, i);
    AnchorWithinLine(s, i);
    TwoParts(s, at);
    AnchorInHead(s[..at], s[at..], Below(TrimRight(block), s[at..]), i);
  }

  lemma AnchorWithinLine(s: string, i: nat)
    requires i <= |s| && HasAt(s, i, ANCHOR)
    ensures i + |ANCHOR| <= LineEnd(s, i)
  {
    var n := LineEnd(s, i);
    assert NoLineEnd(ANCHOR);
    if n < i + |ANCHOR| {
      HasAtChar(s, i, ANCHOR, n - i);
    }
  }

  /** Once an entry for the version is in, running again leaves the file exactly as it is. */
  lemma SecondRunLeavesItAlone(s: string, version: string, block: string, notes: Option<string>)
    requires NoLineEnd(version) && PlanFor(s, version, Some(block)) == Entry(block)
    requires HasVersion(TrimRight(block), version)
    ensures Insert(s, block).Some? && PlanFor(Insert(s, block).value, version, notes) == AlreadyThere
  {
    AnchorStays(s, block);
    InsertDocuments(s, block, version);
  }
}
