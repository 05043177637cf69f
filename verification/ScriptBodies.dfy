/** Reading the scripts of a package: the commands that `&&` joins, and which of them are scripts themselves. */
module ScriptBodies {
  import opened Options
  import opened Text

  type Scripts = map<string, string>

  // ----- reading a script body -----

  /** Where the first `&&` is, or the length when there is none. */
  function AndAt(s: string): (n: nat)
    ensures n <= |s|
    ensures n < |s| ==> n + 1 < |s| && s[n] == '&' && s[n + 1] == '&'
  {
    if |s| < 2 then |s|
    else if s[0] == '&' && s[1] == '&' then 0
    else 1 + AndAt(s[1..])
  }

  function SplitAnd(s: string): (parts: seq<string>)
    ensures parts != []
    decreases |s|
  {
    var n := AndAt(s);
    if n == |s| then [s] else [s[..n]] + SplitAnd(s[n + 2..])
  }

  /** Nothing but `&&` may join commands: any other `|`, `;` or `&` is refused. */
  predicate Refused(body: string) {
    exists i, j :: 0 <= i < |SplitAnd(body)| && 0 <= j < |SplitAnd(body)[i]| && SplitAnd(body)[i][j] in "|;&"
  }

  function NonEmptyTrimmed(parts: seq<string>): (members: seq<string>)
    ensures "" !in members
  {
    if parts == [] then []
    else (if Trim(parts[0]) == "" then [] else [Trim(parts[0])]) + NonEmptyTrimmed(parts[1..])
  }

  function Members(body: string): seq<string> {
    NonEmptyTrimmed(SplitAnd(body))
  }

  const BUN_RUN := "bun run "

  function ScriptOf(member: string): Option<string> {
    if BUN_RUN <= member && WordLength(member[|BUN_RUN|..]) > 0
    then Some(member[|BUN_RUN|..][..WordLength(member[|BUN_RUN|..])])
    else None
  }

  /** A member is one command, or a composite script to be expanded in its place. */
  datatype Member = Single(name: string, isScript: bool) | Composite(script: string)

  function MemberOf(scripts: Scripts, text: string): Member {
    match ScriptOf(text)
    case None => Single(text, false)
    case Some(s) => if s in scripts && AndAt(scripts[s]) < |scripts[s]| then Composite(s) else Single(s, true)
  }

  datatype Body = Unreadable | Readable(members: seq<Member>)

  function BodyOf(scripts: Scripts, text: string): Body {
    if Refused(text) then Unreadable
    else
      var texts := Members(text);
      Readable(seq(|texts|, i requires 0 <= i < |texts| => MemberOf(scripts, texts[i])))
  }

  /** Every script as it reads. */
  type Plan = map<string, Body>

  function PlanOf(scripts: Scripts): (plan: Plan)
    ensures plan.Keys == scripts.Keys
    ensures forall s :: s in scripts ==> plan[s] == BodyOf(scripts, scripts[s])
  {
    map s | s in scripts :: BodyOf(scripts, scripts[s])
  }

  // ----- what the reading comes to -----

  predicate AndIsAt(s: string, i: nat) {
    i + 1 < |s| && s[i] == '&' && s[i + 1] == '&'
  }

  ghost predicate HasAnd(s: string) {
    exists i: nat :: AndIsAt(s, i)
  }

  /** The first `&&`, if there is one. */
  lemma {:induction false} AndAtIsFirst(s: string)
    ensures forall i: nat :: AndIsAt(s, i) ==> AndAt(s) <= i
    ensures AndAt(s) < |s| <==> HasAnd(s)
  {
    if AndAt(s) < |s| {
      assert AndIsAt(s, AndAt(s));
    }
    if |s| >= 2 && !AndIsAt(s, 0) {
      AndAtIsFirst(s[1..]);
      forall i: nat | AndIsAt(s, i)
        ensures AndAt(s) <= i
      {
        assert AndIsAt(s[1..], i - 1);
      }
    }
  }

  function Joined(parts: seq<string>): string
    requires parts != []
  {
    if |parts| == 1 then parts[0] else parts[0] + ("&&" + Joined(parts[1..]))
  }

  /** No part contains `&&`, nor does one end in the `&` that an earlier `&&` would have begun with. */
  ghost predicate Proper(parts: seq<string>) {
    && (forall i :: 0 <= i < |parts| ==> !HasAnd(parts[i]))
    && (forall i :: 0 <= i < |parts| - 1 && parts[i] != [] ==> parts[i][|parts[i]| - 1] != '&')
  }

  /** The parts make up the body, and are cut wherever, from the left, there is a `&&`. */
  lemma {:induction false} PartsMakeTheBody(s: string)
    ensures Joined(SplitAnd(s)) == s && Proper(SplitAnd(s))
    decreases |s|
  {
    var n := AndAt(s);
    AndAtIsFirst(s);
    hide HasAnd, Proper, Joined;
    if n < |s| {
      var first, tail := s[..n], s[n + 2..];
      var rest := SplitAnd(tail);
      PartsMakeTheBody(tail);
      BeforeTheFirst(s);
      OnePartMore(first, rest);
      assert s == first + ("&&" + tail);
    } else {
      assert SplitAnd(s) == [s];
      OnePart(s);
    }
  }

  lemma OnePart(s: string)
    requires !HasAnd(s)
    ensures Proper([s]) && Joined([s]) == s
  {
  }

  lemma OnePartMore(first: string, rest: seq<string>)
    requires rest != [] && Proper(rest) && !HasAnd(first) && (first != [] ==> first[|first| - 1] != '&')
    ensures Proper([first] + rest) && Joined([first] + rest) == first + ("&&" + Joined(rest))
  {
    hide HasAnd;
    assert ([first] + rest)[1..] == rest;
  }

  lemma BeforeTheFirst(s: string)
    requires AndAt(s) < |s|
    ensures var first := s[..AndAt(s)]; !HasAnd(first) && (first != [] ==> first[|first| - 1] != '&')
  {
    var n := AndAt(s);
    AndAtIsFirst(s);
    if i: nat :| AndIsAt(s[..n], i) {
      assert AndIsAt(s, i);
    }
    if n > 0 && s[n - 1] == '&' {
      assert AndIsAt(s, n - 1);
    }
  }

  /** There is no other way to cut it so. */
  lemma {:induction false} OnlyOneWay(parts: seq<string>)
    requires parts != [] && Proper(parts)
    ensures SplitAnd(Joined(parts)) == parts
    decreases |parts|
  {
    hide HasAnd, AndAt, SplitAnd;
    if |parts| == 1 {
      AndAtIsFirst(parts[0]);
      Uncut(parts[0]);
      assert parts == [parts[0]];
    } else {
      var tail := Joined(parts[1..]);
      assert Proper(parts[1..]);
      OnlyOneWay(parts[1..]);
      FirstCut(parts[0], tail);
      CutOff(parts[0], tail);
      assert parts == [parts[0]] + parts[1..];
    }
  }

  lemma Uncut(s: string)
    requires AndAt(s) == |s|
    ensures SplitAnd(s) == [s]
  {
  }

  lemma CutOff(first: string, tail: string)
    requires AndAt(first + ("&&" + tail)) == |first|
    ensures SplitAnd(first + ("&&" + tail)) == [first] + SplitAnd(tail)
  {
    hide AndAt;
    var s := first + ("&&" + tail);
    assert s[|first| + 2..] == tail && s[..|first|] == first;
  }

  lemma FirstCut(first: string, tail: string)
    requires !HasAnd(first) && (first != [] ==> first[|first| - 1] != '&')
    ensures AndAt(first + ("&&" + tail)) == |first|
  {
    var s := first + ("&&" + tail);
    AndAtIsFirst(s);
    assert AndIsAt(s, |first|);
    forall i: nat | i < |first|
      ensures !AndIsAt(s, i)
    {
      assert s[i] == first[i] && !AndIsAt(first, i);
    }
    assert AndIsAt(s, AndAt(s));
  }

  // ----- what is refused -----

  /** A run of `&`, with something else or nothing on either side. */
  predicate AmpersandRun(s: string, i: nat, j: nat) {
    && i < j <= |s| && (forall k :: i <= k < j ==> s[k] == '&')
    && (i > 0 ==> s[i - 1] != '&') && (j < |s| ==> s[j] != '&')
  }

  ghost predicate OddRun(s: string) {
    exists i: nat, j: nat :: AmpersandRun(s, i, j) && (j - i) % 2 == 1
  }

  predicate Stray(s: string) {
    exists j :: 0 <= j < |s| && s[j] in "|;&"
  }

  lemma LoneIsOdd(s: string, p: nat, n: nat)
    requires p < n <= |s| && s[p] == '&' && forall i: nat :: i < n ==> !AndIsAt(s, i)
    requires n < |s| ==> AndIsAt(s, n)
    ensures OddRun(s)
  {
    assert !AndIsAt(s, p);
    assert p > 0 ==> !AndIsAt(s, p - 1);
    assert AmpersandRun(s, p, p + 1);
  }

  lemma NoAndNoRuns(s: string)
    requires !HasAnd(s)
    ensures OddRun(s) <==> '&' in s
  {
    if '&' in s {
      var p :| 0 <= p < |s| && s[p] == '&';
      LoneIsOdd(s, p, |s|);
    }
    if OddRun(s) {
      var i: nat, j: nat :| AmpersandRun(s, i, j) && (j - i) % 2 == 1;
      assert s[i] == '&';
    }
  }

  lemma RunBeyond(s: string, n: nat, i: nat, j: nat)
    requires AndIsAt(s, n) && AmpersandRun(s, i, j) && i >= n && (j - i) % 2 == 1
    ensures OddRun(s[n + 2..])
  {
    var t := s[n + 2..];
    if i == n {
      assert AmpersandRun(t, 0, j - n - 2);
    } else {
      assert s[i - 1] != '&';
      assert AmpersandRun(t, i - n - 2, j - n - 2);
    }
  }

  lemma RunBefore(s: string, n: nat, i: nat, j: nat)
    requires AndIsAt(s, n) && (n > 0 ==> s[n - 1] != '&')
    requires AmpersandRun(s[n + 2..], i, j) && (j - i) % 2 == 1
    ensures OddRun(s)
  {
    var t := s[n + 2..];
    var from := if i == 0 then n else i + n + 2;
    forall k | from <= k < j + n + 2
      ensures s[k] == '&'
    {
      if k >= n + 2 {
        assert t[k - n - 2] == s[k];
      }
    }
    assert i > 0 ==> s[i + n + 1] == t[i - 1];
    assert j < |t| ==> s[j + n + 2] == t[j];
    assert AmpersandRun(s, from, j + n + 2);
  }

  /** A run of `&` is odd somewhere if and only if it is before the first `&&` or in what follows that. */
  lemma RunsAround(s: string)
    requires HasAnd(s)
    ensures OddRun(s) <==> '&' in s[..AndAt(s)] || OddRun(s[AndAt(s) + 2..])
  {
    var n := AndAt(s);
    AndAtIsFirst(s);
    assert AndIsAt(s, n);
    assert n > 0 ==> !AndIsAt(s, n - 1);
    if OddRun(s) {
      var i: nat, j: nat :| AmpersandRun(s, i, j) && (j - i) % 2 == 1;
      if i < n {
        assert s[..n][i] == '&';
      } else {
        RunBeyond(s, n, i, j);
      }
    }
    if '&' in s[..n] {
      var p :| 0 <= p < n && s[..n][p] == '&';
      LoneIsOdd(s, p, n);
    }
    if OddRun(s[n + 2..]) {
      var i: nat, j: nat :| AmpersandRun(s[n + 2..], i, j) && (j - i) % 2 == 1;
      RunBefore(s, n, i, j);
    }
  }

  predicate SomeStray(parts: seq<string>) {
    exists i :: 0 <= i < |parts| && Stray(parts[i])
  }

  /** Refused is a `|`, a `;`, or an odd number of `&` in a row. */
  lemma {:induction false} RefusedExactlyWhen(s: string)
    ensures Refused(s) <==> '|' in s || ';' in s || OddRun(s)
    decreases |s|
  {
    var parts := SplitAnd(s);
    assert Refused(s) <==> SomeStray(parts);
    var n := AndAt(s);
    AndAtIsFirst(s);
    if n == |s| {
      NoAndNoRuns(s);
      assert parts == [s];
      assert SomeStray(parts) <==> Stray(s) by {
        assert parts[0] == s;
      }
      StrayMeans(s);
    } else {
      var first, tail := s[..n], s[n + 2..];
      RefusedExactlyWhen(tail);
      RunsAround(s);
      StrayMeans(first);
      assert SomeStray(SplitAnd(tail)) <==> Refused(tail);
      StrayOfCons(first, SplitAnd(tail));
      assert s == first + "&&" + tail;
      assert forall c :: c in s <==> c in first || c == '&' || c in tail;
    }
  }

  lemma StrayMeans(s: string)
    ensures Stray(s) <==> '|' in s || ';' in s || '&' in s
  {
  }

  lemma StrayOfCons(first: string, rest: seq<string>)
    ensures SomeStray([first] + rest) <==> Stray(first) || SomeStray(rest)
  {
    var all := [first] + rest;
    assert all[0] == first && forall i :: 0 <= i < |rest| ==> all[i + 1] == rest[i];
  }

  // ----- the members -----

  /** `idx` picks parts in order, and trimmed they are `members`. */
  predicate PicksSome(parts: seq<string>, idx: seq<nat>, members: seq<string>) {
    && |idx| == |members|
    && (forall k :: 0 <= k < |idx| ==>
          idx[k] < |parts| && members[k] == Trim(parts[idx[k]]) && !Blank(parts[idx[k]]))
    && (forall k, l :: 0 <= k < l < |idx| ==> idx[k] < idx[l])
  }

  /** It picks every part that is not blank. */
  predicate PicksAll(parts: seq<string>, idx: seq<nat>) {
    forall i :: 0 <= i < |parts| && !Blank(parts[i]) ==> i in idx
  }

  function Later(idx: seq<nat>): (out: seq<nat>)
    ensures |out| == |idx| && forall k :: 0 <= k < |idx| ==> out[k] == idx[k] + 1
  {
    seq(|idx|, k requires 0 <= k < |idx| => idx[k] + 1)
  }

  lemma LaterPicks(part: string, parts: seq<string>, idx: seq<nat>, members: seq<string>)
    requires PicksSome(parts, idx, members)
    ensures PicksSome([part] + parts, Later(idx), members)
  {
    hide Blank, Trim;
  }

  lemma FirstPicks(part: string, parts: seq<string>, idx: seq<nat>, members: seq<string>)
    requires PicksSome(parts, idx, members) && 0 !in idx && parts != [] && parts[0] == part && !Blank(part)
    ensures PicksSome(parts, [0] + idx, [Trim(part)] + members)
  {
    hide Blank, Trim;
  }

  lemma LaterPicksAll(part: string, parts: seq<string>, idx: seq<nat>)
    requires PicksAll(parts, idx)
    ensures PicksAll([part] + parts, [0] + Later(idx))
    ensures Blank(part) ==> PicksAll([part] + parts, Later(idx))
  {
    hide Blank;
    var all, more := [part] + parts, Later(idx);
    forall i | 0 < i < |all| && !Blank(all[i])
      ensures i in more && i in [0] + more
    {
      assert all[i] == parts[i - 1];
      var k :| 0 <= k < |idx| && idx[k] == i - 1;
      assert more[k] == i;
    }
    assert ([0] + more)[0] == 0;
  }

  /** The members are the parts that are not blank, trimmed and in order. */
  lemma {:induction false} NonEmptyTrimmedPicks(parts: seq<string>) returns (idx: seq<nat>)
    ensures PicksSome(parts, idx, NonEmptyTrimmed(parts)) && PicksAll(parts, idx)
  {
    if parts == [] {
      idx := [];
    } else {
      var part, tail := parts[0], parts[1..];
      var rest := NonEmptyTrimmedPicks(tail);
      assert parts == [part] + tail;
      TrimIsEmpty(part);
      LaterPicks(part, tail, rest, NonEmptyTrimmed(tail));
      LaterPicksAll(part, tail, rest);
      if Blank(part) {
        idx := Later(rest);
        assert [] + NonEmptyTrimmed(tail) == NonEmptyTrimmed(tail);
      } else {
        FirstPicks(part, parts, Later(rest), NonEmptyTrimmed(tail));
        idx := [0] + Later(rest);
      }
    }
  }

  lemma MembersAreTheParts(body: string) returns (idx: seq<nat>)
    ensures PicksSome(SplitAnd(body), idx, Members(body)) && PicksAll(SplitAnd(body), idx)
  {
    idx := NonEmptyTrimmedPicks(SplitAnd(body));
  }

  /** `text` is `bun run`, one blank, and the word `script`, up to a blank or the end. */
  predicate RunsScript(text: string, script: string) {
    && script != [] && (forall i :: 0 <= i < |script| ==> !IsSpace(script[i]))
    && BUN_RUN + script <= text
    && var rest := text[|BUN_RUN| + |script|..]; rest == [] || IsSpace(rest[0])
  }

  lemma ScriptOfExactlyWhen(text: string, script: string)
    ensures ScriptOf(text) == Some(script) <==> RunsScript(text, script)
  {
    var tail := if BUN_RUN <= text then text[|BUN_RUN|..] else "";
    if RunsScript(text, script) {
      assert BUN_RUN <= text;
      assert tail[..|script|] == script;
      assert tail[|script|..] == text[|BUN_RUN| + |script|..];
      WordIs(tail, script);
    }
    if ScriptOf(text) == Some(script) {
      assert text == BUN_RUN + script + tail[|script|..];
    }
  }

  lemma WordIs(s: string, word: string)
    requires word <= s && (forall i :: 0 <= i < |word| ==> !IsSpace(word[i]))
    requires |word| < |s| ==> IsSpace(s[|word|])
    ensures WordLength(s) == |word|
  {
    assert WordLength(s) < |s| ==> IsSpace(s[WordLength(s)]);
  }

  /** A member is expanded exactly when it runs a script that is itself joined by `&&`. */
  lemma MemberOfExactlyWhen(scripts: Scripts, text: string, script: string)
    ensures MemberOf(scripts, text) == Composite(script) <==>
            RunsScript(text, script) && script in scripts && HasAnd(scripts[script])
    ensures MemberOf(scripts, text) == Single(script, true) <==>
            RunsScript(text, script) && !(script in scripts && HasAnd(scripts[script]))
    ensures MemberOf(scripts, text).Single? && !MemberOf(scripts, text).isScript ==>
            MemberOf(scripts, text).name == text && !RunsScript(text, script)
  {
    ScriptOfExactlyWhen(text, script);
    if script in scripts {
      AndAtIsFirst(scripts[script]);
    }
    if ScriptOf(text).Some? {
      ScriptOfExactlyWhen(text, ScriptOf(text).value);
    }
  }
}
