/**
 The command a client's settings point at: printing it, and recognising one that was printed
 by any copy of the program, wherever it was installed.
 */
module HelperCommand {
  import opened Options
  import opened Text

  const SUBCOMMAND := "api"
  const LEGACY_FLAG := "--apiKeyHelper"

  // ----- characters and paths -----

  function Lower(s: string): (t: string)
    ensures |t| == |s|
  {
    seq(|s|, i requires 0 <= i < |s| => if 'A' <= s[i] <= 'Z' then (s[i] as int + 32) as char else s[i])
  }

  /** The part after the last separator of either kind. */
  function LastSegment(p: string): (t: string)
    ensures '/' !in t && '\\' !in t
    ensures |t| <= |p| && t == p[|p| - |t|..]
  {
    if p == [] then []
    else
      var n := |p| - 1;
      if p[n] == '/' || p[n] == '\\' then []
      else
        var rest := LastSegment(p[..n]);
        assert p == p[..n] + [p[n]];
        rest + [p[n]]
  }

  function WithoutExe(s: string): string {
    if |s| >= 4 && s[|s| - 4..] == ".exe" then s[..|s| - 4] else s
  }

  function Basename(p: string): string {
    WithoutExe(Lower(LastSegment(p)))
  }

  predicate IsRuntime(execPath: string) {
    Basename(execPath) == "bun" || Basename(execPath) == "node"
  }

  predicate IsAnchor(token: string) {
    var base := Basename(token);
    base == "maximal" || "maximal-" <= base || base == "main.ts" || base == "main.js"
  }

  // ----- which file names those are -----

  predicate IsSeparator(c: char) {
    c == '/' || c == '\\'
  }

  /** `p` is the file `name` in a directory, or alone. */
  predicate NamesFile(p: string, name: string) {
    && |name| <= |p| && p[|p| - |name|..] == name
    && (forall i :: 0 <= i < |name| ==> !IsSeparator(name[i]))
    && (|name| < |p| ==> IsSeparator(p[|p| - |name| - 1]))
  }

  lemma {:induction false} LastSegmentIsFile(p: string)
    ensures NamesFile(p, LastSegment(p))
  {
    if p != [] && !IsSeparator(p[|p| - 1]) {
      LastSegmentIsFile(p[..|p| - 1]);
    }
  }

  lemma OneFileName(p: string, a: string, b: string)
    requires NamesFile(p, a) && NamesFile(p, b)
    ensures a == b
  {
    if |a| < |b| {
      assert false;
    } else if |b| < |a| {
      assert false;
    }
  }

  /** `t` is `s` with ASCII capitals made small. */
  predicate IsLowerOf(t: string, s: string) {
    |t| == |s| && forall i :: 0 <= i < |s| ==>
      t[i] == if 'A' <= s[i] <= 'Z' then (s[i] as int - 'A' as int + 'a' as int) as char else s[i]
  }

  predicate IsNameOf(t: string, base: string) {
    t == base || t == base + ".exe"
  }

  lemma BaseIs(t: string, base: string)
    requires |base| < 4 || base[|base| - 4] != '.'
    ensures WithoutExe(t) == base <==> IsNameOf(t, base)
  {
    if WithoutExe(t) == base && t != base {
      assert t == t[..|t| - 4] + t[|t| - 4..];
    }
    if t == base + ".exe" {
      assert t[|t| - 4..] == ".exe" && t[..|t| - 4] == base;
    }
    if t == base && |t| >= 4 {
      assert t[|t| - 4..][0] != '.';
    }
  }

  lemma BaseBegins(t: string, prefix: string)
    requires '.' !in prefix
    ensures prefix <= WithoutExe(t) <==> prefix <= t
  {
    if prefix <= t && WithoutExe(t) != t {
      assert t[|t| - 4] == t[|t| - 4..][0] == '.';
      assert |t| - 4 >= |prefix|;
    }
  }

  lemma BasenameOf(path: string, name: string, small: string)
    requires NamesFile(path, name) && IsLowerOf(small, name)
    ensures Basename(path) == WithoutExe(small)
  {
    LastSegmentIsFile(path);
    OneFileName(path, name, LastSegment(path));
    assert small == Lower(name);
  }

  /**
   The launchers that are known: `maximal`, anything that begins with `maximal-`, `main.ts`, `main.js`,
   `bun` and `node`, with or without `.exe`, in any directory and in capitals or not.
   */
  lemma KnownLauncherExactlyWhen(path: string, name: string, small: string)
    requires NamesFile(path, name) && IsLowerOf(small, name)
    ensures IsAnchor(path) <==>
            || IsNameOf(small, "maximal") || "maximal-" <= small
            || IsNameOf(small, "main.ts") || IsNameOf(small, "main.js")
    ensures IsRuntime(path) <==> IsNameOf(small, "bun") || IsNameOf(small, "node")
  {
    hide Basename, WithoutExe, IsNameOf, NamesFile, IsLowerOf;
    BasenameOf(path, name, small);
    BaseIs(small, "maximal");
    BaseIs(small, "main.ts");
    BaseIs(small, "main.js");
    BaseIs(small, "bun");
    BaseIs(small, "node");
    BaseBegins(small, "maximal-");
  }

  // ----- printing -----

  function Quoted(s: string): string {
    "\"" + s + "\""
  }

  function Launcher(execPath: string, mainScript: Option<string>): string {
    if IsRuntime(execPath) && mainScript.Some? && mainScript.value != ""
    then Quoted(execPath) + " " + Quoted(mainScript.value)
    else Quoted(execPath)
  }

  /** A missing label and a blank one print alike. */
  function Trimmed(client: Option<string>): string {
    if client.Some? then Trim(client.value) else ""
  }

  function Command(client: Option<string>, execPath: string, mainScript: Option<string>): string {
    if Trimmed(client) != "" then Launcher(execPath, mainScript) + " " + SUBCOMMAND + " " + Trimmed(client)
    else Launcher(execPath, mainScript) + " " + SUBCOMMAND
  }

  // ----- recognising -----

  /** Where the next quote is, or the length when there is none. */
  function QuoteAt(s: string): (n: nat)
    ensures n <= |s|
    ensures forall i :: 0 <= i < n ==> s[i] != '"'
    ensures n < |s| ==> s[n] == '"'
  {
    if s == [] || s[0] == '"' then 0 else 1 + QuoteAt(s[1..])
  }

  /** How much of `s`, which does not begin with a space, the next match takes: a quoted run, else a word. */
  function MatchLength(s: string): (n: nat)
    requires s != [] && !IsSpace(s[0])
    ensures 0 < n <= |s|
  {
    if s[0] == '"' && QuoteAt(s[1..]) < |s| - 1 then QuoteAt(s[1..]) + 2 else WordLength(s)
  }

  function Unquote(tok: string): (t: string)
    ensures |t| <= |tok| && (|t| == |tok| ==> t == tok)
  {
    if tok != [] && tok[0] == '"' && tok[|tok| - 1] == '"'
    then (if |tok| == 1 then "" else tok[1..|tok| - 1])
    else tok
  }

  function Tokens(s: string): seq<string>
    decreases |s|
  {
    if s == [] then []
    else if IsSpace(s[0]) then Tokens(s[1..])
    else [Unquote(s[..MatchLength(s)])] + Tokens(s[MatchLength(s)..])
  }

  /** What precedes a trailing `subcommand [label]`. */
  function Leading(tokens: seq<string>, subcommand: string, client: string): Option<seq<string>> {
    var n := |tokens|;
    if client != "" then
      if n >= 2 && tokens[n - 2] == subcommand && tokens[n - 1] == client then Some(tokens[..n - 2]) else None
    else if n >= 1 && tokens[n - 1] == subcommand then Some(tokens[..n - 1])
    else None
  }

  predicate InvokesMaximal(leading: seq<string>) {
    leading != [] && ((exists i :: 0 <= i < |leading| && IsAnchor(leading[i])) || IsRuntime(leading[0]))
  }

  predicate OwnedTokens(tokens: seq<string>, w: string) {
    tokens != [] &&
    (|| Leading(tokens, LEGACY_FLAG, w).Some?
     || (Leading(tokens, SUBCOMMAND, w).Some? && InvokesMaximal(Leading(tokens, SUBCOMMAND, w).value)))
  }

  predicate IsOwned(command: string, client: Option<string>) {
    OwnedTokens(Tokens(command), Trimmed(client))
  }

  // ----- tokenizing what was printed -----

  lemma TokensOfQuoted(s: string, rest: string)
    requires '"' !in s && (rest == [] || IsSpace(rest[0]))
    ensures Tokens(Quoted(s) + rest) == [s] + Tokens(rest)
  {
    var text := Quoted(s) + rest;
    QuoteIsAt(text[1..], |s|);
    assert MatchLength(text) == |s| + 2;
    assert text[..|s| + 2] == Quoted(s) && text[|s| + 2..] == rest;
    assert Quoted(s)[1..|s| + 1] == s;
  }

  lemma QuoteIsAt(s: string, n: nat)
    requires n < |s| && s[n] == '"' && forall i :: 0 <= i < n ==> s[i] != '"'
    ensures QuoteAt(s) == n
  {
    if QuoteAt(s) < n {
      assert s[QuoteAt(s)] == '"';
    }
  }

  lemma WordIsLong(s: string, n: nat)
    requires n <= |s| && (n < |s| ==> IsSpace(s[n])) && forall i :: 0 <= i < n ==> !IsSpace(s[i])
    ensures WordLength(s) == n
  {
    assert WordLength(s) < |s| ==> IsSpace(s[WordLength(s)]);
  }

  /** A label that comes back as itself: one word, not read as a quoted run. */
  predicate SelfToken(w: string) {
    && w != "" && (forall i :: 0 <= i < |w| ==> !IsSpace(w[i]))
    && (w[0] == '"' ==> |w| > 1 && '"' !in w[1..])
  }

  /** Printable ASCII without quotes, checked character by character. */
  predicate PlainWord(w: string) {
    w == "" || ('!' <= w[0] <= '~' && w[0] != '"' && PlainWord(w[1..]))
  }

  lemma {:induction false} PlainWordIsSelfToken(w: string)
    requires PlainWord(w) && w != ""
    ensures SelfToken(w)
  {
    if |w| > 1 {
      PlainWordIsSelfToken(w[1..]);
      forall i | 0 <= i < |w|
        ensures !IsSpace(w[i])
      {
        assert i > 0 ==> w[i] == w[1..][i - 1];
      }
    }
  }

  lemma MatchOfWord(w: string, rest: string)
    requires SelfToken(w) && (rest == [] || (IsSpace(rest[0]) && (w[0] == '"' ==> '"' !in rest)))
    ensures MatchLength(w + rest) == |w|
  {
    var text := w + rest;
    WordIsLong(text, |w|);
    if w[0] == '"' {
      assert text[1..] == w[1..] + rest;
      assert '"' !in text[1..];
    }
  }

  lemma UnquotedWord(w: string)
    requires SelfToken(w)
    ensures Unquote(w) == w
  {
    if w[0] == '"' {
      assert w[|w| - 1] == w[1..][|w| - 2];
    }
  }

  lemma TokensOfWord(w: string, rest: string)
    requires SelfToken(w) && (rest == [] || (IsSpace(rest[0]) && (w[0] == '"' ==> '"' !in rest)))
    ensures Tokens(w + rest) == [w] + Tokens(rest)
  {
    var text := w + rest;
    assert !IsSpace(text[0]);
    hide SelfToken, MatchLength, Unquote, IsSpace;
    MatchOfWord(w, rest);
    UnquotedWord(w);
    assert text[..|w|] == w && text[|w|..] == rest;
  }

  lemma {:induction false} TokensFit(s: string, t: string)
    requires t in Tokens(s)
    ensures |t| <= |s|
    ensures t == s ==> SelfToken(s) || s == ""
    decreases |s|
  {
    if s != [] {
      if IsSpace(s[0]) {
        TokensFit(s[1..], t);
      } else {
        var n := MatchLength(s);
        if t == Unquote(s[..n]) {
          if t == s {
            assert s[..n] == s;
            WholeMatchIsSelf(s);
          }
        } else {
          TokensFit(s[n..], t);
        }
      }
    }
  }

  lemma WholeMatchIsSelf(s: string)
    requires s != [] && !IsSpace(s[0]) && MatchLength(s) == |s| && Unquote(s) == s
    ensures SelfToken(s)
  {
    if s[0] == '"' {
      assert QuoteAt(s[1..]) == |s| - 1;
    }
  }

  predicate QuoteFree(execPath: string, mainScript: Option<string>) {
    '"' !in execPath && (mainScript.Some? ==> '"' !in mainScript.value)
  }

  function Leads(execPath: string, mainScript: Option<string>): seq<string> {
    if IsRuntime(execPath) && mainScript.Some? && mainScript.value != ""
    then [execPath, mainScript.value] else [execPath]
  }

  lemma SpaceThen(s: string)
    ensures Tokens(" " + s) == Tokens(s)
  {
    assert (" " + s)[1..] == s;
  }

  lemma Regroup(a: string, b: string, c: string, d: string)
    ensures a + b + c + d == a + (b + (c + d))
  {
  }

  lemma TokensOfTwoQuoted(a: string, b: string, rest: string)
    requires '"' !in a && '"' !in b && (rest == [] || IsSpace(rest[0]))
    ensures Tokens(Quoted(a) + " " + Quoted(b) + rest) == [a, b] + Tokens(rest)
  {
    var tail := Quoted(b) + rest;
    var spaced := " " + tail;
    Regroup(Quoted(a), " ", Quoted(b), rest);
    TokensOfQuoted(a, spaced);
    SpaceThen(tail);
    TokensOfQuoted(b, rest);
  }

  /** Tokenizing a launcher gives back exactly the paths it was printed from. */
  lemma TokensOfLauncher(execPath: string, mainScript: Option<string>, rest: string)
    requires QuoteFree(execPath, mainScript) && (rest == [] || IsSpace(rest[0]))
    ensures Tokens(Launcher(execPath, mainScript) + rest) == Leads(execPath, mainScript) + Tokens(rest)
  {
    var two := IsRuntime(execPath) && mainScript.Some? && mainScript.value != "";
    if two {
      TokensOfTwoQuoted(execPath, mainScript.value, rest);
    } else {
      TokensOfQuoted(execPath, rest);
    }
  }

  /** ` api` and then the label, if there is one. */
  function Trailer(w: string): (t: string)
    ensures t != [] && IsSpace(t[0])
  {
    if w != "" then " " + SUBCOMMAND + " " + w else " " + SUBCOMMAND
  }

  lemma CommandIsLauncherThenTrailer(client: Option<string>, execPath: string, mainScript: Option<string>)
    ensures Command(client, execPath, mainScript) == Launcher(execPath, mainScript) + Trailer(Trimmed(client))
  {
    var l, w := Launcher(execPath, mainScript), Trimmed(client);
    assert l + " " + SUBCOMMAND + " " + w == l + (" " + SUBCOMMAND + " " + w);
    assert l + " " + SUBCOMMAND == l + (" " + SUBCOMMAND);
  }

  lemma TokensOfTrailer(w: string)
    ensures Tokens(Trailer(w)) == [SUBCOMMAND] + Tokens(w)
  {
    var tail := if w != "" then " " + w else "";
    assert Trailer(w) == " " + (SUBCOMMAND + tail);
    PlainWordIsSelfToken(SUBCOMMAND);
    hide Tokens;
    SpaceThen(SUBCOMMAND + tail);
    TokensOfWord(SUBCOMMAND, tail);
    if w != "" {
      SpaceThen(w);
    }
  }

  lemma TokensOfCommand(client: Option<string>, execPath: string, mainScript: Option<string>)
    requires QuoteFree(execPath, mainScript)
    ensures Tokens(Command(client, execPath, mainScript)) ==
            Leads(execPath, mainScript) + ([SUBCOMMAND] + Tokens(Trimmed(client)))
  {
    CommandIsLauncherThenTrailer(client, execPath, mainScript);
    TokensOfLauncher(execPath, mainScript, Trailer(Trimmed(client)));
    TokensOfTrailer(Trimmed(client));
  }

  /** The launched program is one this code knows as its own. */
  predicate KnownLauncher(execPath: string) {
    IsAnchor(execPath) || IsRuntime(execPath)
  }

  lemma LeadsInvoke(execPath: string, mainScript: Option<string>)
    ensures InvokesMaximal(Leads(execPath, mainScript)) <==> KnownLauncher(execPath)
  {
    hide IsAnchor, IsRuntime;
    if IsAnchor(execPath) {
      assert IsAnchor(Leads(execPath, mainScript)[0]);
    }
  }

  /**
   The round trip, exactly: a printed command is recognised under its label if and only if the
   program it launches is known and the label is blank or reads back as a single token.
   */
  lemma PrintedIsOwnedExactlyWhen(client: Option<string>, execPath: string, mainScript: Option<string>)
    requires QuoteFree(execPath, mainScript)
    ensures IsOwned(Command(client, execPath, mainScript), client) <==>
            KnownLauncher(execPath) && (Trimmed(client) == "" || SelfToken(Trimmed(client)))
  {
    TokensOfCommand(client, execPath, mainScript);
    LeadsInvoke(execPath, mainScript);
    TrailerIsOwnedExactlyWhen(Leads(execPath, mainScript), Trimmed(client));
  }

  lemma TrailerIsOwnedExactlyWhen(leads: seq<string>, w: string)
    requires w == "" || !IsSpace(w[0])
    ensures OwnedTokens(leads + ([SUBCOMMAND] + Tokens(w)), w) <==> InvokesMaximal(leads) && (w == "" || SelfToken(w))
  {
    hide OwnedTokens, InvokesMaximal, SelfToken;
    if w == "" {
      BareTrailer(leads);
    } else if SelfToken(w) {
      TokensOfSelf(w);
      LabelledTrailer(leads, w);
    } else {
      ForeignTrailer(leads, w);
    }
  }

  lemma ForeignTrailer(leads: seq<string>, w: string)
    requires w != "" && !IsSpace(w[0]) && !SelfToken(w)
    ensures !OwnedTokens(leads + ([SUBCOMMAND] + Tokens(w)), w)
  {
    hide Tokens, SelfToken, IsSpace;
    assert leads + ([SUBCOMMAND] + Tokens(w)) == leads + [SUBCOMMAND] + Tokens(w);
    NonSelfLabelIsNotLast(w, leads + [SUBCOMMAND]);
  }

  lemma BareTrailer(leads: seq<string>)
    ensures OwnedTokens(leads + ([SUBCOMMAND] + Tokens("")), "") <==> InvokesMaximal(leads)
  {
    var tokens := leads + ([SUBCOMMAND] + Tokens(""));
    hide InvokesMaximal;
    assert tokens[|tokens| - 1] == SUBCOMMAND != LEGACY_FLAG;
    assert tokens[..|tokens| - 1] == leads;
  }

  lemma LabelledTrailer(leads: seq<string>, w: string)
    requires w != ""
    ensures OwnedTokens(leads + ([SUBCOMMAND] + [w]), w) <==> InvokesMaximal(leads)
  {
    var tokens := leads + ([SUBCOMMAND] + [w]);
    hide InvokesMaximal;
    assert tokens[|tokens| - 2] == SUBCOMMAND != LEGACY_FLAG;
    assert tokens[..|tokens| - 2] == leads;
  }

  lemma NonSelfLabelIsNotLast(w: string, before: seq<string>)
    requires w != "" && !IsSpace(w[0]) && !SelfToken(w) && before != []
    ensures var tokens := before + Tokens(w); tokens[|tokens| - 1] != w
  {
    var tokens := before + Tokens(w);
    var last := tokens[|tokens| - 1];
    assert Tokens(w) != [];
    assert last == Tokens(w)[|Tokens(w)| - 1];
    if last == w {
      TokensFit(w, last);
    }
  }

  /** The label this program prints for its client is a single token. */
  lemma ClientLabelReadsBack()
    ensures Trimmed(Some("claude-code")) == "claude-code" && SelfToken("claude-code")
  {
    var a, b := "claude", "-code";
    PlainWordConcat(a, b);
    assert "claude-code" == a + b;
    PlainWordIsSelfToken(a + b);
  }

  /** The legacy flag anchors on its own, whatever program carries it, so old settings can be healed. */
  lemma LegacyFormIsOwned(command: string, execPath: string, w: string)
    requires '"' !in execPath && SelfToken(w)
    requires command == LegacyCommand(execPath, LEGACY_FLAG, w)
    ensures IsOwned(command, Some(w))
  {
    LegacyFlagIsWord();
    TokensOfThree(execPath, LEGACY_FLAG, w);
    LegacyTrailer(execPath, w);
  }

  lemma LegacyFlagIsWord()
    ensures SelfToken(LEGACY_FLAG) && LEGACY_FLAG[0] != '"'
  {
    var a, b := "--apiKe", "yHelper";
    PlainWordConcat(a, b);
    assert LEGACY_FLAG == a + b;
    PlainWordIsSelfToken(a + b);
  }

  lemma {:induction false} PlainWordConcat(a: string, b: string)
    requires PlainWord(a) && PlainWord(b)
    ensures PlainWord(a + b)
  {
    if a == "" {
      assert a + b == b;
    } else {
      assert (a + b)[1..] == a[1..] + b;
      PlainWordConcat(a[1..], b);
    }
  }

  function LegacyCommand(execPath: string, flag: string, w: string): string {
    Quoted(execPath) + (" " + (flag + (" " + w)))
  }

  lemma TokensOfThree(execPath: string, flag: string, w: string)
    requires '"' !in execPath && SelfToken(flag) && flag[0] != '"' && SelfToken(w)
    ensures Tokens(LegacyCommand(execPath, flag, w)) == [execPath] + ([flag] + [w])
  {
    var tail := flag + (" " + w);
    TokensOfQuoted(execPath, " " + tail);
    SpaceThen(tail);
    TokensOfWord(flag, " " + w);
    SpaceThen(w);
    TokensOfSelf(w);
  }

  lemma LegacyTrailer(execPath: string, w: string)
    requires SelfToken(w)
    ensures OwnedTokens([execPath] + ([LEGACY_FLAG] + [w]), w) && Trimmed(Some(w)) == w
  {
    var tokens := [execPath] + ([LEGACY_FLAG] + [w]);
    assert tokens[|tokens| - 2] == LEGACY_FLAG && tokens[|tokens| - 1] == w;
  }

  lemma TokensOfSelf(w: string)
    requires SelfToken(w)
    ensures Tokens(w) == [w]
  {
    TokensOfWord(w, "");
    assert w + "" == w;
  }

  lemma OneTokenIsNotOwned(token: string, w: string)
    requires w != ""
    ensures !OwnedTokens([token], w)
  {
  }

  /** A lone word is nobody's command. */
  lemma LoneWordIsNotOwned(w: string, client: Option<string>)
    requires SelfToken(w) && Trimmed(client) != ""
    ensures !IsOwned(w, client)
  {
    TokensOfSelf(w);
    OneTokenIsNotOwned(w, Trimmed(client));
  }
}
