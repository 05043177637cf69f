/**
 Reassembling a stream into lines, and draining a child's two pipes into a boot part and a log
 part. Chunks are the characters the streaming decoder has produced so far.
 */
module LineStream {
  import opened Sequences
  import opened Text

  // ----- what the lines of a text are -----

  /** Where the first newline is, or the length when there is none. */
  function NewlineAt(s: string): (n: nat)
    ensures n <= |s|
    ensures forall i :: 0 <= i < n ==> s[i] != '\n'
    ensures n < |s| ==> s[n] == '\n'
  {
    if s == [] || s[0] == '\n' then 0 else 1 + NewlineAt(s[1..])
  }

  /** The terminated lines, without their newlines. */
  function Lines(s: string): seq<string>
    decreases |s|
  {
    var n := NewlineAt(s);
    if n == |s| then [] else [s[..n]] + Lines(s[n + 1..])
  }

  /** What follows the last newline. */
  function Rest(s: string): (r: string)
    ensures |r| <= |s| && '\n' !in r
    decreases |s|
  {
    var n := NewlineAt(s);
    if n == |s| then s else Rest(s[n + 1..])
  }

  function Unlines(lines: seq<string>): string {
    if lines == [] then "" else lines[0] + "\n" + Unlines(lines[1..])
  }

  lemma UnlinesHead(line: string, lines: seq<string>)
    ensures Unlines([line] + lines) == line + "\n" + Unlines(lines)
  {
    assert ([line] + lines)[1..] == lines;
  }

  lemma SplitAt(s: string, n: nat)
    requires n < |s| && s[n] == '\n'
    ensures s[..n] + "\n" + s[n + 1..] == s
  {
  }

  /** The lines and the rest are the text: nothing is lost, and no line hides a newline. */
  lemma {:induction false} LinesMean(s: string)
    ensures Unlines(Lines(s)) + Rest(s) == s
    ensures forall l :: l in Lines(s) ==> '\n' !in l
    decreases |s|
  {
    var n := NewlineAt(s);
    if n < |s| {
      var line, tail := s[..n], s[n + 1..];
      LinesMean(tail);
      UnlinesHead(line, Lines(tail));
      Reassociate(line + "\n", Unlines(Lines(tail)), Rest(tail));
      SplitAt(s, n);
    }
  }

  lemma {:induction false} NewlineOfConcat(a: string, b: string)
    ensures NewlineAt(a) < |a| ==> NewlineAt(a + b) == NewlineAt(a)
    ensures NewlineAt(a) == |a| ==> NewlineAt(a + b) == |a| + NewlineAt(b)
  {
    if a == [] {
      assert a + b == b;
    } else if a[0] != '\n' {
      assert (a + b)[1..] == a[1..] + b;
      NewlineOfConcat(a[1..], b);
    }
  }

  lemma LinesStep(s: string, n: nat)
    requires n == NewlineAt(s) < |s|
    ensures Lines(s) == [s[..n]] + Lines(s[n + 1..])
  {
  }

  lemma RestStep(s: string, n: nat)
    requires n == NewlineAt(s) < |s|
    ensures Rest(s) == Rest(s[n + 1..])
  {
  }

  lemma Cut(a: string, b: string, n: nat)
    requires n < |a|
    ensures (a + b)[..n] == a[..n] && (a + b)[n + 1..] == a[n + 1..] + b
  {
  }

  /** Splitting may stop anywhere and go on from what was left over. */
  lemma {:induction false} SplitInParts(a: string, b: string)
    ensures Lines(a + b) == Lines(a) + Lines(Rest(a) + b)
    ensures Rest(a + b) == Rest(Rest(a) + b)
    decreases |a|
  {
    var n := NewlineAt(a);
    if n < |a| {
      var tail := a[n + 1..];
      SplitInParts(tail, b);
      NewlineOfConcat(a, b);
      Cut(a, b, n);
      LinesStep(a, n);
      LinesStep(a + b, n);
      RestStep(a, n);
      RestStep(a + b, n);
      Reassociate([a[..n]], Lines(tail), Lines(Rest(tail) + b));
    }
  }

  function WithoutCr(line: string): string {
    if line != [] && line[|line| - 1] == '\r' then line[..|line| - 1] else line
  }

  function Emitted(lines: seq<string>): (out: seq<string>)
    ensures |out| == |lines| && forall i :: 0 <= i < |lines| ==> out[i] == WithoutCr(lines[i])
  {
    seq(|lines|, i requires 0 <= i < |lines| => WithoutCr(lines[i]))
  }

  lemma EmittedConcat(a: seq<string>, b: seq<string>)
    ensures Emitted(a + b) == Emitted(a) + Emitted(b)
  {
  }

  lemma EmittedCons(line: string, lines: seq<string>)
    ensures Emitted([line] + lines) == [WithoutCr(line)] + Emitted(lines)
  {
  }

  lemma EmittedHead(s: string, n: nat)
    requires n == NewlineAt(s) < |s|
    ensures Emitted(Lines(s)) == [WithoutCr(s[..n])] + Emitted(Lines(s[n + 1..])) && Rest(s) == Rest(s[n + 1..])
  {
    LinesStep(s, n);
    RestStep(s, n);
    EmittedCons(s[..n], Lines(s[n + 1..]));
  }

  /** What one more chunk adds, given only what the earlier text left in the buffer. */
  lemma EmittedInParts(a: string, b: string)
    ensures Emitted(Lines(a + b)) == Emitted(Lines(a)) + Emitted(Lines(Rest(a) + b))
    ensures Rest(a + b) == Rest(Rest(a) + b)
  {
    SplitInParts(a, b);
    EmittedConcat(Lines(a), Lines(Rest(a) + b));
  }

  /** Everything a stream delivers: its lines, and an unterminated end that is not blank. */
  function Delivered(text: string): seq<string> {
    Emitted(Lines(text)) + (if Blank(Rest(text)) then [] else [WithoutCr(Rest(text))])
  }

  function Join(chunks: seq<string>): string {
    if chunks == [] then "" else chunks[0] + Join(chunks[1..])
  }

  lemma {:induction false} JoinSnoc(chunks: seq<string>, c: string)
    ensures Join(chunks + [c]) == Join(chunks) + c
  {
    if chunks == [] {
      assert chunks + [c] == [c];
    } else {
      assert (chunks + [c])[1..] == chunks[1..] + [c];
      JoinSnoc(chunks[1..], c);
      assert chunks[0] + (Join(chunks[1..]) + c) == chunks[0] + Join(chunks[1..]) + c;
    }
  }

  // ----- the ends of lines -----

  /** The text as a Windows writer writes it. */
  function Crlf(s: string): string {
    if s == [] then [] else (if s[0] == '\n' then "\r\n" else [s[0]]) + Crlf(s[1..])
  }

  /** One carriage return is taken off the end of a line, and nothing else. */
  lemma OneCrIsDropped(line: string)
    ensures WithoutCr(line + "\r") == line
    ensures line == "" || line[|line| - 1] != '\r' ==> WithoutCr(line) == line
  {
    assert (line + "\r")[..|line|] == line;
  }

  lemma {:induction false} CrlfBeforeNewline(s: string)
    requires '\r' !in s
    ensures NewlineAt(s) == |s| ==> Crlf(s) == s
    ensures NewlineAt(s) < |s| ==>
              var n := NewlineAt(s); Crlf(s) == s[..n] + ("\r" + ("\n" + Crlf(s[n + 1..])))
  {
    if s != [] && s[0] != '\n' {
      CrlfBeforeNewline(s[1..]);
      var n := NewlineAt(s);
      if n < |s| {
        assert s[..n] == [s[0]] + s[1..][..n - 1];
        assert s[1..][n..] == s[n + 1..];
        Reassociate([s[0]], s[1..][..n - 1], "\r" + ("\n" + Crlf(s[n + 1..])));
      }
    }
  }

  lemma NewlineAfter(line: string, tail: string)
    requires '\n' !in line
    ensures NewlineAt(line + ("\n" + tail)) == |line|
    ensures (line + ("\n" + tail))[..|line|] == line && (line + ("\n" + tail))[|line| + 1..] == tail
  {
    var s := line + ("\n" + tail);
    assert s[|line|] == '\n';
    assert forall i :: 0 <= i < |line| ==> s[i] == line[i];
  }

  /** However its lines end, a text without other carriage returns is delivered alike. */
  lemma {:induction false} CrlfReadsAlike(s: string)
    requires '\r' !in s
    ensures Emitted(Lines(Crlf(s))) == Lines(s) && Rest(Crlf(s)) == Rest(s)
    decreases |s|
  {
    hide Crlf, WithoutCr;
    CrlfBeforeNewline(s);
    var n := NewlineAt(s);
    if n < |s| {
      var line, tail := s[..n], s[n + 1..];
      CrlfReadsAlike(tail);
      Reassociate(line, "\r", "\n" + Crlf(tail));
      NewlineAfter(line + "\r", Crlf(tail));
      EmittedHead(Crlf(s), n + 1);
      OneCrIsDropped(line);
      LinesStep(s, n);
      RestStep(s, n);
    } else {
      NoLines(s);
    }
  }

  lemma NoLines(s: string)
    requires NewlineAt(s) == |s|
    ensures Lines(s) == [] && Emitted(Lines(s)) == [] && Rest(s) == s
  {
  }

  // ----- the splitter -----

  class LineSplitter {
    var buffer: string
    /** What `onLine` has been called with. */
    var emitted: seq<string>

    constructor ()
      ensures buffer == "" && emitted == []
    {
      buffer, emitted := "", [];
    }

    /** The splitter has been given `text` and not yet flushed. */
    predicate Seen(text: string)
      reads this
    {
      buffer == Rest(text) && emitted == Emitted(Lines(text))
    }

    method Push(chunk: string)
      modifies this
      ensures buffer == Rest(old(buffer) + chunk)
      ensures emitted == old(emitted) + Emitted(Lines(old(buffer) + chunk))
    {
      buffer := buffer + chunk;
      ghost var rest, all := Rest(buffer), emitted + Emitted(Lines(buffer));
      var newline := NewlineAt(buffer);
      while newline < |buffer|
        invariant newline == NewlineAt(buffer)
        invariant emitted + Emitted(Lines(buffer)) == all && Rest(buffer) == rest
        decreases |buffer|
      {
        var line := buffer[..newline];
        EmittedHead(buffer, newline);
        Reassociate(emitted, [WithoutCr(line)], Emitted(Lines(buffer[newline + 1..])));
        emitted := emitted + [WithoutCr(line)];
        buffer := buffer[newline + 1..];
        newline := NewlineAt(buffer);
      }
      assert Emitted(Lines(buffer)) == [];
    }

    method Flush()
      modifies this
      ensures buffer == ""
      ensures emitted == old(emitted) + if Blank(old(buffer)) then [] else [WithoutCr(old(buffer))]
    {
      var rest := buffer;
      buffer := "";
      if !Blank(rest) {
        emitted := emitted + [WithoutCr(rest)];
      }
    }

    /** However the text is cut into chunks, what is emitted depends on the text alone. */
    method Consume(chunks: seq<string>)
      requires buffer == "" && emitted == []
      modifies this
      ensures emitted == Delivered(Join(chunks))
    {
      for k := 0 to |chunks|
        invariant Seen(Join(chunks[..k]))
      {
        NextPrefix(chunks, k);
        JoinSnoc(chunks[..k], chunks[k]);
        EmittedInParts(Join(chunks[..k]), chunks[k]);
        Push(chunks[k]);
      }
      WholePrefix(chunks);
      Flush();
    }
  }

  // ----- draining two pipes -----

  datatype Pipe = Stdout | Stderr

  datatype Arrival = Arrival(pipe: Pipe, line: string)

  datatype Data = Chunk(pipe: Pipe, text: string) | End(pipe: Pipe)

  /** The lines that are not ready-lines on stdout, in order. */
  function Kept(arrivals: seq<Arrival>, ready: string -> bool): seq<string> {
    if arrivals == [] then []
    else (if IsBoundary(arrivals[0], ready) then [] else [arrivals[0].line]) + Kept(arrivals[1..], ready)
  }

  predicate IsBoundary(a: Arrival, ready: string -> bool) {
    a.pipe.Stdout? && ready(a.line)
  }

  /** How many lines arrive before the first ready-line on stdout. */
  function BootLength(arrivals: seq<Arrival>, ready: string -> bool): (n: nat)
    ensures n <= |arrivals|
    ensures forall i :: 0 <= i < n ==> !IsBoundary(arrivals[i], ready)
    ensures n < |arrivals| ==> IsBoundary(arrivals[n], ready)
  {
    if arrivals == [] || IsBoundary(arrivals[0], ready) then 0 else 1 + BootLength(arrivals[1..], ready)
  }

  lemma {:induction false} KeptConcat(a: seq<Arrival>, b: seq<Arrival>, ready: string -> bool)
    ensures Kept(a + b, ready) == Kept(a, ready) + Kept(b, ready)
  {
    if a == [] {
      assert a + b == b;
    } else {
      assert (a + b)[1..] == a[1..] + b;
      KeptConcat(a[1..], b, ready);
    }
  }

  lemma {:induction false} BootLengthSnoc(a: seq<Arrival>, x: Arrival, ready: string -> bool)
    ensures BootLength(a + [x], ready) ==
            if BootLength(a, ready) < |a| then BootLength(a, ready)
            else if IsBoundary(x, ready) then |a| else |a| + 1
  {
    if a == [] {
      assert a + [x] == [x];
    } else {
      assert (a + [x])[1..] == a[1..] + [x];
      BootLengthSnoc(a[1..], x, ready);
    }
  }

  /** A growing list of lines, shared by reference. */
  class LineList {
    var lines: seq<string>

    constructor ()
      ensures lines == []
    {
      lines := [];
    }
  }

  class Drain {
    const ready: string -> bool
    const bootLines: LineList
    const logLines: LineList
    var sink: LineList
    var tagged: seq<Arrival>

    /** Boot lines are what was kept before the boundary, log lines what was kept from it on. */
    ghost predicate Valid()
      reads this, bootLines, logLines
    {
      var n := BootLength(tagged, ready);
      && bootLines != logLines
      && sink == (if n < |tagged| then logLines else bootLines)
      && bootLines.lines == Kept(tagged[..n], ready)
      && logLines.lines == Kept(tagged[n..], ready)
    }

    constructor (ready: string -> bool)
      ensures Valid() && tagged == [] && fresh(bootLines) && fresh(logLines) && this.ready == ready
    {
      var boot := new LineList();
      var log := new LineList();
      this.ready := ready;
      bootLines, logLines, sink, tagged := boot, log, boot, [];
    }

    /** `onLine`: record it, then file it, flipping the sink on the ready-line itself. */
    method OnLine(pipe: Pipe, line: string)
      requires Valid()
      modifies this`sink, this`tagged, bootLines, logLines
      ensures Valid() && tagged == old(tagged) + [Arrival(pipe, line)]
    {
      var a := Arrival(pipe, line);
      ghost var before := tagged;
      ghost var n := BootLength(before, ready);
      BootLengthSnoc(before, a, ready);
      KeptConcat(before[n..], [a], ready);
      KeptConcat(before[..n], [a], ready);
      tagged := tagged + [a];
      if pipe.Stdout? && ready(line) {
        sink := logLines;
      } else {
        sink.lines := sink.lines + [line];
      }
      if n < |before| {
        assert tagged[..n] == before[..n] && tagged[n..] == before[n..] + [a];
      } else if IsBoundary(a, ready) {
        assert tagged[..n] == before && tagged[n..] == [a];
        assert before[..n] == before && before[n..] == [];
      } else {
        assert tagged[..n + 1] == before[..n] + [a] && tagged[n + 1..] == [];
        assert before[n..] == [];
      }
    }

    method OnLines(pipe: Pipe, lines: seq<string>)
      requires Valid()
      modifies this`sink, this`tagged, bootLines, logLines
      ensures Valid() && tagged == old(tagged) + Tagged(pipe, lines)
    {
      ghost var was := tagged;
      for k := 0 to |lines|
        invariant Valid() && tagged == was + Tagged(pipe, lines[..k])
      {
        TaggedNext(was, pipe, lines, k);
        if !Blank(lines[k]) {
          OnLine(pipe, lines[k]);
        }
      }
      WholePrefix(lines);
    }

    /** `splitter` has handled this pipe's share of the events so far. */
    predicate Carries(splitter: LineSplitter, events: seq<Data>, pipe: Pipe)
      reads splitter
    {
      && splitter.emitted == Output(events, pipe)
      && (!Ended(events, pipe) ==> splitter.buffer == Rest(TextOf(events, pipe)))
    }

    /** One event of one pipe, through that pipe's splitter and into the sink. */
    method OnData(splitter: LineSplitter, e: Data, ghost before: seq<Data>) returns (lines: seq<string>)
      requires Valid() && Carries(splitter, before, e.pipe) && !Ended(before, e.pipe)
      modifies splitter, this`sink, this`tagged, bootLines, logLines
      ensures Valid() && Carries(splitter, before + [e], e.pipe)
      ensures splitter.emitted == old(splitter.emitted) + lines && lines == Fresh(before, e)
      ensures tagged == old(tagged) + Tagged(e.pipe, lines)
    {
      OutputOfSame(before, e);
      ghost var emitted := splitter.emitted;
      var from := |splitter.emitted|;
      if e.Chunk? {
        splitter.Push(e.text);
      } else {
        splitter.Flush();
      }
      lines := splitter.emitted[from..];
      assert splitter.emitted == emitted + lines;
      OnLines(e.pipe, lines);
    }

    method Deliver(out: LineSplitter, err: LineSplitter, e: Data, ghost before: seq<Data>)
      requires Valid() && out != err && Carries(out, before, Stdout) && Carries(err, before, Stderr)
      requires !Ended(before, e.pipe)
      modifies out, err, this`sink, this`tagged, bootLines, logLines
      ensures Valid() && Carries(out, before + [e], Stdout) && Carries(err, before + [e], Stderr)
      ensures tagged == old(tagged) + Tagged(e.pipe, Fresh(before, e))
    {
      OutputOfOther(before, e);
      var splitter: LineSplitter := if e.pipe.Stdout? then out else err;
      var lines := OnData(splitter, e, before);
    }

    /** The whole life of both pipes, in whatever order their events interleave. */
    method Run(events: seq<Data>)
      requires Valid() && tagged == [] && EndsOnce(events)
      modifies this`sink, this`tagged, bootLines, logLines
      ensures Valid() && tagged == Merged(events)
      ensures FromPipe(tagged, Stdout) == NonBlank(Output(events, Stdout))
      ensures FromPipe(tagged, Stderr) == NonBlank(Output(events, Stderr))
      ensures bootLines.lines + logLines.lines == Kept(tagged, ready)
    {
      var out := new LineSplitter();
      var err := new LineSplitter();
      for k := 0 to |events|
        invariant Valid() && out != err && fresh(out) && fresh(err)
        invariant Carries(out, events[..k], Stdout) && Carries(err, events[..k], Stderr)
        invariant tagged == Merged(events[..k])
      {
        MergedNext(events, k);
        NextPrefix(events, k);
        NotEndedYet(events, k);
        Deliver(out, err, events[k], events[..k]);
      }
      WholePrefix(events);
      EachPipeInOrder(events, Stdout);
      EachPipeInOrder(events, Stderr);
      BothParts();
    }

    lemma BothParts()
      requires Valid()
      ensures bootLines.lines + logLines.lines == Kept(tagged, ready)
    {
      var n := BootLength(tagged, ready);
      KeptConcat(tagged[..n], tagged[n..], ready);
      assert tagged == tagged[..n] + tagged[n..];
    }
  }

  // ----- one pipe's share of the schedule -----

  function Tagged(pipe: Pipe, lines: seq<string>): seq<Arrival> {
    if lines == [] then []
    else (if Blank(lines[0]) then [] else [Arrival(pipe, lines[0])]) + Tagged(pipe, lines[1..])
  }

  lemma {:induction false} TaggedConcat(pipe: Pipe, a: seq<string>, b: seq<string>)
    ensures Tagged(pipe, a + b) == Tagged(pipe, a) + Tagged(pipe, b)
  {
    if a == [] {
      assert a + b == b;
    } else {
      assert (a + b)[1..] == a[1..] + b;
      TaggedConcat(pipe, a[1..], b);
    }
  }

  lemma TaggedNext(was: seq<Arrival>, pipe: Pipe, lines: seq<string>, k: nat)
    requires k < |lines|
    ensures was + Tagged(pipe, lines[..k + 1]) ==
            was + Tagged(pipe, lines[..k]) + if Blank(lines[k]) then [] else [Arrival(pipe, lines[k])]
  {
    NextPrefix(lines, k);
    TaggedConcat(pipe, lines[..k], [lines[k]]);
    assert [lines[k]][1..] == [];
    Reassociate(was, Tagged(pipe, lines[..k]), Tagged(pipe, [lines[k]]));
  }

  function NonBlank(lines: seq<string>): seq<string> {
    if lines == [] then [] else (if Blank(lines[0]) then [] else [lines[0]]) + NonBlank(lines[1..])
  }

  lemma {:induction false} NonBlankConcat(a: seq<string>, b: seq<string>)
    ensures NonBlank(a + b) == NonBlank(a) + NonBlank(b)
  {
    if a == [] {
      assert a + b == b;
    } else {
      assert (a + b)[1..] == a[1..] + b;
      NonBlankConcat(a[1..], b);
    }
  }

  function FromPipe(arrivals: seq<Arrival>, pipe: Pipe): seq<string> {
    if arrivals == [] then []
    else (if arrivals[0].pipe == pipe then [arrivals[0].line] else []) + FromPipe(arrivals[1..], pipe)
  }

  lemma {:induction false} FromPipeConcat(a: seq<Arrival>, b: seq<Arrival>, pipe: Pipe)
    ensures FromPipe(a + b, pipe) == FromPipe(a, pipe) + FromPipe(b, pipe)
  {
    if a == [] {
      assert a + b == b;
    } else {
      assert (a + b)[1..] == a[1..] + b;
      FromPipeConcat(a[1..], b, pipe);
    }
  }

  lemma {:induction false} OnePipeOnly(pipe: Pipe, lines: seq<string>, other: Pipe)
    ensures FromPipe(Tagged(pipe, lines), other) == if pipe == other then NonBlank(lines) else []
  {
    if lines != [] {
      OnePipeOnly(pipe, lines[1..], other);
      FromPipeConcat(if Blank(lines[0]) then [] else [Arrival(pipe, lines[0])], Tagged(pipe, lines[1..]), other);
    }
  }

  lemma FromPipeTagged(arrivals: seq<Arrival>, pipe: Pipe, lines: seq<string>)
    ensures forall other :: FromPipe(arrivals + Tagged(pipe, lines), other) ==
                            FromPipe(arrivals, other) + (if pipe == other then NonBlank(lines) else [])
  {
    forall other
      ensures FromPipe(arrivals + Tagged(pipe, lines), other) ==
              FromPipe(arrivals, other) + (if pipe == other then NonBlank(lines) else [])
    {
      FromPipeConcat(arrivals, Tagged(pipe, lines), other);
      OnePipeOnly(pipe, lines, other);
    }
  }

  /** All the text a pipe has carried. */
  function TextOf(events: seq<Data>, pipe: Pipe): string {
    if events == [] then ""
    else
      var n := |events| - 1;
      TextOf(events[..n], pipe) + (if events[n].Chunk? && events[n].pipe == pipe then events[n].text else "")
  }

  predicate Ended(events: seq<Data>, pipe: Pipe) {
    exists i :: 0 <= i < |events| && events[i] == End(pipe)
  }

  /** A pipe delivers nothing after its end. */
  predicate EndsOnce(events: seq<Data>) {
    forall i, j :: 0 <= i < j < |events| && events[i].End? ==> events[j].pipe != events[i].pipe
  }

  lemma NotEndedYet(events: seq<Data>, k: nat)
    requires EndsOnce(events) && k < |events|
    ensures !Ended(events[..k], events[k].pipe)
  {
  }

  /** What a pipe's text amounts to: all of its lines once it has ended, only the terminated ones before. */
  function Output(events: seq<Data>, pipe: Pipe): seq<string> {
    if Ended(events, pipe) then Delivered(TextOf(events, pipe)) else Emitted(Lines(TextOf(events, pipe)))
  }

  /** The lines that one event completes. */
  function Fresh(before: seq<Data>, e: Data): seq<string> {
    var left := Rest(TextOf(before, e.pipe));
    if e.Chunk? then Emitted(Lines(left + e.text)) else if Blank(left) then [] else [WithoutCr(left)]
  }

  /** Both pipes' lines in the order their events complete them. */
  function Merged(events: seq<Data>): seq<Arrival> {
    if events == [] then []
    else
      var n := |events| - 1;
      Merged(events[..n]) + Tagged(events[n].pipe, Fresh(events[..n], events[n]))
  }

  lemma MergedNext(events: seq<Data>, k: nat)
    requires k < |events|
    ensures Merged(events[..k + 1]) == Merged(events[..k]) + Tagged(events[k].pipe, Fresh(events[..k], events[k]))
  {
    assert events[..k + 1][..k] == events[..k];
  }

  lemma EndedStep(events: seq<Data>, e: Data, pipe: Pipe)
    ensures Ended(events + [e], pipe) <==> Ended(events, pipe) || e == End(pipe)
  {
    var all := events + [e];
    if e == End(pipe) {
      assert all[|events|] == End(pipe);
    }
    if Ended(events, pipe) {
      var i :| 0 <= i < |events| && events[i] == End(pipe);
      assert all[i] == End(pipe);
    }
  }

  lemma TextStep(events: seq<Data>, e: Data, pipe: Pipe)
    ensures TextOf(events + [e], pipe) ==
            TextOf(events, pipe) + (if e.Chunk? && e.pipe == pipe then e.text else "")
  {
    assert (events + [e])[..|events|] == events;
  }

  /** An event of one pipe says nothing about the other. */
  lemma OutputOfOther(events: seq<Data>, e: Data)
    ensures forall pipe :: pipe != e.pipe ==>
              && Output(events + [e], pipe) == Output(events, pipe)
              && TextOf(events + [e], pipe) == TextOf(events, pipe)
              && (Ended(events + [e], pipe) <==> Ended(events, pipe))
  {
    forall pipe | pipe != e.pipe
      ensures Output(events + [e], pipe) == Output(events, pipe)
      ensures TextOf(events + [e], pipe) == TextOf(events, pipe)
      ensures Ended(events + [e], pipe) <==> Ended(events, pipe)
    {
      EndedStep(events, e, pipe);
      TextStep(events, e, pipe);
      assert TextOf(events, pipe) + "" == TextOf(events, pipe);
    }
  }

  lemma OutputOfSame(events: seq<Data>, e: Data)
    requires !Ended(events, e.pipe)
    ensures e.End? ==>
              && Ended(events + [e], e.pipe)
              && Output(events + [e], e.pipe) == Output(events, e.pipe) +
                 (if Blank(Rest(TextOf(events, e.pipe))) then [] else [WithoutCr(Rest(TextOf(events, e.pipe)))])
    ensures e.Chunk? ==>
              && !Ended(events + [e], e.pipe)
              && Output(events + [e], e.pipe)
                 == Output(events, e.pipe) + Emitted(Lines(Rest(TextOf(events, e.pipe)) + e.text))
              && Rest(TextOf(events + [e], e.pipe)) == Rest(Rest(TextOf(events, e.pipe)) + e.text)
  {
    EndedStep(events, e, e.pipe);
    TextStep(events, e, e.pipe);
    if e.Chunk? {
      EmittedInParts(TextOf(events, e.pipe), e.text);
    } else {
      assert TextOf(events, e.pipe) + "" == TextOf(events, e.pipe);
    }
  }

  lemma FreshIsOutput(events: seq<Data>, e: Data)
    requires !Ended(events, e.pipe)
    ensures Output(events + [e], e.pipe) == Output(events, e.pipe) + Fresh(events, e)
  {
    OutputOfSame(events, e);
  }

  /** Of each pipe, the merged record holds the lines of its text that are not blank, in order. */
  lemma {:induction false} EachPipeInOrder(events: seq<Data>, pipe: Pipe)
    requires EndsOnce(events)
    ensures FromPipe(Merged(events), pipe) == NonBlank(Output(events, pipe))
  {
    if events != [] {
      var before, e := events[..|events| - 1], events[|events| - 1];
      assert events == before + [e];
      NotEndedYet(events, |events| - 1);
      EachPipeInOrder(before, pipe);
      FromPipeTagged(Merged(before), e.pipe, Fresh(before, e));
      if e.pipe == pipe {
        FreshIsOutput(before, e);
        NonBlankConcat(Output(before, pipe), Fresh(before, e));
      } else {
        OutputOfOther(before, e);
      }
    }
  }

  // ----- awaitIdentity's report of missed attempts -----

  datatype Missed = Missed(observed: string, first: int, count: nat)

  /** The attempts a collapsed report stands for. */
  function Expanded(missed: seq<Missed>): seq<string> {
    if missed == [] then []
    else
      var n := |missed| - 1;
      Expanded(missed[..n]) + seq(missed[n].count, _ => missed[n].observed)
  }

  function Note(missed: seq<Missed>, observed: string, attempt: int): seq<Missed> {
    var n := |missed|;
    if n > 0 && missed[n - 1].observed == observed
    then missed[n - 1 := missed[n - 1].(count := missed[n - 1].count + 1)]
    else missed + [Missed(observed, attempt, 1)]
  }

  function Total(missed: seq<Missed>): nat {
    if missed == [] then 0 else Total(missed[..|missed| - 1]) + missed[|missed| - 1].count
  }

  lemma {:induction false} TotalIsLength(missed: seq<Missed>)
    ensures Total(missed) == |Expanded(missed)|
  {
    if missed != [] {
      TotalIsLength(missed[..|missed| - 1]);
    }
  }

  /** Entries are maximal runs, numbered by the attempt they begin at. */
  predicate MaximalRuns(missed: seq<Missed>) {
    && (forall i :: 0 <= i < |missed| ==> missed[i].count >= 1 && missed[i].first == Total(missed[..i]) + 1)
    && (forall i :: 0 < i < |missed| ==> missed[i - 1].observed != missed[i].observed)
  }

  lemma NoteExpands(missed: seq<Missed>, observed: string, attempt: int)
    ensures Expanded(Note(missed, observed, attempt)) == Expanded(missed) + [observed]
  {
    var n := |missed|;
    var next := Note(missed, observed, attempt);
    if n > 0 && missed[n - 1].observed == observed {
      var earlier, c := missed[..n - 1], missed[n - 1].count;
      assert next[..n - 1] == earlier;
      assert seq(c + 1, _ => observed) == seq(c, _ => observed) + [observed];
      Reassociate(Expanded(earlier), seq(c, _ => observed), [observed]);
    } else {
      assert next[..n] == missed;
      assert seq(1, _ => observed) == [observed];
    }
  }

  lemma ExtendKeepsRuns(missed: seq<Missed>, n: nat)
    requires MaximalRuns(missed) && n < |missed| && n == |missed| - 1
    ensures MaximalRuns(missed[n := missed[n].(count := missed[n].count + 1)])
  {
    var next := missed[n := missed[n].(count := missed[n].count + 1)];
    forall i | 0 <= i < |next|
      ensures next[i].count >= 1 && next[i].first == Total(next[..i]) + 1
    {
      assert next[..i] == missed[..i];
    }
  }

  lemma BeginKeepsRuns(missed: seq<Missed>, run: Missed)
    requires MaximalRuns(missed) && run.count >= 1 && run.first == Total(missed) + 1
    requires missed != [] ==> missed[|missed| - 1].observed != run.observed
    ensures MaximalRuns(missed + [run])
  {
    hide Total;
    var next := missed + [run];
    forall i | 0 <= i < |next|
      ensures next[i].count >= 1 && next[i].first == Total(next[..i]) + 1
    {
      PrefixOfSnoc(missed, run, i);
    }
  }

  lemma PrefixOfSnoc<T>(s: seq<T>, x: T, i: nat)
    requires i <= |s|
    ensures (s + [x])[..i] == s[..i]
    ensures i == |s| ==> (s + [x])[..i] == s
  {
  }

  lemma NoteKeepsRuns(missed: seq<Missed>, observed: string)
    requires MaximalRuns(missed)
    ensures MaximalRuns(Note(missed, observed, Total(missed) + 1))
  {
    var n := |missed|;
    if n > 0 && missed[n - 1].observed == observed {
      ExtendKeepsRuns(missed, n - 1);
    } else {
      BeginKeepsRuns(missed, Missed(observed, Total(missed) + 1, 1));
    }
  }

  lemma NoteStep(missed: seq<Missed>, observations: seq<string>, k: nat)
    requires k < |observations| && Expanded(missed) == observations[..k] && MaximalRuns(missed)
    ensures Expanded(Note(missed, observations[k], k + 1)) == observations[..k + 1]
    ensures MaximalRuns(Note(missed, observations[k], k + 1))
  {
    NoteExpands(missed, observations[k], k + 1);
    TotalIsLength(missed);
    NoteKeepsRuns(missed, observations[k]);
    NextPrefix(observations, k);
  }

  /** Collapsing runs loses nothing. */
  method Collapse(observations: seq<string>) returns (missed: seq<Missed>)
    ensures Expanded(missed) == observations && MaximalRuns(missed)
  {
    missed := [];
    for k := 0 to |observations|
      invariant Expanded(missed) == observations[..k] && MaximalRuns(missed)
    {
      NoteStep(missed, observations, k);
      missed := Note(missed, observations[k], k + 1);
    }
    WholePrefix(observations);
  }
}
