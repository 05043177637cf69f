/**
 Matching the replies of a QMP monitor to the requests that asked for them: a queue of waiting
 requests, fed from a socket whose text arrives in arbitrary chunks. A command's number is its
 place among the commands written; the monitor answers in order, so reply `k` is what command
 `k` asked for.
 */
module QmpReplies {
  import LineStream
  import Text

  datatype Parsed = Malformed | Notice | Reply(body: string)

  datatype Command = Ask | Send

  datatype Outcome = Answered(body: string) | TimedOut

  /** Reply number `reply` was given to the request made by command `request`. */
  datatype Handing = Handing(reply: nat, request: nat)

  datatype State = State(
    buf: string,
    waiting: seq<nat>,
    outcome: map<nat, Outcome>,
    commands: seq<Command>,
    received: seq<string>,
    handed: seq<Handing>
  )

  datatype Event = Data(chunk: string) | Write(command: Command) | Expire(request: nat)

  const Start := State("", [], map[], [], [], [])

  /** The replies among some lines: blank lines, unreadable ones and notices are passed over. */
  function Replies(lines: seq<string>, parse: string -> Parsed): seq<string> {
    if lines == [] then []
    else ReplyIn(lines[0], parse) + Replies(lines[1..], parse)
  }

  function ReplyIn(line: string, parse: string -> Parsed): seq<string> {
    if Text.Blank(line) then []
    else match parse(line)
      case Reply(body) => [body]
      case _ => []
  }

  lemma {:induction false} RepliesConcat(a: seq<string>, b: seq<string>, parse: string -> Parsed)
    ensures Replies(a + b, parse) == Replies(a, parse) + Replies(b, parse)
  {
    if a == [] {
      assert a + b == b;
    } else {
      assert (a + b)[1..] == a[1..] + b;
      RepliesConcat(a[1..], b, parse);
    }
  }

  /** `waiting.shift()?.(parsed)`; settling a request that has timed out changes nothing. */
  function Take(s: State, body: string): State {
    var t := s.(received := s.received + [body]);
    if s.waiting == [] then t
    else
      var r := s.waiting[0];
      t.(waiting := s.waiting[1..],
         handed := s.handed + [Handing(|s.received|, r)],
         outcome := if r in s.outcome then s.outcome else s.outcome[r := Answered(body)])
  }

  function TakeAll(s: State, bodies: seq<string>): State
    decreases |bodies|
  {
    if bodies == [] then s else TakeAll(Take(s, bodies[0]), bodies[1..])
  }

  function Step(s: State, e: Event, parse: string -> Parsed): State {
    match e
    case Data(chunk) =>
      var text := s.buf + chunk;
      TakeAll(s.(buf := LineStream.Rest(text)), Replies(LineStream.Lines(text), parse))
    case Write(Ask) => s.(commands := s.commands + [Ask], waiting := s.waiting + [|s.commands|])
    case Write(Send) => s.(commands := s.commands + [Send])
    case Expire(r) =>
      if r < |s.commands| && s.commands[r].Ask? && r !in s.outcome
      then s.(outcome := s.outcome[r := TimedOut])
      else s
  }

  /** Events are folded from the left, so a run can be followed step by step. */
  function Run(events: seq<Event>, parse: string -> Parsed): State {
    if events == [] then Start
    else Step(Run(events[..|events| - 1], parse), events[|events| - 1], parse)
  }

  function TextOf(events: seq<Event>): string {
    if events == [] then ""
    else TextOf(events[..|events| - 1]) + TextIn(events[|events| - 1])
  }

  function TextIn(e: Event): string {
    if e.Data? then e.chunk else ""
  }

  function CommandsOf(events: seq<Event>): seq<Command> {
    if events == [] then []
    else
      CommandsOf(events[..|events| - 1])
      + (if events[|events| - 1].Write? then [events[|events| - 1].command] else [])
  }

  // ----- what arrives does not depend on the chunks -----

  lemma {:induction false} TakeAllReceives(s: State, bodies: seq<string>)
    ensures TakeAll(s, bodies).received == s.received + bodies
    ensures TakeAll(s, bodies).buf == s.buf && TakeAll(s, bodies).commands == s.commands
    decreases |bodies|
  {
    if bodies != [] {
      TakeAllReceives(Take(s, bodies[0]), bodies[1..]);
      assert bodies == [bodies[0]] + bodies[1..];
    }
  }

  lemma DataArrives(s: State, text: string, chunk: string, parse: string -> Parsed)
    requires s.received == Replies(LineStream.Lines(text), parse) && s.buf == LineStream.Rest(text)
    ensures var t := Step(s, Data(chunk), parse);
            && t.received == Replies(LineStream.Lines(text + chunk), parse)
            && t.buf == LineStream.Rest(text + chunk) && t.commands == s.commands
  {
    var lines := LineStream.Lines(s.buf + chunk);
    LineStream.SplitInParts(text, chunk);
    RepliesConcat(LineStream.Lines(text), lines, parse);
    TakeAllReceives(s.(buf := LineStream.Rest(s.buf + chunk)), Replies(lines, parse));
  }

  /** The replies in the text so far have all been taken, and the buffer holds what follows its last newline. */
  predicate Caught(s: State, text: string, parse: string -> Parsed) {
    s.received == Replies(LineStream.Lines(text), parse) && s.buf == LineStream.Rest(text)
  }

  lemma EventArrives(s: State, text: string, e: Event, parse: string -> Parsed)
    requires Caught(s, text, parse)
    ensures Caught(Step(s, e, parse), text + TextIn(e), parse)
  {
    if e.Data? {
      DataArrives(s, text, e.chunk, parse);
    } else {
      assert text + "" == text;
    }
  }

  /** The replies received are those in the text, however it was cut and whatever came between. */
  lemma {:induction false} ChunksDoNotMatter(events: seq<Event>, parse: string -> Parsed)
    ensures Caught(Run(events, parse), TextOf(events), parse)
  {
    if events != [] {
      ChunksDoNotMatter(events[..|events| - 1], parse);
      EventArrives(Run(events[..|events| - 1], parse), TextOf(events[..|events| - 1]), events[|events| - 1], parse);
    }
  }

  lemma {:induction false} CommandsAreThoseWritten(events: seq<Event>, parse: string -> Parsed)
    ensures Run(events, parse).commands == CommandsOf(events)
  {
    if events != [] {
      var s, e := Run(events[..|events| - 1], parse), events[|events| - 1];
      CommandsAreThoseWritten(events[..|events| - 1], parse);
      if e.Data? {
        TakeAllReceives(s.(buf := LineStream.Rest(s.buf + e.chunk)), Replies(LineStream.Lines(s.buf + e.chunk), parse));
      }
    }
  }

  // ----- who gets which reply -----

  /** The monitor never answers a command before it was written. */
  ghost predicate Honest(events: seq<Event>, parse: string -> Parsed) {
    forall n :: 0 <= n <= |events| ==> AnswersWhatWasWritten(Run(events[..n], parse))
  }

  predicate AnswersWhatWasWritten(s: State) {
    |s.received| <= |s.commands|
  }

  /** The requests among the commands from number `from` on. */
  function Unanswered(commands: seq<Command>, from: nat): seq<nat>
    decreases |commands| - from
  {
    if from >= |commands| then []
    else (if commands[from].Ask? then [from] else []) + Unanswered(commands, from + 1)
  }

  lemma {:induction false} UnansweredSnoc(commands: seq<Command>, c: Command, from: nat)
    requires from <= |commands|
    ensures Unanswered(commands + [c], from) == Unanswered(commands, from) + if c.Ask? then [|commands|] else []
    decreases |commands| - from
  {
    if from < |commands| {
      UnansweredSnoc(commands, c, from + 1);
    } else {
      assert Unanswered(commands + [c], from + 1) == [];
    }
  }

  /** A reply to a plain `send` reached some request. */
  predicate Stolen(s: State) {
    exists i :: 0 <= i < |s.handed| && s.handed[i].reply < |s.commands| && s.commands[s.handed[i].reply].Send?
  }

  predicate EachToItsOwn(s: State) {
    forall i :: 0 <= i < |s.handed| ==> s.handed[i].reply == s.handed[i].request
  }

  /** Every handed reply and every waiting request are ones that exist. */
  ghost predicate Sane(s: State) {
    && |s.received| <= |s.commands|
    && (forall i :: 0 <= i < |s.handed| ==>
          && s.handed[i].reply < |s.received| && s.handed[i].request < |s.commands|
          && s.commands[s.handed[i].request].Ask?)
    && (forall i :: 0 <= i < |s.waiting| ==> s.waiting[i] < |s.commands| && s.commands[s.waiting[i]].Ask?)
  }

  /** While no reply has gone astray the waiting requests are exactly the unanswered ones. */
  ghost predicate InStep(s: State) {
    Sane(s) && (!Stolen(s) ==> EachToItsOwn(s) && s.waiting == Unanswered(s.commands, |s.received|))
  }

  lemma StolenStays(s: State, t: State)
    requires s.handed <= t.handed && s.commands == t.commands
    ensures Stolen(s) ==> Stolen(t)
  {
    if Stolen(s) {
      var i :| 0 <= i < |s.handed| && s.handed[i].reply < |s.commands| && s.commands[s.handed[i].reply].Send?;
      assert t.handed[i] == s.handed[i];
    }
  }

  lemma TakeKeepsInStep(s: State, body: string)
    requires InStep(s) && |s.received| < |s.commands|
    ensures InStep(Take(s, body))
  {
    var t := Take(s, body);
    if s.waiting != [] {
      assert t.handed[..|s.handed|] == s.handed;
      var last := t.handed[|s.handed|];
      if !Stolen(t) {
        StolenStays(s, t);
        assert s.commands[last.reply].Ask?;
      }
    }
  }

  lemma {:induction false} TakeAllKeepsInStep(s: State, bodies: seq<string>)
    requires InStep(s) && |s.received| + |bodies| <= |s.commands|
    ensures InStep(TakeAll(s, bodies))
    decreases |bodies|
  {
    if bodies != [] {
      TakeKeepsInStep(s, bodies[0]);
      TakeAllKeepsInStep(Take(s, bodies[0]), bodies[1..]);
    }
  }

  lemma WriteKeepsInStep(s: State, c: Command, parse: string -> Parsed)
    requires InStep(s)
    ensures InStep(Step(s, Write(c), parse))
  {
    UnansweredSnoc(s.commands, c, |s.received|);
    var t := Step(s, Write(c), parse);
    assert Stolen(t) <==> Stolen(s) by {
      assert t.handed == s.handed;
      assert forall k :: 0 <= k < |s.commands| ==> t.commands[k] == s.commands[k];
    }
  }

  lemma {:induction false} RunKeepsInStep(events: seq<Event>, parse: string -> Parsed)
    requires Honest(events, parse)
    ensures InStep(Run(events, parse))
  {
    if events != [] {
      var before, e := events[..|events| - 1], events[|events| - 1];
      HonestBefore(events, parse);
      RunKeepsInStep(before, parse);
      var s := Run(before, parse);
      assert events[..|events|] == events;
      assert AnswersWhatWasWritten(Run(events, parse));
      match e {
        case Data(chunk) =>
          var bodies := Replies(LineStream.Lines(s.buf + chunk), parse);
          var t := s.(buf := LineStream.Rest(s.buf + chunk));
          TakeAllReceives(t, bodies);
          TakeAllKeepsInStep(t, bodies);
        case Write(c) => WriteKeepsInStep(s, c, parse);
        case Expire(r) =>
      }
    }
  }

  /** While in step, replies go to the requests they answer exactly as long as none has been stolen. */
  lemma OwnExactlyWhenNotStolen(s: State)
    requires InStep(s)
    ensures EachToItsOwn(s) <==> !Stolen(s)
  {
    if Stolen(s) {
      var i :| 0 <= i < |s.handed| && s.handed[i].reply < |s.commands| && s.commands[s.handed[i].reply].Send?;
      assert s.handed[i].reply != s.handed[i].request;
    }
  }

  // ----- said of the schedule alone -----

  /** How many replies have come in whole lines. */
  function Arrived(events: seq<Event>, parse: string -> Parsed): nat {
    |Replies(LineStream.Lines(TextOf(events)), parse)|
  }

  /** Among replies `from` up to `upTo`, one is to a plain `send` that was written before some request. */
  ghost predicate SendBeforeAsk(commands: seq<Command>, from: nat, upTo: nat) {
    exists k, a :: from <= k < upTo && k < a < |commands| && commands[k].Send? && commands[a].Ask?
  }

  /** A request is made while an earlier plain `send` is still unanswered, and that answer does come. */
  ghost predicate Overtaken(events: seq<Event>, parse: string -> Parsed) {
    exists n :: 0 <= n <= |events|
      && SendBeforeAsk(CommandsOf(events[..n]), Arrived(events[..n], parse), Arrived(events, parse))
  }

  lemma {:induction false} UnansweredExists(commands: seq<Command>, from: nat)
    ensures Unanswered(commands, from) != [] <==> exists a :: from <= a < |commands| && commands[a].Ask?
    decreases |commands| - from
  {
    if from < |commands| {
      assert (exists a :: from <= a < |commands| && commands[a].Ask?) <==>
             commands[from].Ask? || exists a :: from + 1 <= a < |commands| && commands[a].Ask?;
      UnansweredExists(commands, from + 1);
    }
  }

  /** Taking one more reply steals exactly when it answers a `send` and a request is waiting. */
  lemma TakeSteals(s: State, body: string)
    requires InStep(s) && |s.received| < |s.commands| && !Stolen(s)
    ensures Stolen(Take(s, body)) <==> SendBeforeAsk(s.commands, |s.received|, |s.received| + 1)
  {
    var t, k := Take(s, body), |s.received|;
    UnansweredExists(s.commands, k);
    if s.waiting != [] {
      assert t.handed[|s.handed|] == Handing(k, s.waiting[0]);
      if Stolen(t) {
        var i :| 0 <= i < |t.handed| && t.handed[i].reply < |t.commands| && t.commands[t.handed[i].reply].Send?;
        NotStolenBefore(s, i);
        assert i == |s.handed|;
      }
    }
  }

  lemma NotStolenBefore(s: State, i: nat)
    requires !Stolen(s)
    ensures i < |s.handed| && s.handed[i].reply < |s.commands| ==> !s.commands[s.handed[i].reply].Send?
  {
  }

  lemma SplitSendBeforeAsk(commands: seq<Command>, from: nat, mid: nat, upTo: nat)
    requires from <= mid <= upTo
    ensures SendBeforeAsk(commands, from, upTo) <==>
            SendBeforeAsk(commands, from, mid) || SendBeforeAsk(commands, mid, upTo)
  {
  }

  lemma {:induction false} TakeAllSteals(s: State, bodies: seq<string>)
    requires InStep(s) && |s.received| + |bodies| <= |s.commands| && !Stolen(s)
    ensures Stolen(TakeAll(s, bodies)) <==> SendBeforeAsk(s.commands, |s.received|, |s.received| + |bodies|)
    decreases |bodies|
  {
    if bodies != [] {
      var t := Take(s, bodies[0]);
      TakeSteals(s, bodies[0]);
      TakeKeepsInStep(s, bodies[0]);
      SplitSendBeforeAsk(s.commands, |s.received|, |s.received| + 1, |s.received| + |bodies|);
      if Stolen(t) {
        TakeAllKeepsStolen(t, bodies[1..]);
      } else {
        TakeAllSteals(t, bodies[1..]);
      }
    }
  }

  lemma {:induction false} TakeAllKeepsStolen(s: State, bodies: seq<string>)
    requires Stolen(s)
    ensures Stolen(TakeAll(s, bodies))
    decreases |bodies|
  {
    if bodies != [] {
      StolenStays(s, Take(s, bodies[0]));
      TakeAllKeepsStolen(Take(s, bodies[0]), bodies[1..]);
    }
  }

  lemma HonestBefore(events: seq<Event>, parse: string -> Parsed)
    requires Honest(events, parse) && events != []
    ensures Honest(events[..|events| - 1], parse)
  {
    var before := events[..|events| - 1];
    forall n | 0 <= n <= |before| ensures AnswersWhatWasWritten(Run(before[..n], parse)) {
      assert before[..n] == events[..n];
    }
  }

  lemma StepSteals(s: State, e: Event, parse: string -> Parsed)
    requires InStep(s) && AnswersWhatWasWritten(Step(s, e, parse))
    ensures Stolen(Step(s, e, parse)) <==>
            Stolen(s) || SendBeforeAsk(s.commands, |s.received|, |Step(s, e, parse).received|)
  {
    var t := Step(s, e, parse);
    match e {
      case Data(chunk) =>
        var bodies := Replies(LineStream.Lines(s.buf + chunk), parse);
        var u := s.(buf := LineStream.Rest(s.buf + chunk));
        TakeAllReceives(u, bodies);
        assert Stolen(u) <==> Stolen(s);
        if Stolen(u) {
          TakeAllKeepsStolen(u, bodies);
        } else {
          TakeAllSteals(u, bodies);
        }
      case Write(c) =>
        StolenByWriting(s, t);
      case Expire(_) =>
        assert t.handed == s.handed && t.commands == s.commands;
    }
  }

  lemma StolenByWriting(s: State, t: State)
    requires InStep(s) && t.handed == s.handed && s.commands <= t.commands
    ensures Stolen(t) <==> Stolen(s)
  {
    assert forall k :: 0 <= k < |s.commands| ==> t.commands[k] == s.commands[k];
  }

  lemma {:induction false} CommandsGrow(events: seq<Event>, n: nat)
    requires n <= |events|
    ensures CommandsOf(events[..n]) <= CommandsOf(events)
    decreases |events|
  {
    if n < |events| {
      var before := events[..|events| - 1];
      CommandsGrow(before, n);
      assert before[..n] == events[..n];
    } else {
      assert events[..n] == events;
    }
  }

  lemma OvertakenLater(events: seq<Event>, parse: string -> Parsed)
    requires events != [] && Overtaken(events, parse)
    ensures var before := events[..|events| - 1];
            || Overtaken(before, parse)
            || SendBeforeAsk(CommandsOf(before), Arrived(before, parse), Arrived(events, parse))
  {
    hide CommandsOf, Arrived;
    var before := events[..|events| - 1];
    var n :| 0 <= n <= |events|
             && SendBeforeAsk(CommandsOf(events[..n]), Arrived(events[..n], parse), Arrived(events, parse));
    assert events[..|events|] == events;
    assert n < |events|;
    assert before[..n] == events[..n];
    CommandsGrow(before, n);
    LateOrEarly(CommandsOf(before[..n]), CommandsOf(before), Arrived(before[..n], parse), Arrived(before, parse),
                Arrived(events, parse));
  }

  lemma OvertakenAlready(events: seq<Event>, parse: string -> Parsed)
    requires events != [] && Overtaken(events[..|events| - 1], parse)
    requires Arrived(events[..|events| - 1], parse) <= Arrived(events, parse)
    ensures Overtaken(events, parse)
  {
    hide CommandsOf, Arrived, SendBeforeAsk;
    var before := events[..|events| - 1];
    var n :| 0 <= n <= |before|
             && SendBeforeAsk(CommandsOf(before[..n]), Arrived(before[..n], parse), Arrived(before, parse));
    assert before[..n] == events[..n];
    SendBeforeAskLonger(CommandsOf(events[..n]), Arrived(events[..n], parse), Arrived(before, parse),
                        Arrived(events, parse));
  }

  lemma OvertakenNow(events: seq<Event>, parse: string -> Parsed)
    requires events != []
    requires var before := events[..|events| - 1];
             SendBeforeAsk(CommandsOf(before), Arrived(before, parse), Arrived(events, parse))
    ensures Overtaken(events, parse)
  {
  }

  /** Being overtaken by the end of a run: by the end of the run before, or by the last event. */
  lemma OvertakenAtTheEnd(events: seq<Event>, parse: string -> Parsed)
    requires events != []
    requires Arrived(events[..|events| - 1], parse) <= Arrived(events, parse)
    ensures var before := events[..|events| - 1];
            Overtaken(events, parse) <==>
            || Overtaken(before, parse)
            || SendBeforeAsk(CommandsOf(before), Arrived(before, parse), Arrived(events, parse))
  {
    hide *;
    var before := events[..|events| - 1];
    if Overtaken(events, parse) {
      OvertakenLater(events, parse);
    }
    if Overtaken(before, parse) {
      OvertakenAlready(events, parse);
    }
    if SendBeforeAsk(CommandsOf(before), Arrived(before, parse), Arrived(events, parse)) {
      OvertakenNow(events, parse);
    }
  }

  lemma SendBeforeAskLonger(commands: seq<Command>, from: nat, mid: nat, upTo: nat)
    requires mid <= upTo && SendBeforeAsk(commands, from, mid)
    ensures SendBeforeAsk(commands, from, upTo)
  {
  }

  lemma LateOrEarly(some: seq<Command>, more: seq<Command>, from: nat, mid: nat, upTo: nat)
    requires some <= more && SendBeforeAsk(some, from, upTo)
    ensures SendBeforeAsk(some, from, mid) || SendBeforeAsk(more, mid, upTo)
  {
    var k, a :| from <= k < upTo && k < a < |some| && some[k].Send? && some[a].Ask?;
    assert more[k] == some[k] && more[a] == some[a];
  }

  lemma {:induction false} StolenExactlyWhenOvertaken(events: seq<Event>, parse: string -> Parsed)
    requires Honest(events, parse)
    ensures Stolen(Run(events, parse)) <==> Overtaken(events, parse)
    decreases |events|
  {
    if events == [] {
      assert events[..0] == [];
    } else {
      var before := events[..|events| - 1];
      HonestBefore(events, parse);
      StolenExactlyWhenOvertaken(before, parse);
      LastEventSteals(events, parse);
      OvertakenAtTheEnd(events, parse);
    }
  }

  lemma LastEventSteals(events: seq<Event>, parse: string -> Parsed)
    requires Honest(events, parse) && events != []
    ensures var before := events[..|events| - 1];
            && Arrived(before, parse) <= Arrived(events, parse)
            && (Stolen(Run(events, parse)) <==>
                  || Stolen(Run(before, parse))
                  || SendBeforeAsk(CommandsOf(before), Arrived(before, parse), Arrived(events, parse)))
  {
    var before, e := events[..|events| - 1], events[|events| - 1];
    HonestBefore(events, parse);
    RunKeepsInStep(before, parse);
    ChunksDoNotMatter(before, parse);
    ChunksDoNotMatter(events, parse);
    CommandsAreThoseWritten(before, parse);
    assert events[..|events|] == events;
    assert AnswersWhatWasWritten(Run(events, parse));
    StepSteals(Run(before, parse), e, parse);
    StepReceives(Run(before, parse), e, parse);
  }

  lemma StepReceives(s: State, e: Event, parse: string -> Parsed)
    ensures |s.received| <= |Step(s, e, parse).received|
  {
    if e.Data? {
      TakeAllReceives(s.(buf := LineStream.Rest(s.buf + e.chunk)), Replies(LineStream.Lines(s.buf + e.chunk), parse));
    }
  }

  /**
   Every reply reaches the request it answers if and only if no request is made while an earlier
   plain `send` is still to be answered: a condition on when commands are written and lines arrive.
   */
  lemma EachToItsOwnExactlyWhen(events: seq<Event>, parse: string -> Parsed)
    requires Honest(events, parse)
    ensures EachToItsOwn(Run(events, parse)) <==> !Overtaken(events, parse)
  {
    RunKeepsInStep(events, parse);
    OwnExactlyWhenNotStolen(Run(events, parse));
    StolenExactlyWhenOvertaken(events, parse);
  }

  // ----- what each request is told -----

  /** A request is settled by a reply handed to it, or by its timer; being handed one always settles it. */
  ghost predicate Settled(s: State) {
    && (forall r :: r in s.outcome && s.outcome[r].Answered? ==> Gave(s, r, s.outcome[r].body))
    && (forall i :: 0 <= i < |s.handed| ==> s.handed[i].request in s.outcome)
  }

  ghost predicate Gave(s: State, request: nat, body: string) {
    exists i :: 0 <= i < |s.handed| && s.handed[i].request == request && s.handed[i].reply < |s.received|
                && s.received[s.handed[i].reply] == body
  }

  lemma TakeKeepsSettled(s: State, body: string)
    requires Settled(s)
    ensures Settled(Take(s, body))
    ensures forall r :: r in Take(s, body).outcome && Take(s, body).outcome[r].TimedOut? ==>
              r in s.outcome && s.outcome[r].TimedOut?
  {
    var t := Take(s, body);
    forall r | r in t.outcome && t.outcome[r].Answered?
      ensures Gave(t, r, t.outcome[r].body)
    {
      if r in s.outcome {
        var i :| 0 <= i < |s.handed| && s.handed[i].request == r && s.handed[i].reply < |s.received|
                 && s.received[s.handed[i].reply] == t.outcome[r].body;
        assert t.handed[i] == s.handed[i];
      } else {
        assert t.handed[|s.handed|] == Handing(|s.received|, r);
      }
    }
  }

  lemma {:induction false} TakeAllKeepsSettled(s: State, bodies: seq<string>)
    requires Settled(s)
    ensures Settled(TakeAll(s, bodies))
    ensures forall r :: r in TakeAll(s, bodies).outcome && TakeAll(s, bodies).outcome[r].TimedOut? ==>
                        r in s.outcome && s.outcome[r].TimedOut?
    decreases |bodies|
  {
    if bodies != [] {
      TakeKeepsSettled(s, bodies[0]);
      TakeAllKeepsSettled(Take(s, bodies[0]), bodies[1..]);
    }
  }

  lemma {:induction false} RunKeepsSettled(events: seq<Event>, parse: string -> Parsed)
    ensures Settled(Run(events, parse))
    ensures forall r :: r in Run(events, parse).outcome && Run(events, parse).outcome[r].TimedOut? ==>
              Expire(r) in events
  {
    if events != [] {
      var before, e := events[..|events| - 1], events[|events| - 1];
      RunKeepsSettled(before, parse);
      var s := Run(before, parse);
      assert events == before + [e];
      if e.Data? {
        var t := s.(buf := LineStream.Rest(s.buf + e.chunk));
        assert Settled(t) by {
          forall r | r in t.outcome && t.outcome[r].Answered? ensures Gave(t, r, t.outcome[r].body) {
            assert Gave(s, r, t.outcome[r].body);
          }
        }
        TakeAllKeepsSettled(t, Replies(LineStream.Lines(s.buf + e.chunk), parse));
      } else {
        var t := Step(s, e, parse);
        forall r | r in t.outcome && t.outcome[r].Answered? ensures Gave(t, r, t.outcome[r].body) {
          assert Gave(s, r, t.outcome[r].body);
        }
      }
    }
  }

  predicate OnlyAsks(commands: seq<Command>) {
    forall i :: 0 <= i < |commands| ==> commands[i].Ask?
  }

  /** With requests alone, every reply finds a request waiting. */
  ghost predicate NoneDropped(s: State) {
    |s.handed| == |s.received| && forall i :: 0 <= i < |s.handed| ==> s.handed[i] == Handing(i, i)
  }

  lemma {:induction false} OnlyAsksUnanswered(commands: seq<Command>, from: nat)
    requires OnlyAsks(commands) && from < |commands|
    ensures Unanswered(commands, from) != [] && Unanswered(commands, from)[0] == from
  {
  }

  lemma {:induction false} TakeAllDropsNone(s: State, bodies: seq<string>)
    requires InStep(s) && OnlyAsks(s.commands) && NoneDropped(s) && |s.received| + |bodies| <= |s.commands|
    ensures NoneDropped(TakeAll(s, bodies))
    decreases |bodies|
  {
    if bodies != [] {
      TakeKeepsInStep(s, bodies[0]);
      OnlyAsksUnanswered(s.commands, |s.received|);
      TakeAllDropsNone(Take(s, bodies[0]), bodies[1..]);
    }
  }

  lemma {:induction false} RunDropsNone(events: seq<Event>, parse: string -> Parsed)
    requires Honest(events, parse) && OnlyAsks(CommandsOf(events))
    ensures NoneDropped(Run(events, parse))
  {
    if events != [] {
      var before, e := events[..|events| - 1], events[|events| - 1];
      HonestBefore(events, parse);
      assert OnlyAsks(CommandsOf(before)) by {
        assert forall i :: 0 <= i < |CommandsOf(before)| ==> CommandsOf(before)[i] == CommandsOf(events)[i];
      }
      RunDropsNone(before, parse);
      RunKeepsInStep(before, parse);
      CommandsAreThoseWritten(before, parse);
      if e.Data? {
        var s := Run(before, parse);
        var bodies := Replies(LineStream.Lines(s.buf + e.chunk), parse);
        var t := s.(buf := LineStream.Rest(s.buf + e.chunk));
        assert events[..|events|] == events;
        assert AnswersWhatWasWritten(Run(events, parse));
        TakeAllReceives(t, bodies);
        TakeAllDropsNone(t, bodies);
      }
    }
  }

  /**
   The `k`-th reply in the text resolves the `k`-th request, whatever the chunks, the notices
   and blank lines between, and whichever other requests have timed out.
   */
  lemma KthReplyResolvesKthRequest(events: seq<Event>, parse: string -> Parsed, k: nat)
    requires Honest(events, parse) && OnlyAsks(CommandsOf(events))
    requires k < |Replies(LineStream.Lines(TextOf(events)), parse)|
    ensures var outcome := Run(events, parse).outcome;
            && k in outcome
            && (outcome[k] == Answered(Replies(LineStream.Lines(TextOf(events)), parse)[k]) || outcome[k] == TimedOut)
            && (outcome[k].TimedOut? ==> Expire(k) in events)
  {
    ChunksDoNotMatter(events, parse);
    RunDropsNone(events, parse);
    RunKeepsSettled(events, parse);
    var s := Run(events, parse);
    assert s.handed[k].request in s.outcome;
  }

  /** A `send` has been written, and then a request. */
  lemma SendThenAsk(parse: string -> Parsed)
    ensures Run([Write(Send)], parse) == State("", [], map[], [Send], [], [])
    ensures Run([Write(Send), Write(Ask)], parse) == State("", [1], map[], [Send, Ask], [], [])
  {
    var first, second := [Write(Send)], [Write(Send), Write(Ask)];
    assert first[..0] == [] && second[..1] == first;
    assert Run(first, parse) == Step(Run([], parse), Write(Send), parse);
    assert Run(second, parse) == Step(Run(first, parse), Write(Ask), parse);
  }

  lemma OneReply(s: State, line: string, body: string, parse: string -> Parsed)
    requires '\n' !in line && !Text.Blank(line) && parse(line) == Reply(body) && s.buf == ""
    ensures Step(s, Data(line + "\n"), parse) == Take(s, body)
  {
    OneLine(line);
    assert Replies([line], parse) == [body] + Replies([], parse);
    TakeOne(s, body);
    assert s.(buf := "") == s;
  }


  /** A `send` still unanswered when a request is made hands that request the wrong reply. */
  lemma SendStealsARequest(line: string, body: string, parse: string -> Parsed)
    requires '\n' !in line && !Text.Blank(line) && parse(line) == Reply(body)
    ensures var events := [Write(Send), Write(Ask), Data(line + "\n")];
            Honest(events, parse) && Run(events, parse).outcome == map[1 := Answered(body)]
            && !EachToItsOwn(Run(events, parse))
  {
    var events := [Write(Send), Write(Ask), Data(line + "\n")];
    var second := [Write(Send), Write(Ask)];
    assert events[..0] == [] && events[..1] == [Write(Send)] && events[..2] == second && events[..3] == events;
    SendThenAsk(parse);
    var s2 := Run(second, parse);
    OneReply(s2, line, body, parse);
    var s3 := Run(events, parse);
    assert s3 == Take(s2, body);
    assert s3.handed[0] == Handing(0, 1);
  }

  lemma TakeOne(s: State, body: string)
    ensures TakeAll(s, [body]) == Take(s, body)
  {
    assert [body][1..] == [];
  }

  lemma OneLine(line: string)
    requires '\n' !in line
    ensures LineStream.Lines("" + (line + "\n")) == [line] && LineStream.Rest("" + (line + "\n")) == ""
  {
    var text := line + "\n";
    assert "" + text == text;
    LineStream.NewlineOfConcat(line, "\n");
    assert LineStream.NewlineAt(text) == |line|;
    assert text[..|line|] == line && text[|line| + 1..] == "";
  }

  // ----- the socket callbacks -----

  class Monitor {
    const parse: string -> Parsed
    var buf: string
    var waiting: seq<nat>
    var outcome: map<nat, Outcome>
    ghost var commands: seq<Command>
    ghost var received: seq<string>
    ghost var handed: seq<Handing>
    var written: nat

    ghost function View(): State
      reads this
    {
      State(buf, waiting, outcome, commands, received, handed)
    }

    ghost predicate Valid()
      reads this
    {
      written == |commands|
    }

    constructor (parse: string -> Parsed)
      ensures Valid() && View() == Start && this.parse == parse
    {
      this.parse := parse;
      buf, waiting, outcome, commands, received, handed, written := "", [], map[], [], [], [], 0;
    }

    method Resolve(body: string)
      requires Valid()
      modifies this`waiting, this`outcome, this`received, this`handed
      ensures Valid() && View() == Take(old(View()), body)
    {
      if waiting != [] {
        var request := waiting[0];
        waiting := waiting[1..];
        handed := handed + [Handing(|received|, request)];
        if request !in outcome {
          outcome := outcome[request := Answered(body)];
        }
      }
      received := received + [body];
    }

    method OnLine(line: string)
      requires Valid()
      modifies this`waiting, this`outcome, this`received, this`handed
      ensures Valid() && View() == TakeAll(old(View()), ReplyIn(line, parse))
    {
      if Text.Blank(line) {
        return;
      }
      match parse(line) {
        case Malformed =>
        case Notice =>
        case Reply(body) => Resolve(body);
      }
    }

    method OnData(chunk: string)
      requires Valid()
      modifies this
      ensures Valid() && View() == Step(old(View()), Data(chunk), parse)
    {
      buf := buf + chunk;
      ghost var goal := Step(old(View()), Data(chunk), parse);
      var nl := LineStream.NewlineAt(buf);
      while nl < |buf|
        invariant Valid() && nl == LineStream.NewlineAt(buf)
        invariant Remaining(View(), parse) == goal
        decreases |buf|
      {
        var line := buf[..nl];
        RemainingStep(View(), nl, parse);
        buf := buf[nl + 1..];
        OnLine(line);
        nl := LineStream.NewlineAt(buf);
      }
    }

    method Request() returns (request: nat)
      requires Valid()
      modifies this
      ensures Valid() && View() == Step(old(View()), Write(Ask), parse) && request == |old(commands)|
    {
      request := written;
      waiting := waiting + [request];
      commands := commands + [Ask];
      written := written + 1;
    }

    method SendOnly()
      requires Valid()
      modifies this`commands, this`written
      ensures Valid() && View() == Step(old(View()), Write(Send), parse)
    {
      commands := commands + [Send];
      written := written + 1;
    }

    /** A timer fires; the request keeps its place in the queue. */
    method TimeOut(request: nat)
      requires Valid() && request < |commands| && commands[request].Ask?
      modifies this`outcome
      ensures Valid() && View() == Step(old(View()), Expire(request), parse)
    {
      if request !in outcome {
        outcome := outcome[request := TimedOut];
      }
    }
  }

  /** What is left of a chunk once the lines still in the buffer are handled. */
  function Remaining(s: State, parse: string -> Parsed): State {
    TakeAll(s.(buf := LineStream.Rest(s.buf)), Replies(LineStream.Lines(s.buf), parse))
  }

  lemma {:induction false} TakeAllConcat(s: State, a: seq<string>, b: seq<string>)
    ensures TakeAll(s, a + b) == TakeAll(TakeAll(s, a), b)
    decreases |a|
  {
    if a == [] {
      assert a + b == b;
    } else {
      assert (a + b)[1..] == a[1..] + b;
      TakeAllConcat(Take(s, a[0]), a[1..], b);
    }
  }

  lemma {:induction false} TakeAllKeepsRest(s: State, bodies: seq<string>, buf: string)
    ensures TakeAll(s.(buf := buf), bodies) == TakeAll(s, bodies).(buf := buf)
    decreases |bodies|
  {
    if bodies != [] {
      TakeAllKeepsRest(Take(s, bodies[0]), bodies[1..], buf);
    }
  }

  lemma RemainingStep(s: State, nl: nat, parse: string -> Parsed)
    requires nl == LineStream.NewlineAt(s.buf) < |s.buf|
    ensures Remaining(s, parse) ==
            Remaining(TakeAll(s.(buf := s.buf[nl + 1..]), ReplyIn(s.buf[..nl], parse)), parse)
  {
    hide TakeAll, Take;
    var line, tail := s.buf[..nl], s.buf[nl + 1..];
    var now, later := ReplyIn(line, parse), Replies(LineStream.Lines(tail), parse);
    assert LineStream.Lines(s.buf)[1..] == LineStream.Lines(tail);
    assert Replies(LineStream.Lines(s.buf), parse) == now + later;
    var t := s.(buf := LineStream.Rest(tail));
    TakeAllConcat(t, now, later);
    TakeAllKeepsRest(s, now, LineStream.Rest(tail));
    TakeAllKeepsRest(s, now, tail);
  }
}
