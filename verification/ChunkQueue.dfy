/**
 The queue that replays a child's stdout to the ready-line parser. An outstanding call of
 `next` is either parked on a promise or has had that promise resolved and not yet run on; any
 other event may come in between.
 */
module ChunkQueue {
  import opened Options
  import opened Sequences

  datatype Phase = Parked | Woken

  /** `calls` are the calls of `next` not yet answered; `pushed` and `delivered` record the history. */
  datatype State<T> = State(
    pending: seq<T>,
    ended: bool,
    wake: Option<nat>,
    calls: map<nat, Phase>,
    pushed: seq<T>,
    delivered: seq<T>
  )

  datatype Event<T> = Push(chunk: T) | End | Next(call: nat) | Resume(call: nat)

  function Empty<T>(): State<T> {
    State([], false, None, map[], [], [])
  }

  function Notified<T>(s: State<T>): State<T> {
    if s.wake.None? then s else s.(wake := None, calls := s.calls[s.wake.value := Woken])
  }

  /** One turn of the loop in `next`, up to its return or its `await`. */
  function Attempt<T>(s: State<T>, call: nat): State<T> {
    if s.pending != [] then
      s.(pending := s.pending[1..], delivered := s.delivered + [s.pending[0]], calls := s.calls - {call})
    else if s.ended then s.(calls := s.calls - {call})
    else s.(wake := Some(call), calls := s.calls[call := Parked])
  }

  /** The events that run the loop of `next`; any other call event is not possible and changes nothing. */
  predicate Tries<T>(s: State<T>, e: Event<T>) {
    match e
    case Next(c) => c !in s.calls
    case Resume(c) => c in s.calls && s.calls[c].Woken?
    case _ => false
  }

  function Step<T>(s: State<T>, e: Event<T>): State<T> {
    match e
    case Push(x) => Notified(s.(pending := s.pending + [x], pushed := s.pushed + [x]))
    case End => Notified(s.(ended := true))
    case _ => if Tries(s, e) then Attempt(s, e.call) else s
  }

  function Run<T>(s: State<T>, events: seq<Event<T>>): State<T>
    decreases |events|
  {
    if events == [] then s else Run(Step(s, events[0]), events[1..])
  }

  lemma {:induction false} RunSnoc<T>(s: State<T>, events: seq<Event<T>>, e: Event<T>)
    ensures Run(s, events + [e]) == Step(Run(s, events), e)
    decreases |events|
  {
    if events == [] {
      assert events + [e] == [e];
    } else {
      assert (events + [e])[1..] == events[1..] + [e];
      RunSnoc(Step(s, events[0]), events[1..], e);
    }
  }

  // ----- nothing is lost, whoever reads -----

  function PushedBy<T>(events: seq<Event<T>>): seq<T> {
    if events == [] then []
    else (if events[0].Push? then [events[0].chunk] else []) + PushedBy(events[1..])
  }

  lemma StepConserves<T>(s: State<T>, e: Event<T>)
    requires s.delivered + s.pending == s.pushed
    ensures var t := Step(s, e);
            t.delivered + t.pending == t.pushed == s.pushed + if e.Push? then [e.chunk] else []
  {
    if s.pending != [] {
      assert s.pending == [s.pending[0]] + s.pending[1..];
    }
  }

  lemma {:induction false} RunConserves<T>(s: State<T>, events: seq<Event<T>>)
    requires s.delivered + s.pending == s.pushed
    ensures var t := Run(s, events);
            t.delivered + t.pending == t.pushed == s.pushed + PushedBy(events)
    decreases |events|
  {
    if events != [] {
      StepConserves(s, events[0]);
      Reassociate(s.pushed, if events[0].Push? then [events[0].chunk] else [], PushedBy(events[1..]));
      RunConserves(Step(s, events[0]), events[1..]);
    }
  }

  /** What was delivered and what is pending are together what was pushed, in its order. */
  lemma Conserved<T>(events: seq<Event<T>>)
    ensures var s := Run(Empty(), events); s.delivered + s.pending == PushedBy(events)
  {
    RunConserves(Empty(), events);
  }

  predicate AnswersDone<T>(s: State<T>, e: Event<T>) {
    Tries(s, e) && s.pending == [] && s.ended
  }

  /** `done` is answered only when the end was announced and every chunk pushed so far delivered. */
  lemma DoneComesLast<T>(events: seq<Event<T>>, e: Event<T>)
    ensures AnswersDone(Run(Empty(), events), e) ==>
              End in events && Run(Empty(), events).delivered == PushedBy(events)
  {
    Conserved(events);
    EndedOnlyByEnd(Empty(), events);
  }

  lemma {:induction false} EndedOnlyByEnd<T>(s: State<T>, events: seq<Event<T>>)
    ensures Run(s, events).ended <==> s.ended || End in events
    decreases |events|
  {
    if events != [] {
      EndedOnlyByEnd(Step(s, events[0]), events[1..]);
      assert events == [events[0]] + events[1..];
    }
  }

  // ----- who may be left waiting -----

  /** A registered wake-up belongs to a parked call, and nothing is there for that call to take. */
  ghost predicate Registered<T>(s: State<T>) {
    s.wake.Some? ==>
      && s.wake.value in s.calls && s.calls[s.wake.value].Parked?
      && s.pending == [] && !s.ended
  }

  lemma {:induction false} AlwaysRegistered<T>(s: State<T>, events: seq<Event<T>>)
    requires Registered(s)
    ensures Registered(Run(s, events))
    decreases |events|
  {
    if events != [] {
      AlwaysRegistered(Step(s, events[0]), events[1..]);
    }
  }

  /** Parked, with the function that would wake it forgotten. */
  predicate Stranded<T>(s: State<T>, call: nat) {
    call in s.calls && s.calls[call].Parked? && s.wake != Some(call)
  }

  /** A call may wait while a chunk or the end is available only if its wake-up was forgotten. */
  lemma WaitingInVainIsStranded<T>(events: seq<Event<T>>, call: nat)
    ensures var s := Run(Empty(), events);
            call in s.calls && s.calls[call].Parked? && (s.pending != [] || s.ended) ==> Stranded(s, call)
  {
    AlwaysRegistered(Empty(), events);
  }

  /** And then nothing that can happen answers it. */
  lemma {:induction false} StrandedForever<T>(s: State<T>, events: seq<Event<T>>, call: nat)
    requires Stranded(s, call)
    ensures Stranded(Run(s, events), call)
    decreases |events|
  {
    if events != [] {
      StrandedForever(Step(s, events[0]), events[1..], call);
    }
  }

  /** A call is about to park while another call's wake-up is registered. */
  predicate Overwrites<T>(s: State<T>, e: Event<T>) {
    Tries(s, e) && s.pending == [] && !s.ended && s.wake.Some? && s.wake != Some(e.call)
  }

  lemma StrandingStep<T>(s: State<T>, e: Event<T>, call: nat)
    requires Registered(s)
    ensures Stranded(Step(s, e), call) <==> Stranded(s, call) || (Overwrites(s, e) && s.wake == Some(call))
  {
  }

  ghost predicate NobodyStranded<T>(s: State<T>) {
    forall c :: !Stranded(s, c)
  }

  ghost predicate EverOverwrites<T>(s: State<T>, events: seq<Event<T>>)
    decreases |events|
  {
    events != [] && (Overwrites(s, events[0]) || EverOverwrites(Step(s, events[0]), events[1..]))
  }

  lemma OverwriteStrands<T>(s: State<T>, e: Event<T>)
    requires Registered(s) && NobodyStranded(s)
    ensures NobodyStranded(Step(s, e)) <==> !Overwrites(s, e)
  {
    forall c {
      StrandingStep(s, e, c);
    }
    if Overwrites(s, e) {
      assert Stranded(Step(s, e), s.wake.value);
    }
  }

  /** No call is left waiting for ever exactly when none parks over another's registered wake-up. */
  lemma {:induction false} NobodyStrandedExactlyWhen<T>(s: State<T>, events: seq<Event<T>>)
    requires Registered(s) && NobodyStranded(s)
    ensures NobodyStranded(Run(s, events)) <==> !EverOverwrites(s, events)
    decreases |events|
  {
    if events != [] {
      var t := Step(s, events[0]);
      OverwriteStrands(s, events[0]);
      if NobodyStranded(t) {
        NobodyStrandedExactlyWhen(t, events[1..]);
      } else {
        var c :| Stranded(t, c);
        StrandedForever(t, events[1..], c);
      }
    }
  }

  // ----- one consumer: a new call only after the last was answered -----

  predicate OneConsumer<T>(s: State<T>, events: seq<Event<T>>)
    decreases |events|
  {
    events == [] || ((events[0].Next? ==> s.calls == map[]) && OneConsumer(Step(s, events[0]), events[1..]))
  }

  /** The one outstanding call is parked only while there is nothing to take, and woken only when there is. */
  ghost predicate Served<T>(s: State<T>) {
    && (forall c, d :: c in s.calls && d in s.calls ==> c == d)
    && (forall c :: c in s.calls && s.calls[c].Parked? ==> s.wake == Some(c) && s.pending == [] && !s.ended)
    && (forall c :: c in s.calls && s.calls[c].Woken? ==> s.wake == None && (s.pending != [] || s.ended))
    && (s.calls == map[] ==> s.wake == None)
  }

  lemma ServedStep<T>(s: State<T>, e: Event<T>)
    requires Served(s) && (e.Next? ==> s.calls == map[])
    ensures Served(Step(s, e)) && !Overwrites(s, e)
  {
  }

  /** One consumer never waits in vain, and a wake-up always finds a chunk or the end. */
  lemma {:induction false} OneConsumerIsServed<T>(s: State<T>, events: seq<Event<T>>)
    requires Served(s) && OneConsumer(s, events)
    ensures Served(Run(s, events)) && !EverOverwrites(s, events)
    decreases |events|
  {
    if events != [] {
      ServedStep(s, events[0]);
      OneConsumerIsServed(Step(s, events[0]), events[1..]);
    }
  }

  /** Two calls at once: the second takes the first one's wake-up, and the first is never answered. */
  lemma TwoConsumersLoseAWakeUp<T>(x: T, events: seq<Event<T>>)
    ensures Stranded(Run(Run(Empty(), [Next(0), Next(1), Push(x), End]), events), 0)
  {
    var s0 := Step(Empty<T>(), Next(0));
    var s1 := Step(s0, Next(1));
    var s2 := Step(s1, Push(x));
    var s3 := Step(s2, End);
    assert Stranded(s3, 0);
    RunSnoc<T>(Empty(), [], Next(0));
    RunSnoc<T>(Empty(), [Next(0)], Next(1));
    RunSnoc(Empty(), [Next(0), Next(1)], Push(x));
    RunSnoc(Empty(), [Next(0), Next(1), Push(x)], End);
    assert [Next(0), Next(1), Push(x)] + [End] == [Next(0), Next(1), Push(x), End];
    assert [Next(0), Next(1)] + [Push(x)] == [Next(0), Next(1), Push(x)];
    assert [Event<T>.Next(0)] + [Next(1)] == [Next(0), Next(1)];
    assert [] + [Event<T>.Next(0)] == [Next(0)];
    StrandedForever(s3, events, 0);
  }

  // ----- the queue itself -----

  datatype Answer<T> = Value(chunk: T) | Done | Waits

  class Queue<T> {
    var pending: seq<T>
    var ended: bool
    var wake: Option<nat>
    var calls: map<nat, Phase>
    ghost var pushed: seq<T>
    ghost var delivered: seq<T>

    ghost function View(): State<T>
      reads this
    {
      State(pending, ended, wake, calls, pushed, delivered)
    }

    constructor ()
      ensures View() == Empty()
    {
      pending, ended, wake, calls, pushed, delivered := [], false, None, map[], [], [];
    }

    method Notify()
      modifies this`wake, this`calls
      ensures View() == Notified(old(View()))
    {
      var resume := wake;
      wake := None;
      if resume.Some? {
        calls := calls[resume.value := Woken];
      }
    }

    method Push(chunk: T)
      modifies this
      ensures View() == Step(old(View()), Event.Push(chunk))
    {
      pending := pending + [chunk];
      pushed := pushed + [chunk];
      Notify();
    }

    method End()
      modifies this
      ensures View() == Step(old(View()), Event.End)
    {
      ended := true;
      Notify();
    }

    method Turn(call: nat) returns (answer: Answer<T>)
      modifies this
      ensures View() == Attempt(old(View()), call)
      ensures answer == if old(pending) != [] then Value(old(pending)[0]) else if old(ended) then Done else Waits
    {
      if pending != [] {
        var chunk := pending[0];
        pending := pending[1..];
        delivered := delivered + [chunk];
        calls := calls - {call};
        return Value(chunk);
      }
      if ended {
        calls := calls - {call};
        return Done;
      }
      wake := Some(call);
      calls := calls[call := Parked];
      return Waits;
    }

    method Next(call: nat) returns (answer: Answer<T>)
      requires call !in calls
      modifies this
      ensures View() == Step(old(View()), Event.Next(call))
      ensures answer.Done? <==> AnswersDone(old(View()), Event.Next(call))
      ensures answer.Value? ==> delivered == old(delivered) + [answer.chunk]
    {
      answer := Turn(call);
    }

    method Resume(call: nat) returns (answer: Answer<T>)
      requires call in calls && calls[call].Woken?
      modifies this
      ensures View() == Step(old(View()), Event.Resume(call))
      ensures answer.Done? <==> AnswersDone(old(View()), Event.Resume(call))
      ensures answer.Value? ==> delivered == old(delivered) + [answer.chunk]
      ensures old(Served(View())) ==> !answer.Waits?
    {
      answer := Turn(call);
    }
  }
}
