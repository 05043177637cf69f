/**
 The grace window. Within three seconds of a success, a rejection is taken for the answer to a request
 that was in flight under the old token, and nothing is torn down for it.
 */
module AuthGrace {
  import AuthRearm
  import opened AuthFlow
  import opened Options

  /** Less than three seconds, in milliseconds, have gone by since the last success. */
  predicate InGrace(s: State) {
    s.now - s.lastAuthSuccessMs < 3000
  }

  // ----- one request -----

  /** Within the window a request to degrade changes nothing at all. */
  lemma RequestInGrace(s: State, error: Fatal)
    requires InGrace(s)
    ensures Next(s, DegradeRequested(error)) == s
  {
  }

  /**
   From three seconds on it stops the current flow and the loop and wipes the tokens and the name, and
   begins a degrade unless its very error is shown already; everything else stays.
   */
  lemma RequestAfterGrace(s: State, error: Fatal)
    requires !InGrace(s) && s.degrade.Idle?
    ensures var t := Next(s, DegradeRequested(error));
            && (forall f :: CurrentFlow(s) == Some(f) ==> t.flows == s.flows[f := s.flows[f].(aborted := true)])
            && (CurrentFlow(s).None? ==> t.flows == s.flows)
            && t.githubToken.None? && t.userName.None? && t.loop.NoLoop?
            && t.degrade == (if s.auth.Error? && s.auth.message == error.message then Idle else AwaitFlag(error))
            && t.auth == s.auth && t.notified == s.notified && t.pcs == s.pcs && t.starts == s.starts
            && t.now == s.now && t.lastAuthSuccessMs == s.lastAuthSuccessMs && t.switches == s.switches
            && t.rearm == s.rearm && t.sweepRegistered == s.sweepRegistered
            && t.upstream == s.upstream + if s.loop.Asking? && s.loop.refusals >= 2 then 1 else 0
  {
  }

  /** Only the books are kept: one request fewer, one refusal more or the loop's end, the poller's end. */
  predicate OnlyBooks(s: State, t: State, e: Event) {
    if !Enabled(s, e) then t == s
    else
      match e
      case UpstreamRefused(_) => t == s.(upstream := s.upstream - 1)
      case RefreshSettled(_) =>
        t == s.(loop := if s.loop.refusals >= 2 then NoLoop else Asleep(s.loop.refusals + 1))
      case PollerStep(i, _) => t == s.(pcs := s.pcs[i := Ended])
      case _ => t == s
  }

  /** A rejection, wherever it comes from. */
  predicate Rejects(e: Event) {
    e.DegradeRequested? || Refuses(e)
  }

  lemma RejectionInGrace(s: State, e: Event)
    requires InGrace(s) && Rejects(e)
    ensures OnlyBooks(s, Next(s, e), e)
  {
    hide AfterDegradeRequested;
    if Enabled(s, e) {
      match e {
        case DegradeRequested(error) => NotTakenUp(s, error);
        case UpstreamRefused(error) => NotTakenUp(s.(upstream := s.upstream - 1), error);
        case RefreshSettled(answer) => NotTakenUp(s.(loop := NoLoop), answer.error);
        case PollerStep(i, o) => NotTakenUp(Stopped(s, i), o.result.error);
      }
    }
  }

  lemma NotTakenUp(s: State, error: Fatal)
    requires InGrace(s)
    ensures AfterDegradeRequested(s, error) == s
  {
  }

  // ----- over runs -----

  /** The steps that count as a success, when they can be taken. */
  predicate Succeeds(s: State, e: Event) {
    && Enabled(s, e)
    && (|| e.MarkSignedIn? || e.AuthSucceeded? || e.SweepLands?
        || (e.SwitchStep? && s.switches[e.switch].SwitchModels?)
        || (e.RearmMintSettled? && e.result.Online?)
        || (e.RefreshSettled? && e.answer.Refreshed?))
  }

  lemma SuccessOpensTheWindow(s: State, e: Event)
    ensures Succeeds(s, e) ==> Next(s, e).lastAuthSuccessMs == s.now && Next(s, e).now == s.now
    ensures !Succeeds(s, e) ==> Next(s, e).lastAuthSuccessMs == s.lastAuthSuccessMs
    ensures Next(s, e).now == if e.ClockReads? then e.time else s.now
  {
    if OfUpstream(e) {
      UpstreamAndTheWindow(s, e);
    } else if e.PollerStep? {
      PollerAndTheWindow(s, e);
    } else if e.RearmMintSettled? {
      RearmAndTheWindow(s, e.result);
    } else {
      OthersAndTheWindow(s, e);
    }
  }

  lemma OthersAndTheWindow(s: State, e: Event)
    requires !OfUpstream(e) && !e.PollerStep? && !e.RearmMintSettled?
    ensures Succeeds(s, e) ==> Next(s, e).lastAuthSuccessMs == s.now && Next(s, e).now == s.now
    ensures !Succeeds(s, e) ==> Next(s, e).lastAuthSuccessMs == s.lastAuthSuccessMs
    ensures Next(s, e).now == if e.ClockReads? then e.time else s.now
  {
  }

  lemma RequestKeepsTheWindow(s: State, error: Fatal)
    ensures AfterDegradeRequested(s, error).lastAuthSuccessMs == s.lastAuthSuccessMs
    ensures AfterDegradeRequested(s, error).now == s.now
  {
  }

  lemma UpstreamAndTheWindow(s: State, e: Event)
    requires OfUpstream(e)
    ensures Next(s, e).lastAuthSuccessMs == if Succeeds(s, e) then s.now else s.lastAuthSuccessMs
    ensures Next(s, e).now == s.now
  {
    if Refuses(e) {
      RefusalAndTheWindow(s, e);
    }
  }

  lemma RefusalAndTheWindow(s: State, e: Event)
    requires OfUpstream(e) && Refuses(e)
    ensures Next(s, e).lastAuthSuccessMs == s.lastAuthSuccessMs && Next(s, e).now == s.now
  {
    hide AfterDegradeRequested;
    if Enabled(s, e) {
      if e.UpstreamRefused? {
        RequestKeepsTheWindow(s.(upstream := s.upstream - 1), e.error);
      } else {
        RequestKeepsTheWindow(s.(loop := NoLoop), e.answer.error);
      }
    }
  }

  lemma PollerAndTheWindow(s: State, e: Event)
    requires e.PollerStep?
    ensures Next(s, e).lastAuthSuccessMs == s.lastAuthSuccessMs && Next(s, e).now == s.now
  {
    hide AfterDegradeRequested;
    if Enabled(s, e) && e.outcome.MintSettled? && e.outcome.result.AuthFatal? {
      RequestKeepsTheWindow(Stopped(s, e.flow), e.outcome.result.error);
    }
  }

  lemma RearmAndTheWindow(s: State, result: AuthRearm.Outcome)
    ensures var e := RearmMintSettled(result);
            && Next(s, e).lastAuthSuccessMs == (if Succeeds(s, e) then s.now else s.lastAuthSuccessMs)
            && Next(s, e).now == s.now
  {
  }

  /** The clock does not run backwards, and stays before `end`. */
  predicate ClockBefore(now: int, es: seq<Event>, end: int)
    decreases |es|
  {
    now < end && (es == [] ||
      var next := if es[0].ClockReads? then es[0].time else now;
      now <= next && ClockBefore(next, es[1..], end))
  }

  /** A success at `t` or later, and no degrade. */
  predicate Since(s: State, t: int) {
    s.degrade.Idle? && t <= s.lastAuthSuccessMs && s.now < t + 3000
  }

  lemma OnlyRequestsDegrade(s: State, e: Event)
    requires s.degrade.Idle? && InGrace(s)
    ensures Next(s, e).degrade.Idle?
  {
    if Rejects(e) {
      RejectionInGrace(s, e);
    } else if OfUpstream(e) {
      AnswerEffect(s, e);
    } else if e.RearmMintSettled? {
      RearmMintEffect(s, e.result);
    }
  }

  lemma SinceGoesOn(s: State, e: Event, t: int, next: int)
    requires Since(s, t) && t <= s.now && next == (if e.ClockReads? then e.time else s.now) && next < t + 3000
    ensures Since(Next(s, e), t) && Next(s, e).now == next
  {
    hide Next;
    OnlyRequestsDegrade(s, e);
    SuccessOpensTheWindow(s, e);
  }

  lemma {:induction false} SinceStays(s: State, es: seq<Event>, t: int)
    requires Since(s, t) && t <= s.now && ClockBefore(s.now, es, t + 3000)
    ensures Since(Run(s, es), t)
    decreases |es|
  {
    if es != [] {
      hide Next, Since;
      var next := if es[0].ClockReads? then es[0].time else s.now;
      ClockIsBefore(next, es[1..], t + 3000);
      SinceGoesOn(s, es[0], t, next);
      SinceStays(Next(s, es[0]), es[1..], t);
    }
  }

  lemma ClockIsBefore(now: int, es: seq<Event>, end: int)
    requires ClockBefore(now, es, end)
    ensures now < end
  {
  }

  /**
   Over every run after a success: until the clock reads three seconds more, no degrade begins, whatever
   happens, and each rejection leaves the union, the tokens and the flows as they were.
   */
  lemma GraceHolds(s: State, success: Event, es: seq<Event>, rejection: Event)
    requires Succeeds(s, success) && Next(s, success).degrade.Idle?
    requires ClockBefore(s.now, es, s.now + 3000) && Rejects(rejection)
    ensures var u := Run(Next(s, success), es);
            u.degrade.Idle? && OnlyBooks(u, Next(u, rejection), rejection)
  {
    hide Next, OnlyBooks;
    SuccessOpensTheWindow(s, success);
    SuccessIsNoClock(s, success);
    ClockIsBefore(s.now, es, s.now + 3000);
    SinceStays(Next(s, success), es, s.now);
    RejectionInGrace(Run(Next(s, success), es), rejection);
  }

  lemma SuccessIsNoClock(s: State, e: Event)
    requires Succeeds(s, e)
    ensures !e.ClockReads?
  {
  }

  /** And the window ends there: the clock reads three seconds more, and the same rejection takes the token. */
  lemma GraceEnds(s: State, token: string, error: Fatal)
    requires s.degrade.Idle?
    ensures var u := Next(Next(Next(s, AuthSucceeded), TokenInstalled(token)), ClockReads(s.now + 2999));
            Next(u, DegradeRequested(error)) == u && u.githubToken == Some(token)
    ensures var u := Next(Next(Next(s, AuthSucceeded), TokenInstalled(token)), ClockReads(s.now + 3000));
            Next(u, DegradeRequested(error)).githubToken.None?
  {
  }
}
