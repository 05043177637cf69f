/** The degrade path: one at a time, and exactly when its verdict stands. */
module AuthDegrade {
  import AuthRearm
  import opened AuthFlow
  import opened AuthPollers
  import opened AuthQuiet
  import opened Options

  // ----- one degrade at a time -----

  /** A degrade is under way before every step of the run. */
  predicate InFlight(s: State, es: seq<Event>)
    decreases |es|
  {
    es == [] || (!s.degrade.Idle? && InFlight(Next(s, es[0]), es[1..]))
  }

  function WithoutRequests(es: seq<Event>): seq<Event> {
    if es == [] then []
    else (if es[0].DegradeRequested? then [] else [es[0]]) + WithoutRequests(es[1..])
  }

  /**
   While a degrade is under way requests that are refused, for any reasons and between any other
   events, might as well have been answered.
   */
  lemma {:induction false} RefusalsInFlightAreAnswers(s: State, es: seq<Event>)
    requires InFlight(s, es)
    ensures Run(s, es) == Run(s, Answered(es))
    decreases |es|
  {
    if es != [] {
      RefusalsInFlightAreAnswers(Next(s, es[0]), es[1..]);
      RefusalInFlightIsAnAnswer(s, es[0]);
      Unroll(s, AsAnswer(es[0]), Answered(es[1..]));
    }
  }

  function AsAnswer(e: Event): Event {
    if e.UpstreamRefused? then UpstreamAnswered else e
  }

  function Answered(es: seq<Event>): seq<Event> {
    if es == [] then [] else [AsAnswer(es[0])] + Answered(es[1..])
  }

  lemma RefusalInFlightIsAnAnswer(s: State, e: Event)
    requires !s.degrade.Idle?
    ensures Next(s, e) == Next(s, AsAnswer(e))
  {
  }

  /** And further requests to degrade do nothing. */
  lemma {:induction false} RequestsInFlightChangeNothing(s: State, es: seq<Event>)
    requires InFlight(s, es)
    ensures Run(s, es) == Run(s, WithoutRequests(es))
    decreases |es|
  {
    if es != [] {
      var rest := WithoutRequests(es[1..]);
      RequestsInFlightChangeNothing(Next(s, es[0]), es[1..]);
      if es[0].DegradeRequested? {
        assert [] + rest == rest;
      } else {
        Unroll(s, es[0], rest);
      }
    }
  }

  function Requests(error: Fatal, n: nat): (es: seq<Event>)
    ensures |es| == n
  {
    seq(n, _ => DegradeRequested(error))
  }

  lemma DegradeAgainChangesNothing(s: State, error: Fatal)
    ensures Next(Next(s, DegradeRequested(error)), DegradeRequested(error)) == Next(s, DegradeRequested(error))
  {
  }

  /**
   A burst of the same failure coalesces into one, in every state: degrading, in the grace window, or
   degraded already.
   */
  lemma {:induction false} BurstCoalesces(s: State, error: Fatal, n: nat)
    ensures Run(s, Requests(error, n + 1)) == Next(s, DegradeRequested(error))
    decreases n
  {
    var es := Requests(error, n + 1);
    assert es == [DegradeRequested(error)] + Requests(error, n);
    Unroll(s, DegradeRequested(error), Requests(error, n));
    if n == 0 {
      assert Requests(error, n) == [];
    } else {
      BurstCoalesces(Next(s, DegradeRequested(error)), error, n - 1);
      DegradeAgainChangesNothing(s, error);
    }
  }

  // ----- an error that is shown -----

  lemma AllowedOverError(kept: AuthState, es: seq<Event>)
    requires kept.Error?
    ensures AllowedRun(kept, es) <==> QuietRun(es) && OnlyRepeats(kept.message, es)
  {
  }

  /** What stays an error: every quiet run in which nothing is refused for another reason leaves it. */
  ghost predicate Stands(s: State) {
    s.auth.Error? && forall es :: QuietRun(es) && OnlyRepeats(s.auth.message, es) ==> Run(s, es).auth == s.auth
  }

  /** For every state that shows an error: it stands if and only if nothing writes the union or brings a name. */
  lemma StandsExactlyWhen(s: State)
    requires s.auth.Error? && s.degrade.Idle?
    ensures Stands(s) <==> Spent(s) && Nameless(s)
  {
    hide Next;
    var kept := s.auth;
    if Spent(s) && Nameless(s) {
      forall es | QuietRun(es) && OnlyRepeats(kept.message, es)
        ensures Run(s, es).auth == kept
      {
        AllowedOverError(kept, es);
        KeptRun(s, es, kept);
      }
    } else {
      var es;
      if !Spent(s) {
        es := UnspentUndoes(kept, s);
      } else {
        es := NameUndoes(kept, s);
      }
      AllowedOverError(kept, es);
      assert QuietRun(es) && OnlyRepeats(kept.message, es) && Run(s, es).auth != s.auth;
    }
  }

  // ----- the verdict -----

  /** The degrade is neither told of its flag nor of its sweep in this run, and the sweep does not land. */
  predicate Unsettled(es: seq<Event>) {
    QuietRun(es) && forall e :: e in es ==> !e.FlagSettled? && !e.SweepLands? && !e.SweepSettled?
  }

  /** A degrade that has not been settled, with nothing else under way that matters. */
  predicate Pending(s: State, error: Fatal) {
    && Spent(s) && (if s.sweepRegistered then !NameComing(s) else Nameless(s))
    && (s.degrade == AwaitFlag(error) || (s.sweepRegistered && s.degrade.AwaitSweep? && s.degrade.error == error))
  }

  predicate SamePhase(s: State, t: State) {
    t.sweepRegistered == s.sweepRegistered && (t.degrade.AwaitFlag? <==> s.degrade.AwaitFlag?)
  }

  lemma PendingPollerStep(s: State, e: Event, error: Fatal)
    requires Pending(s, error) && e.PollerStep?
    ensures Pending(Next(s, e), error) && SamePhase(s, Next(s, e))
  {
    if Enabled(s, e) {
      hide AfterPoller;
      assert Harmless(s.pcs[e.flow]) && !Live(s, e.flow);
      HarmlessPollerStep(s, e.flow, e.outcome);
      SpentAfterPoller(s, Next(s, e), e.flow);
      assert s.pcs[e.flow].AwaitUser? ==> NameComing(s);
    }
  }

  lemma RequestInFlightIsIgnored(s: State, error: Fatal)
    requires !s.degrade.Idle?
    ensures AfterDegradeRequested(s, error) == s
  {
  }

  lemma PendingRefusalStep(s: State, e: Event, error: Fatal)
    requires Pending(s, error) && OfUpstream(e) && Refuses(e)
    ensures Pending(Next(s, e), error) && SamePhase(s, Next(s, e))
  {
    if Enabled(s, e) {
      hide AfterDegradeRequested;
      if e.UpstreamRefused? {
        RequestInFlightIsIgnored(s.(upstream := s.upstream - 1), e.error);
      } else {
        RequestInFlightIsIgnored(s.(loop := NoLoop), e.answer.error);
      }
      SpentStays(s, Next(s, e));
    }
  }

  lemma PendingUpstreamStep(s: State, e: Event, error: Fatal)
    requires Pending(s, error) && OfUpstream(e) && !Refuses(e)
    ensures Pending(Next(s, e), error) && SamePhase(s, Next(s, e))
  {
    AnswerEffect(s, e);
    hide Next;
    SpentStays(s, Next(s, e));
  }

  lemma PendingRearmMintStep(s: State, result: AuthRearm.Outcome, error: Fatal)
    requires Pending(s, error)
    ensures Pending(Next(s, RearmMintSettled(result)), error) && SamePhase(s, Next(s, RearmMintSettled(result)))
  {
    var e := RearmMintSettled(result);
    RearmMintEffect(s, result);
    RearmMintMayNot(s, result);
    hide Next;
    SpentStays(s, Next(s, e));
  }

  lemma PendingRearmStep(s: State, e: Event, error: Fatal)
    requires Pending(s, error) && OfRearm(e) && !e.RearmMintSettled?
    ensures Pending(Next(s, e), error) && SamePhase(s, Next(s, e))
  {
    if e.RearmRenewed? {
      PendingRenewalStep(s, e.renewed, error);
    } else {
      RearmAskEffect(s, e);
      hide Next;
      SpentStays(s, Next(s, e));
    }
  }

  lemma PendingRenewalStep(s: State, token: Option<string>, error: Fatal)
    requires Pending(s, error)
    ensures Pending(Next(s, RearmRenewed(token)), error) && SamePhase(s, Next(s, RearmRenewed(token)))
  {
    SpentStays(s, Next(s, RearmRenewed(token)));
  }

  lemma PendingSweepStep(s: State, e: Event, error: Fatal)
    requires Pending(s, error) && Unsettled([e]) && OfSweepOrSwitch(e)
    ensures Pending(Next(s, e), error) && SamePhase(s, Next(s, e))
  {
    assert e in [e];
    assert Next(s, e).switches == s.switches;
    SpentStays(s, Next(s, e));
  }

  lemma PendingOtherStep(s: State, e: Event, error: Fatal)
    requires Pending(s, error) && Unsettled([e]) && !e.PollerStep? && !Beside(e)
    ensures Pending(Next(s, e), error) && SamePhase(s, Next(s, e))
  {
    assert e in [e];
    NoneWaiting(s);
    SpentStays(s, Next(s, e));
  }

  lemma PendingStep(s: State, e: Event, error: Fatal)
    requires Pending(s, error) && Unsettled([e])
    ensures Pending(Next(s, e), error) && SamePhase(s, Next(s, e))
  {
    hide Next, Pending, SamePhase;
    if e.PollerStep? {
      PendingPollerStep(s, e, error);
    } else if OfUpstream(e) {
      if Refuses(e) {
        PendingRefusalStep(s, e, error);
      } else {
        PendingUpstreamStep(s, e, error);
      }
    } else if e.RearmMintSettled? {
      PendingRearmMintStep(s, e.result, error);
    } else if OfRearm(e) {
      PendingRearmStep(s, e, error);
    } else if OfSweepOrSwitch(e) {
      PendingSweepStep(s, e, error);
    } else {
      PendingOtherStep(s, e, error);
    }
  }

  lemma {:induction false} PendingRun(s: State, es: seq<Event>, error: Fatal)
    requires Pending(s, error) && Unsettled(es)
    ensures Pending(Run(s, es), error) && SamePhase(s, Run(s, es))
    decreases |es|
  {
    if es != [] {
      hide Next;
      assert es[0] in es && forall e :: e in es[1..] ==> e in es;
      PendingStep(s, es[0], error);
      PendingRun(Next(s, es[0]), es[1..], error);
    }
  }

  /** The request is taken up: it is not in the grace window, and the error is not shown already. */
  predicate Accepted(s: State, error: Fatal) {
    && s.degrade.Idle? && s.now - s.lastAuthSuccessMs >= RECOVERY_GRACE_MS
    && !(s.auth.Error? && s.auth.message == error.message)
  }

  /** Up to the verdict: the flag is settled after `es1`; a registered sweep has tried its last account after `es2`. */
  predicate Leads(d: State, error: Fatal, es1: seq<Event>, es2: seq<Event>) {
    && Unsettled(es1) && Unsettled(es2)
    && (d.sweepRegistered ==> Run(Next(Run(d, es1), FlagSettled), es2).degrade == AwaitSweep(error, Checking))
  }

  /** The state when the verdict is given that no account works. */
  function AtVerdict(d: State, es1: seq<Event>, es2: seq<Event>): State {
    var flagged := Next(Run(d, es1), FlagSettled);
    if d.sweepRegistered then Next(Run(flagged, es2), SweepSettled(NoneWorked)) else flagged
  }

  /** Every run of a degrade's settlements shows its error, and goes on showing it. */
  ghost predicate VerdictStands(d: State, error: Fatal) {
    forall es1, es2 :: Leads(d, error, es1, es2) ==>
      AtVerdict(d, es1, es2).auth == Error(error.message, error.remediationUrl) && Stands(AtVerdict(d, es1, es2))
  }

  /** Nothing else under way writes the union, and no name can reach a re-arm. */
  predicate NothingElse(d: State) {
    Spent(d) && (NameComing(d) ==> !d.sweepRegistered && !AuthRearm.MayMint(d.rearm))
  }

  lemma AcceptedState(s: State, error: Fatal)
    requires Accepted(s, error)
    ensures var d := Next(s, DegradeRequested(error));
            d.degrade == AwaitFlag(error) && d.githubToken.None? && d.userName.None?
  {
  }

  lemma FlagSettles(t: State, error: Fatal)
    requires t.degrade == AwaitFlag(error)
    ensures var u := Next(t, FlagSettled);
            && u.flows == t.flows && u.pcs == t.pcs && u.starts == t.starts && u.switches == t.switches
            && u.userName == t.userName && u.githubToken == t.githubToken && u.rearm == t.rearm
            && u.sweepRegistered == t.sweepRegistered
            && if t.sweepRegistered then u.degrade == AwaitSweep(error, Checking)
               else u.degrade.Idle? && u.auth == Error(error.message, error.remediationUrl)
  {
  }

  lemma SweepSettles(t: State, error: Fatal, verdict: SweepResult)
    requires t.degrade == AwaitSweep(error, Checking) && !verdict.Recovered?
    ensures var u := Next(t, SweepSettled(verdict));
            && u.flows == t.flows && u.pcs == t.pcs && u.starts == t.starts && u.switches == t.switches
            && u.rearm == t.rearm && u.degrade.Idle? && u.auth == Error(error.message, error.remediationUrl)
            && (if verdict.NoneWorked? then u.userName.None? && u.githubToken.None?
                else u.userName == t.userName && u.githubToken == t.githubToken)
  {
  }

  /** `Spent` and the names to come read no more than this of a state. */
  lemma SameAttempts(t: State, u: State)
    requires u.flows == t.flows && u.pcs == t.pcs && u.starts == t.starts && u.switches == t.switches
    ensures (Spent(u) <==> Spent(t)) && (NameComing(u) <==> NameComing(t))
  {
    assert forall i :: 0 <= i < |u.pcs| ==> (Live(u, i) <==> Live(t, i));
  }

  lemma FlaggedPending(t: State, error: Fatal)
    requires Pending(t, error) && t.degrade == AwaitFlag(error)
    ensures var u := Next(t, FlagSettled);
            if t.sweepRegistered then Pending(u, error)
            else u.auth == Error(error.message, error.remediationUrl) && u.degrade.Idle? && Spent(u) && Nameless(u)
  {
    FlagSettles(t, error);
    hide Next;
    SameAttempts(t, Next(t, FlagSettled));
  }

  lemma VerdictOfNothingElse(d: State, error: Fatal, es1: seq<Event>, es2: seq<Event>)
    requires NothingElse(d) && d.degrade == AwaitFlag(error) && d.githubToken.None? && d.userName.None?
    requires Leads(d, error, es1, es2)
    ensures var u := AtVerdict(d, es1, es2);
            u.auth == Error(error.message, error.remediationUrl) && u.degrade.Idle? && Spent(u) && Nameless(u)
  {
    hide Next;
    PendingRun(d, es1, error);
    var t := Run(d, es1);
    FlaggedPending(t, error);
    if d.sweepRegistered {
      PendingRun(Next(t, FlagSettled), es2, error);
      var v := Run(Next(t, FlagSettled), es2);
      SweepSettles(v, error, NoneWorked);
      SameAttempts(v, Next(v, SweepSettled(NoneWorked)));
    }
  }

  lemma NoEvents(s: State)
    ensures Run(s, []) == s
  {
  }

  /** Without any events in between, the verdict comes with what was under way still under way. */
  lemma StraightVerdict(d: State, error: Fatal)
    requires d.degrade == AwaitFlag(error)
    ensures Leads(d, error, [], [])
    ensures var u := AtVerdict(d, [], []);
            && u.auth == Error(error.message, error.remediationUrl) && u.degrade.Idle? && u.rearm == d.rearm
            && (Spent(u) <==> Spent(d)) && (NameComing(u) <==> NameComing(d))
  {
    FlagSettles(d, error);
    NoEvents(d);
    hide Next;
    var f := Next(d, FlagSettled);
    NoEvents(f);
    SameAttempts(d, f);
    if d.sweepRegistered {
      SweepSettles(f, error, NoneWorked);
      SameAttempts(f, Next(f, SweepSettled(NoneWorked)));
    }
  }

  lemma OneMore(s: State, e: Event, es: seq<Event>) returns (all: seq<Event>)
    requires Unsettled([e]) && Unsettled(es)
    ensures all == [e] + es && Unsettled(all) && Run(s, all) == Run(Next(s, e), es)
  {
    hide Next;
    all := [e] + es;
    assert e in [e];
    Unroll(s, e, es);
  }

  lemma RearmAsks(s: State)
    requires Mintable(s.githubToken) && !AuthRearm.MayMint(s.rearm) && s.rearm.at.None?
    ensures var t := Next(s, RearmAsked);
            && AuthRearm.MayMint(t.rearm) && t.degrade == s.degrade && t.pcs == s.pcs
  {
  }

  lemma RearmConcludes(s: State)
    requires !AuthRearm.MayMint(s.rearm) && s.rearm.at.Some?
    ensures var t := Next(s, RearmConcluded);
            && t.rearm.at.None? && t.githubToken == s.githubToken && t.degrade == s.degrade && t.pcs == s.pcs
  {
  }

  lemma TriesWith(s: State, error: Fatal, token: string)
    requires s.degrade == AwaitSweep(error, Checking)
    ensures var t := Next(s, SweepTries(token, ""));
            && t.degrade == AwaitSweep(error, Trying(token, "")) && t.githubToken == Some(token)
            && t.rearm == s.rearm && t.pcs == s.pcs
  {
  }

  lemma TryFails(s: State, error: Fatal, token: string)
    requires s.degrade == AwaitSweep(error, Trying(token, "")) && !Direct(token)
    ensures var t := Next(s, SweepMinted(false));
            t.degrade == AwaitSweep(error, Checking) && t.rearm == s.rearm && t.pcs == s.pcs
  {
  }

  /** While the sweep mints an account's token a re-arm borrows it; then that account fails. */
  lemma BorrowedToken(f: State, error: Fatal, token: string) returns (es: seq<Event>)
    requires f.degrade == AwaitSweep(error, Checking) && !AuthRearm.MayMint(f.rearm) && Mintable(Some(token))
    ensures Unsettled(es) && Run(f, es).degrade == AwaitSweep(error, Checking)
    ensures AuthRearm.MayMint(Run(f, es).rearm) && Run(f, es).pcs == f.pcs
  {
    TriesWith(f, error, token);
    hide Next;
    var a := Next(f, SweepTries(token, ""));
    es := BorrowedWhileTrying(a, error, token);
    es := OneMore(f, SweepTries(token, ""), es);
  }

  lemma BorrowedWhileTrying(a: State, error: Fatal, token: string) returns (es: seq<Event>)
    requires a.degrade == AwaitSweep(error, Trying(token, "")) && a.githubToken == Some(token)
    requires !AuthRearm.MayMint(a.rearm) && Mintable(Some(token))
    ensures Unsettled(es) && Run(a, es).degrade == AwaitSweep(error, Checking)
    ensures AuthRearm.MayMint(Run(a, es).rearm) && Run(a, es).pcs == a.pcs
    decreases a.rearm.at.Some?
  {
    hide Next;
    if a.rearm.at.Some? {
      RearmConcludes(a);
      es := BorrowedWhileTrying(Next(a, RearmConcluded), error, token);
      es := OneMore(a, RearmConcluded, es);
    } else {
      RearmAsks(a);
      var b := Next(a, RearmAsked);
      TryFails(b, error, token);
      NoEvents(Next(b, SweepMinted(false)));
      es := OneMore(b, SweepMinted(false), []);
      es := OneMore(a, RearmAsked, es);
    }
  }

  lemma BorrowingVerdict(d: State, error: Fatal, token: string) returns (es2: seq<Event>)
    requires d.degrade == AwaitFlag(error) && d.sweepRegistered && !AuthRearm.MayMint(d.rearm)
    requires NameComing(d) && Mintable(Some(token))
    ensures Leads(d, error, [], es2)
    ensures var u := AtVerdict(d, [], es2); u.auth.Error? && u.degrade.Idle? && !Nameless(u)
  {
    FlagSettles(d, error);
    NoEvents(d);
    hide Next;
    var f := Next(d, FlagSettled);
    es2 := BorrowedToken(f, error, token);
    SweepSettles(Run(f, es2), error, NoneWorked);
  }

  /** If anything else is under way, some run of the degrade's settlements ends otherwise. */
  lemma SomethingElseUndoes(d: State, error: Fatal)
    requires d.degrade == AwaitFlag(error) && !NothingElse(d)
    ensures exists es1, es2 :: Leads(d, error, es1, es2) && !Stands(AtVerdict(d, es1, es2))
  {
    hide Next, AtVerdict, Leads, Stands;
    if !Spent(d) || AuthRearm.MayMint(d.rearm) {
      StraightVerdict(d, error);
      StandsExactlyWhen(AtVerdict(d, [], []));
      assert Leads(d, error, [], []) && !Stands(AtVerdict(d, [], []));
    } else {
      var token := "ghu_";
      assert token[2] != DIRECT_BEARER[2];
      var es2 := BorrowingVerdict(d, error, token);
      StandsExactlyWhen(AtVerdict(d, [], es2));
      assert Leads(d, error, [], es2) && !Stands(AtVerdict(d, [], es2));
    }
  }

  /**
   For every accepted request: whatever settles before the flag, during the sweep and afterwards, the
   error is shown and stands, if and only if nothing else was under way that writes the union, and no
   name could reach a re-arm.
   */
  lemma VerdictStandsExactlyWhen(s: State, error: Fatal)
    requires Accepted(s, error)
    ensures var d := Next(s, DegradeRequested(error)); VerdictStands(d, error) <==> NothingElse(d)
  {
    var d := Next(s, DegradeRequested(error));
    AcceptedState(s, error);
    hide Next, AtVerdict, Leads, Stands;
    if NothingElse(d) {
      forall es1, es2 | Leads(d, error, es1, es2)
        ensures AtVerdict(d, es1, es2).auth == Error(error.message, error.remediationUrl)
        ensures Stands(AtVerdict(d, es1, es2))
      {
        VerdictOfNothingElse(d, error, es1, es2);
        StandsExactlyWhen(AtVerdict(d, es1, es2));
      }
    } else {
      SomethingElseUndoes(d, error);
    }
  }

  /** A sweep that throws keeps the tokens it was trying, so what it leaves must have no name to sign in with. */
  lemma ThrownVerdictStandsExactlyWhen(t: State, error: Fatal)
    requires t.degrade == AwaitSweep(error, Checking)
    ensures var u := Next(t, SweepSettled(SweepThrew));
            && u.auth == Error(error.message, error.remediationUrl)
            && (Stands(u) <==> Spent(t) && Nameless(t))
  {
    SweepSettles(t, error, SweepThrew);
    hide Next;
    var u := Next(t, SweepSettled(SweepThrew));
    SameAttempts(t, u);
    StandsExactlyWhen(u);
  }

  /** It does not, once an account whose token can be exchanged has been tried: a re-arm signs its owner in. */
  lemma ThrownSweepLeavesTokens(t: State, error: Fatal)
    requires t.degrade == AwaitSweep(error, Checking) && t.userName.Some? && Mintable(t.githubToken)
    ensures !Stands(Next(t, SweepSettled(SweepThrew)))
  {
    hide Next, Stands;
    ThrownVerdictStandsExactlyWhen(t, error);
  }

  /** With one poller at a time, a degrade stops it, so only the poller's place and work begun elsewhere matter. */
  lemma DegradeStopsPollers(s: State, error: Fatal)
    requires OnePoller(s) && Accepted(s, error) && !StartPending(s) && SwitchesOver(s)
    requires forall i :: 0 <= i < |s.pcs| ==> Harmless(s.pcs[i])
    ensures Spent(Next(s, DegradeRequested(error)))
  {
    var d := Next(s, DegradeRequested(error));
    forall i | 0 <= i < |d.pcs|
      ensures !Live(d, i)
    {
      if Live(s, i) {
        assert CurrentFlow(s) == Some(i);
      }
    }
  }
}
