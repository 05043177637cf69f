/** Whether the GitHub token that a sign-out wipes stays wiped. */
module AuthToken {
  import AuthRearm
  import opened AuthFlow
  import opened AuthPollers
  import opened AuthQuiet
  import opened AuthSignOut
  import opened Options

  /** A poller that may be refused a mint. */
  predicate Refusable(at: PollerAt) {
    at.AwaitMint? && !Direct(at.token)
  }

  /** No poller is on its way to storing a token, and with a sweep registered none can start it. */
  predicate PollersTokenless(s: State) {
    forall i :: 0 <= i < |s.pcs| ==> PollerTokenless(s, i)
  }

  predicate PollerTokenless(s: State, i: nat)
    requires i < |s.pcs|
  {
    && !s.pcs[i].AwaitAccount?
    && (s.sweepRegistered ==> !Refusable(s.pcs[i]))
    && (s.flows[i].aborted || (!s.pcs[i].AwaitToken? && !s.pcs[i].AwaitUser?))
  }

  predicate SwitchesTokenless(s: State) {
    forall k :: 0 <= k < |s.switches| ==> SwitchTokenless(s, s.switches[k])
  }

  /** A switch that mints starts the refresh loop, which with a sweep registered can start that. */
  predicate SwitchTokenless(s: State, at: SwitchAt) {
    !at.SwitchPreflight? && (s.sweepRegistered && at.SwitchMint? ==> Direct(at.token))
  }

  /** No sweep will try another account, and none is about to. */
  predicate SweepOver(s: State) {
    && (s.degrade.AwaitSweep? ==> s.degrade.at.Caching? || s.degrade.at.Landed?)
    && (s.degrade.AwaitFlag? ==> !s.sweepRegistered)
  }

  /** Nobody asks the upstream for anything, and nobody will. */
  predicate NobodyAsks(s: State) {
    s.upstream == 0 && s.loop.NoLoop? && !MayExchange(s.rearm)
  }

  predicate NoTokenComing(s: State) {
    && PollersTokenless(s) && !StartPending(s) && SwitchesTokenless(s) && SweepOver(s)
    && s.rearm.at != Some(AuthRearm.FirstMint) && s.rearm.at != Some(AuthRearm.Renewing)
    && (s.sweepRegistered ==> NobodyAsks(s))
  }

  predicate Wiped(s: State) {
    s.githubToken.None? && NoTokenComing(s) && CurrentFlow(s).None?
  }

  // ----- then no token comes -----

  /** Pollers, starts and switches stay as they are, and no flow that was stopped goes on. */
  lemma TokenlessStays(s: State, t: State)
    requires PollersTokenless(s) && !StartPending(s) && SwitchesTokenless(s) && CurrentFlow(s).None?
    requires t.pcs == s.pcs && t.starts == s.starts && t.switches == s.switches
    requires t.sweepRegistered == s.sweepRegistered && (t.flows == s.flows || t.flows == AbortCurrent(s).flows)
    ensures PollersTokenless(t) && !StartPending(t) && SwitchesTokenless(t)
  {
    forall i | 0 <= i < |t.pcs|
      ensures PollerTokenless(t, i)
    {
      assert PollerTokenless(s, i);
    }
    forall k | 0 <= k < |t.switches|
      ensures SwitchTokenless(t, t.switches[k])
    {
      assert SwitchTokenless(s, s.switches[k]);
    }
  }

  /** One poller or one switch moves on, to where it brings no token either. */
  lemma TokenlessMoves(s: State, t: State, i: nat)
    requires PollersTokenless(s) && i < |s.pcs| == |t.pcs| && t.flows == s.flows && t.pcs == s.pcs[i := t.pcs[i]]
    requires t.sweepRegistered == s.sweepRegistered && PollerTokenless(t, i)
    ensures PollersTokenless(t)
  {
    forall j | 0 <= j < |t.pcs|
      ensures PollerTokenless(t, j)
    {
      assert PollerTokenless(s, j);
    }
  }

  lemma WipedRequestEffect(s: State, error: Fatal)
    requires s.githubToken.None? && SweepOver(s) && CurrentFlow(s).None?
    ensures var t := AfterDegradeRequested(s, error);
            && t.githubToken.None? && CurrentFlow(t).None?
            && (!s.sweepRegistered ==> SweepOver(t))
  {
  }

  lemma WipedIdentityStep(s: State, i: nat, o: Outcome)
    requires Wiped(s) && Pollable(s, i) && Fits(s.pcs[i], o) && (s.pcs[i].AwaitToken? || s.pcs[i].AwaitUser?)
    ensures Wiped(Next(s, PollerStep(i, o)))
  {
    var t := Next(s, PollerStep(i, o));
    assert PollerTokenless(s, i);
    TokenlessMoves(s, t, i);
  }

  lemma WipedMintStep(s: State, i: nat, o: Outcome)
    requires Wiped(s) && Pollable(s, i) && Fits(s.pcs[i], o) && s.pcs[i].AwaitMint?
    ensures Wiped(Next(s, PollerStep(i, o)))
  {
    hide AfterDegradeRequested;
    var t := Next(s, PollerStep(i, o));
    assert PollerTokenless(s, i);
    if o.result.AuthFatal? {
      assert !s.sweepRegistered;
      DegradeRequestEffect(Stopped(s, i), o.result.error);
      WipedRequestEffect(Stopped(s, i), o.result.error);
    }
    TokenlessMoves(s, t, i);
  }

  lemma WipedModelsStep(s: State, i: nat, o: Outcome)
    requires Wiped(s) && Pollable(s, i) && Fits(s.pcs[i], o) && s.pcs[i].AwaitModels?
    ensures Wiped(Next(s, PollerStep(i, o)))
  {
    TokenlessMoves(s, Next(s, PollerStep(i, o)), i);
  }

  lemma WipedPollerStep(s: State, e: Event)
    requires Wiped(s) && e.PollerStep?
    ensures Wiped(Next(s, e))
  {
    if Enabled(s, e) {
      NoneStores(s, e.flow);
      hide AfterPoller, Wiped;
      if s.pcs[e.flow].AwaitMint? {
        WipedMintStep(s, e.flow, e.outcome);
      } else if s.pcs[e.flow].AwaitModels? {
        WipedModelsStep(s, e.flow, e.outcome);
      } else {
        WipedIdentityStep(s, e.flow, e.outcome);
      }
    }
  }

  lemma NoneStores(s: State, i: nat)
    requires Wiped(s) && i < |s.pcs|
    ensures !s.pcs[i].AwaitAccount?
  {
    assert PollerTokenless(s, i);
  }

  lemma WipedRefusalStep(s: State, e: Event)
    requires Wiped(s) && OfUpstream(e) && Refuses(e)
    ensures Wiped(Next(s, e))
  {
    if Enabled(s, e) {
      hide AfterDegradeRequested;
      var before := if e.UpstreamRefused? then s.(upstream := s.upstream - 1) else s.(loop := NoLoop);
      var error := if e.UpstreamRefused? then e.error else e.answer.error;
      DegradeRequestEffect(before, error);
      WipedRequestEffect(before, error);
      TokenlessStays(s, Next(s, e));
    }
  }

  lemma WipedUpstreamStep(s: State, e: Event)
    requires Wiped(s) && Quiet(e) && OfUpstream(e) && !Refuses(e)
    ensures Wiped(Next(s, e))
  {
    TokenlessStays(s, Next(s, e));
  }

  lemma WipedRearmMintStep(s: State, result: AuthRearm.Outcome)
    requires Wiped(s)
    ensures Wiped(Next(s, RearmMintSettled(result)))
  {
    TokenlessStays(s, Next(s, RearmMintSettled(result)));
  }

  lemma WipedRearmStep(s: State, e: Event)
    requires Wiped(s) && OfRearm(e) && !e.RearmMintSettled?
    ensures Wiped(Next(s, e))
  {
    TokenlessStays(s, Next(s, e));
  }

  lemma WipedSwitchStep(s: State, e: Event)
    requires Wiped(s) && e.SwitchStep?
    ensures Wiped(Next(s, e))
  {
    if Enabled(s, e) {
      var t := Next(s, e);
      assert SwitchTokenless(s, s.switches[e.switch]);
      assert t.pcs == s.pcs && t.flows == s.flows && t.starts == s.starts;
      forall i | 0 <= i < |t.pcs|
        ensures PollerTokenless(t, i)
      {
        assert PollerTokenless(s, i);
      }
      forall k | 0 <= k < |t.switches|
        ensures SwitchTokenless(t, t.switches[k])
      {
        assert k != e.switch ==> SwitchTokenless(s, s.switches[k]);
      }
    }
  }

  lemma WipedSweepStep(s: State, e: Event)
    requires Wiped(s) && OfSweepOrSwitch(e) && Quiet(e) && !e.SwitchStep?
    ensures Wiped(Next(s, e))
  {
    TokenlessStays(s, Next(s, e));
  }

  lemma WipedOtherStep(s: State, e: Event)
    requires Wiped(s) && Quiet(e) && !e.PollerStep? && !Beside(e)
    ensures Wiped(Next(s, e))
  {
    NoneWaiting(s);
    TokenlessStays(s, Next(s, e));
  }

  lemma WipedStep(s: State, e: Event)
    requires Wiped(s) && Quiet(e)
    ensures Wiped(Next(s, e))
  {
    hide Next, Wiped;
    if e.PollerStep? {
      WipedPollerStep(s, e);
    } else if OfUpstream(e) {
      if Refuses(e) {
        WipedRefusalStep(s, e);
      } else {
        WipedUpstreamStep(s, e);
      }
    } else if e.RearmMintSettled? {
      WipedRearmMintStep(s, e.result);
    } else if OfRearm(e) {
      WipedRearmStep(s, e);
    } else if e.SwitchStep? {
      WipedSwitchStep(s, e);
    } else if OfSweepOrSwitch(e) {
      WipedSweepStep(s, e);
    } else {
      WipedOtherStep(s, e);
    }
  }

  lemma {:induction false} WipedRunKeeps(s: State, es: seq<Event>)
    requires Wiped(s) && QuietRun(es)
    ensures Run(s, es).githubToken.None?
    decreases |es|
  {
    if es != [] {
      hide Next;
      assert es[0] in es && forall e :: e in es[1..] ==> e in es;
      WipedStep(s, es[0]);
      WipedRunKeeps(Next(s, es[0]), es[1..]);
    }
  }

  // ----- and everything else can bring one -----

  /** `es` is a quiet run after which there is a GitHub token in memory. */
  predicate Restores(s: State, es: seq<Event>) {
    QuietRun(es) && Run(s, es).githubToken.Some?
  }

  lemma Then(s: State, e: Event, es: seq<Event>) returns (all: seq<Event>)
    requires Quiet(e) && Restores(Next(s, e), es)
    ensures Restores(s, all)
  {
    hide Next;
    all := [e] + es;
    Unroll(s, e, es);
  }

  lemma AtOnce(s: State, e: Event) returns (all: seq<Event>)
    requires Quiet(e) && Next(s, e).githubToken.Some?
    ensures Restores(s, all)
  {
    hide Next;
    all := Then(s, e, []);
  }

  lemma {:induction false} StoringPollerRestores(s: State, i: nat) returns (es: seq<Event>)
    requires i < |s.pcs|
    requires s.pcs[i].AwaitAccount? || (!s.flows[i].aborted && (s.pcs[i].AwaitToken? || s.pcs[i].AwaitUser?))
    ensures Restores(s, es)
    decreases s.pcs[i].AwaitToken?, s.pcs[i].AwaitUser?
  {
    if s.pcs[i].AwaitAccount? {
      es := AtOnce(s, PollerStep(i, AccountStored));
    } else {
      var e := PollerStep(i, if s.pcs[i].AwaitToken? then GotToken("") else GotUser("", None));
      es := StoringPollerRestores(Next(s, e), i);
      es := Then(s, e, es);
    }
  }

  /** A sweep that has not landed tries an account, if need be the next one. */
  lemma {:induction false} SweepRestores(s: State) returns (es: seq<Event>)
    requires !SweepOver(s)
    ensures Restores(s, es)
    decreases match s.degrade
              case AwaitFlag(_) => 3
              case AwaitSweep(_, at) => if at.Trying? then 2 else if at.Committing? then 1 else 0
              case _ => 0
  {
    if s.degrade.AwaitFlag? {
      es := SweepRestores(Next(s, FlagSettled));
      es := Then(s, FlagSettled, es);
    } else if s.degrade.at.Checking? {
      es := AtOnce(s, SweepTries("", ""));
    } else {
      var e := if s.degrade.at.Trying? then SweepMinted(Direct(s.degrade.at.token)) else SweepCommitted(false);
      es := SweepRestores(Next(s, e));
      es := Then(s, e, es);
    }
  }

  /** The union does not give the reason of this refusal already. */
  predicate NotShown(s: State) {
    !(s.auth.Error? && s.auth.message == Other(AuthState.SignedOut).message)
  }

  /** A refusal that is taken up, once the grace window is over. */
  predicate Refusing(s: State, e: Event) {
    IsRefused(AuthState.SignedOut, s, e) && Quiet(e) && NotShown(s) && s.sweepRegistered
  }

  lemma RefusalSweeps(s: State, e: Event)
    requires Refusing(s, e) && s.degrade.Idle? && s.now == s.lastAuthSuccessMs + RECOVERY_GRACE_MS
    ensures !SweepOver(Next(s, e))
  {
  }

  lemma LateRefusalRestores(s: State, e: Event) returns (es: seq<Event>)
    requires Refusing(s, e) && s.degrade.Idle? && s.now == s.lastAuthSuccessMs + RECOVERY_GRACE_MS
    ensures Restores(s, es)
  {
    RefusalSweeps(s, e);
    hide Next;
    es := SweepRestores(Next(s, e));
    es := Then(s, e, es);
  }

  lemma LaterIsRefusing(s: State, e: Event, time: int)
    requires Refusing(s, e)
    ensures var t := Next(s, ClockReads(time));
            Refusing(t, e) && t.degrade == s.degrade && t.now == time && t.lastAuthSuccessMs == s.lastAuthSuccessMs
  {
  }

  lemma IdleRefusalRestores(s: State, e: Event) returns (es: seq<Event>)
    requires Refusing(s, e) && s.degrade.Idle?
    ensures Restores(s, es)
  {
    var later := ClockReads(s.lastAuthSuccessMs + RECOVERY_GRACE_MS);
    LaterIsRefusing(s, e, later.time);
    hide Next;
    es := LateRefusalRestores(Next(s, later), e);
    es := Then(s, later, es);
  }

  lemma SweepMovesOn(s: State, e: Event)
    requires Refusing(s, e) && s.degrade.AwaitSweep? && (s.degrade.at.Caching? || s.degrade.at.Landed?)
    ensures s.degrade.at.Caching? ==>
              var t := Next(s, SweepLands); Refusing(t, e) && t.degrade.AwaitSweep? && t.degrade.at.Landed?
    ensures s.degrade.at.Landed? ==>
              var t := Next(s, SweepSettled(Recovered)); Refusing(t, e) && t.degrade.Idle?
  {
  }

  /** A sweep that is about to succeed reports first, and the refusal starts another. */
  lemma {:induction false} RefusalRestores(s: State, e: Event) returns (es: seq<Event>)
    requires Refusing(s, e) && SweepOver(s)
    ensures Restores(s, es)
    decreases s.degrade.AwaitSweep?, s.degrade.AwaitSweep? && s.degrade.at.Caching?
  {
    hide Next;
    if s.degrade.Idle? {
      es := IdleRefusalRestores(s, e);
    } else {
      SweepMovesOn(s, e);
      var first := if s.degrade.at.Caching? then SweepLands else SweepSettled(Recovered);
      es := RefusalRestores(Next(s, first), e);
      es := Then(s, first, es);
    }
  }

  /** With a sweep registered the loop starts it by being refused for the third time. */
  lemma {:induction false} LoopRestores(s: State) returns (es: seq<Event>)
    requires !s.loop.NoLoop? && NotShown(s) && SweepOver(s) && s.sweepRegistered
    ensures Restores(s, es)
    decreases if s.loop.refusals < FATAL_REFUSALS then FATAL_REFUSALS - s.loop.refusals else 0, s.loop.Asleep?
  {
    var refused := RefreshSettled(RefreshRefused(Other(AuthState.SignedOut)));
    if s.loop.Asleep? {
      es := LoopRestores(Next(s, RefreshDue));
      es := Then(s, RefreshDue, es);
    } else if LastAttempt(s.loop) {
      es := RefusalRestores(s, refused);
    } else {
      es := LoopRestores(Next(s, refused));
      es := Then(s, refused, es);
    }
  }

  lemma ExchangeRestores(s: State) returns (es: seq<Event>)
    requires AuthRearm.Exchanging(s.rearm) && NotShown(s) && SweepOver(s) && s.sweepRegistered
    ensures Restores(s, es)
  {
    var e := RearmMintSettled(AuthRearm.Online);
    ExchangeStartsLoop(s);
    hide Next;
    es := LoopRestores(Next(s, e));
    es := Then(s, e, es);
  }

  lemma SwitchStartsLoop(s: State, k: nat)
    requires k < |s.switches| && s.switches[k].SwitchMint? && !Direct(s.switches[k].token)
    ensures var t := Next(s, SwitchStep(k, true));
            !t.loop.NoLoop? && t.degrade == s.degrade && t.auth == s.auth && t.sweepRegistered == s.sweepRegistered
  {
  }

  lemma SwitchRestores(s: State, k: nat) returns (es: seq<Event>)
    requires k < |s.switches| && !SwitchTokenless(s, s.switches[k]) && NotShown(s) && SweepOver(s)
    ensures Restores(s, es)
  {
    var e := SwitchStep(k, true);
    if s.switches[k].SwitchPreflight? {
      es := AtOnce(s, e);
    } else {
      SwitchStartsLoop(s, k);
      hide Next;
      es := LoopRestores(Next(s, e));
      es := Then(s, e, es);
    }
  }

  lemma RenewalRestores(s: State) returns (es: seq<Event>)
    requires s.rearm.at == Some(AuthRearm.FirstMint) || s.rearm.at == Some(AuthRearm.Renewing)
    ensures Restores(s, es)
  {
    if s.rearm.at == Some(AuthRearm.Renewing) {
      es := AtOnce(s, RearmRenewed(Some("")));
    } else {
      var fatal := RearmMintSettled(AuthRearm.AuthFatal);
      es := AtOnce(Next(s, fatal), RearmRenewed(Some("")));
      es := Then(s, fatal, es);
    }
  }

  lemma PendingStartRestores(s: State, k: nat) returns (es: seq<Event>)
    requires k < |s.starts| && s.starts[k].Waiting?
    ensures Restores(s, es)
  {
    var e := StartIssued(k, DeviceCode("", "", 0));
    es := StoringPollerRestores(Next(s, e), |s.pcs|);
    es := Then(s, e, es);
  }

  lemma PollerRestores(s: State, i: nat) returns (es: seq<Event>)
    requires i < |s.pcs| && !PollerTokenless(s, i) && NotShown(s) && SweepOver(s)
    ensures Restores(s, es)
  {
    if s.pcs[i].AwaitMint? {
      es := RefusalRestores(s, Refusal(AuthState.SignedOut, i));
    } else {
      es := StoringPollerRestores(s, i);
    }
  }

  lemma AskingRestores(s: State) returns (es: seq<Event>)
    requires !NobodyAsks(s) && s.sweepRegistered && NotShown(s) && SweepOver(s)
    requires s.rearm.at != Some(AuthRearm.Renewing)
    ensures Restores(s, es)
  {
    if s.upstream > 0 {
      es := RefusalRestores(s, UpstreamRefused(Other(AuthState.SignedOut)));
    } else if !s.loop.NoLoop? {
      es := LoopRestores(s);
    } else {
      es := ExchangeRestores(s);
    }
  }

  lemma TokenComingRestores(s: State) returns (es: seq<Event>)
    requires s.auth == AuthState.SignedOut && !NoTokenComing(s)
    ensures Restores(s, es)
  {
    hide Next;
    if !SweepOver(s) {
      es := SweepRestores(s);
    } else if !PollersTokenless(s) {
      var i :| 0 <= i < |s.pcs| && !PollerTokenless(s, i);
      es := PollerRestores(s, i);
    } else if StartPending(s) {
      var k :| 0 <= k < |s.starts| && s.starts[k].Waiting?;
      es := PendingStartRestores(s, k);
    } else if !SwitchesTokenless(s) {
      var k :| 0 <= k < |s.switches| && !SwitchTokenless(s, s.switches[k]);
      es := SwitchRestores(s, k);
    } else if s.rearm.at == Some(AuthRearm.FirstMint) || s.rearm.at == Some(AuthRearm.Renewing) {
      es := RenewalRestores(s);
    } else {
      es := AskingRestores(s);
    }
  }

  /** For every state: the wiped GitHub token stays wiped if and only if nothing under way could bring one. */
  lemma WipedTokenStaysWipedExactlyWhen(before: State)
    ensures var s := Next(before, SignOut);
            (forall es :: QuietRun(es) ==> Run(s, es).githubToken.None?) <==> NoTokenComing(s)
  {
    var s := Next(before, SignOut);
    SignedOutState(before);
    hide Next;
    if NoTokenComing(s) {
      forall es | QuietRun(es)
        ensures Run(s, es).githubToken.None?
      {
        WipedRunKeeps(s, es);
      }
    } else {
      var es := TokenComingRestores(s);
      assert QuietRun(es) && Run(s, es).githubToken.Some?;
    }
  }
}
