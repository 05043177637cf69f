/**
 What a sign-out does not stop. Work under way when the user signs out still settles, and the
 refresh loop goes on asking; these are the exact conditions under which none of it undoes the
 sign-out, or brings the wiped token back.
 */
module AuthSignOut {
  import AuthRearm
  import opened AuthFlow
  import opened AuthPollers
  import opened AuthQuiet
  import opened Options

  // ----- the union -----

  /** What must hold right after signing out for it to last. */
  predicate NothingUnderWay(s: State) {
    && Spent(s) && DegradeOver(s)
    && s.upstream == 0 && s.loop.NoLoop? && !MayExchange(s.rearm)
    && (AuthRearm.MayMint(s.rearm) ==> !NameComing(s))
  }

  lemma SignedOutState(before: State)
    ensures var s := Next(before, SignOut);
            s.auth == AuthState.SignedOut && s.githubToken.None? && s.userName.None? && CurrentFlow(s).None?
  {
  }

  /** The loop asks until it is refused for the third time. */
  lemma {:induction false} LoopUndoes(s: State) returns (es: seq<Event>)
    requires !s.loop.NoLoop? && s.auth == AuthState.SignedOut && DegradeOver(s)
    ensures Undoes(AuthState.SignedOut, s, es)
    decreases if s.loop.refusals < FATAL_REFUSALS then FATAL_REFUSALS - s.loop.refusals else 0, s.loop.Asleep?
  {
    var kept := AuthState.SignedOut;
    var refused := RefreshSettled(RefreshRefused(Other(kept)));
    if s.loop.Asleep? {
      es := LoopUndoes(Next(s, RefreshDue));
      es := Then(kept, s, RefreshDue, es);
    } else if LastAttempt(s.loop) {
      es := RefusalUndoes(kept, s, refused);
    } else {
      es := LoopUndoes(Next(s, refused));
      es := Then(kept, s, refused, es);
    }
  }

  lemma ExchangeStartsLoop(s: State)
    requires AuthRearm.Exchanging(s.rearm)
    ensures var t := Next(s, RearmMintSettled(AuthRearm.Online));
            && !t.loop.NoLoop? && t.degrade == s.degrade && t.sweepRegistered == s.sweepRegistered
            && (t.auth == s.auth || t.auth.SignedIn?)
  {
  }

  /** A mint that still works starts the loop, if it does not sign anyone in. */
  lemma ExchangeUndoes(s: State) returns (es: seq<Event>)
    requires AuthRearm.Exchanging(s.rearm) && s.auth == AuthState.SignedOut && DegradeOver(s)
    ensures Undoes(AuthState.SignedOut, s, es)
  {
    var kept, e := AuthState.SignedOut, RearmMintSettled(AuthRearm.Online);
    ExchangeStartsLoop(s);
    hide Next;
    if Next(s, e).auth.SignedIn? {
      es := AtOnce(kept, s, e);
    } else {
      es := LoopUndoes(Next(s, e));
      es := Then(kept, s, e, es);
    }
  }

  lemma RenewalExchanges(s: State)
    requires s.rearm.at == Some(AuthRearm.Renewing)
    ensures var t := Next(s, RearmRenewed(Some("")));
            AuthRearm.Exchanging(t.rearm) && t.auth == s.auth && t.degrade == s.degrade
  {
  }

  lemma MayExchangeUndoes(s: State) returns (es: seq<Event>)
    requires MayExchange(s.rearm) && s.auth == AuthState.SignedOut && DegradeOver(s)
    ensures Undoes(AuthState.SignedOut, s, es)
  {
    if AuthRearm.Exchanging(s.rearm) {
      es := ExchangeUndoes(s);
    } else {
      RenewalExchanges(s);
      hide Next;
      es := ExchangeUndoes(Next(s, RearmRenewed(Some(""))));
      es := Then(AuthState.SignedOut, s, RearmRenewed(Some("")), es);
    }
  }

  lemma UnderWayUndoes(s: State) returns (es: seq<Event>)
    requires s.auth == AuthState.SignedOut && !NothingUnderWay(s)
    ensures Undoes(AuthState.SignedOut, s, es)
  {
    hide Next;
    var kept := AuthState.SignedOut;
    if !DegradeOver(s) {
      es := DegradeUndoes(kept, s);
    } else if !Spent(s) {
      es := UnspentUndoes(kept, s);
    } else if s.upstream > 0 {
      es := RefusalUndoes(kept, s, UpstreamRefused(Other(kept)));
    } else if !s.loop.NoLoop? {
      es := LoopUndoes(s);
    } else if MayExchange(s.rearm) {
      es := MayExchangeUndoes(s);
    } else {
      es := NameUndoes(kept, s);
    }
  }

  lemma AllowedWhenSignedOut(es: seq<Event>)
    ensures AllowedRun(AuthState.SignedOut, es) <==> QuietRun(es)
  {
  }

  /**
   For every state in which the user signs out: nothing that happens by itself undoes it if and
   only if nothing is under way that could.
   */
  lemma SignOutSticksExactlyWhen(before: State)
    ensures var s := Next(before, SignOut);
            (forall es :: QuietRun(es) ==> Run(s, es).auth.SignedOut?) <==> NothingUnderWay(s)
  {
    var s := Next(before, SignOut);
    SignedOutState(before);
    hide Next;
    if NothingUnderWay(s) {
      forall es | QuietRun(es)
        ensures Run(s, es).auth.SignedOut?
      {
        AllowedWhenSignedOut(es);
        KeptRun(s, es, AuthState.SignedOut);
      }
    } else {
      var es := UnderWayUndoes(s);
      AllowedWhenSignedOut(es);
      assert QuietRun(es) && !Run(s, es).auth.SignedOut?;
    }
  }

  /** An ordinary session: signed in, its refresh loop asleep, and nothing else under way. */
  predicate AtRest(s: State) {
    && s.auth.SignedIn? && s.loop == Asleep(0) && s.degrade.Idle?
    && Spent(s) && s.upstream == 0 && s.rearm.at.None?
  }

  lemma SignOutLeavesLoop(before: State)
    ensures Next(before, SignOut).loop == before.loop
  {
  }

  /** So it does not last even there: the loop asks without a token until it is refused for good. */
  lemma OrdinarySignOutDoesNotStick(before: State) returns (es: seq<Event>)
    requires AtRest(before)
    ensures QuietRun(es) && !Run(Next(before, SignOut), es).auth.SignedOut?
  {
    var s := Next(before, SignOut);
    SignedOutState(before);
    SignOutLeavesLoop(before);
    hide Next;
    assert !NothingUnderWay(s);
    es := UnderWayUndoes(s);
    AllowedWhenSignedOut(es);
  }

  // ----- a run in which a re-arm signs the user back in -----

  /** A second sign-in has begun. */
  function Beginning(code: DeviceCode, token: string, first: string): State {
    var s := Next(Next(Next(Boot, TokenInstalled(token)), MarkSignedIn(first, None)), Start);
    Next(s, StartIssued(0, code))
  }

  /** It asks who the user is, while a re-arm mints. */
  function Busy(code: DeviceCode, token: string, first: string): State {
    Next(Next(Beginning(code, token, first), PollerStep(0, GotToken(token))), RearmAsked)
  }

  lemma BeginningIsPolling(code: DeviceCode, token: string, first: string)
    ensures var s := Beginning(code, token, first);
            && s.auth == Polling(0) && s.pcs == [AwaitToken] && s.now == 0 && s.rearm.at == None
            && s.githubToken == Some(token) && |s.flows| == 1 && !s.flows[0].aborted
  {
  }

  lemma RearmBesideSignIn(s: State, token: string)
    requires s.auth == Polling(0) && s.pcs == [AwaitToken] && s.now == 0 && s.rearm.at == None
    requires s.githubToken == Some(token) && |s.flows| == 1 && !s.flows[0].aborted && Mintable(Some(token))
    ensures var t := Next(Next(s, PollerStep(0, GotToken(token))), RearmAsked);
            && t.auth == Polling(0) && t.pcs == [AwaitUser(token)] && t.now == 0
            && t.rearm.at == Some(AuthRearm.FirstMint)
  {
  }

  lemma BusyIsBusy(code: DeviceCode, token: string, first: string)
    requires Mintable(Some(token))
    ensures var s := Busy(code, token, first);
            && s.auth == Polling(0) && s.pcs == [AwaitUser(token)] && s.now == 0
            && s.rearm.at == Some(AuthRearm.FirstMint)
  {
    BeginningIsPolling(code, token, first);
    hide Next;
    RearmBesideSignIn(Beginning(code, token, first), token);
  }

  lemma NameThenMintSignsIn(s: State, token: string, second: string)
    requires s.auth == Polling(0) && s.pcs == [AwaitUser(token)] && s.now == 0
    requires s.rearm.at == Some(AuthRearm.FirstMint)
    ensures var t := Next(s, SignOut);
            var named := Next(t, PollerStep(0, GotUser(second, None)));
            && t.auth.SignedOut? && named.auth.SignedOut?
            && Next(named, RearmMintSettled(AuthRearm.Online)).auth == SignedIn(Identity(second, None, Some(0)))
  {
  }

  /** The user signs out; the answer arrives and sets the name; the mint works and signs that name in. */
  lemma SignedBackInByRearm(code: DeviceCode, token: string, first: string, second: string)
    requires Mintable(Some(token))
    ensures var s := Next(Busy(code, token, first), SignOut);
            var named := Next(s, PollerStep(0, GotUser(second, None)));
            && s.auth.SignedOut? && named.auth.SignedOut?
            && Next(named, RearmMintSettled(AuthRearm.Online)).auth == SignedIn(Identity(second, None, Some(0)))
  {
    hide Next;
    BusyIsBusy(code, token, first);
    NameThenMintSignsIn(Busy(code, token, first), token, second);
  }
}
