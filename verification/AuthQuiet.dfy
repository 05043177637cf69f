/**
 Quiet runs: what happens by itself once the user has stopped acting. Whatever was under way still
 settles, and the refresh loop goes on asking. Here is what none of it changes, and what does.
 */
module AuthQuiet {
  import AuthRearm
  import opened AuthFlow
  import opened AuthPollers
  import opened Options

  /** Whatever happens by itself: nobody starts, signs in or out, switches account or sends a request. */
  predicate Quiet(e: Event) {
    && !e.Start? && !e.SignOut? && !e.MarkSignedIn? && !e.MarkSignedOut? && !e.SwitchRequested?
    && !e.TokenInstalled? && !e.SweepRegistered? && !e.DegradeRequested? && !e.UpstreamSent?
  }

  predicate QuietRun(es: seq<Event>) {
    forall e :: e in es ==> Quiet(e)
  }

  /** A request or the loop is refused for this reason, if at all. */
  predicate Repeats(message: string, e: Event) {
    && (e.UpstreamRefused? ==> e.error.message == message)
    && (e.RefreshSettled? && e.answer.RefreshRefused? ==> e.answer.error.message == message)
  }

  predicate OnlyRepeats(message: string, es: seq<Event>) {
    forall e :: e in es ==> Repeats(message, e)
  }

  /** Quiet; and over an error, refusals are for the reason it already gives. */
  predicate Allowed(kept: AuthState, e: Event) {
    Quiet(e) && (kept.Error? ==> Repeats(kept.message, e))
  }

  predicate AllowedRun(kept: AuthState, es: seq<Event>) {
    forall e :: e in es ==> Allowed(kept, e)
  }

  lemma AllowedCons(kept: AuthState, e: Event, es: seq<Event>)
    requires Allowed(kept, e) && AllowedRun(kept, es)
    ensures AllowedRun(kept, [e] + es)
  {
  }

  lemma AllowedTail(kept: AuthState, es: seq<Event>)
    requires AllowedRun(kept, es) && es != []
    ensures Allowed(kept, es[0]) && AllowedRun(kept, es[1..])
  {
    assert es[0] in es && forall e :: e in es[1..] ==> e in es;
  }

  // ----- what may still be under way -----

  /** A stopped poller here ends without writing the union and without a request that can be refused. */
  predicate Harmless(at: PollerAt) {
    at.AwaitToken? || at.AwaitUser? || at.Ended? || ((at.AwaitAccount? || at.AwaitMint?) && Direct(at.token))
  }

  predicate PollersHarmless(s: State) {
    forall i :: 0 <= i < |s.pcs| ==> Harmless(s.pcs[i]) && !Live(s, i)
  }

  /** Some poller will set the user name. */
  predicate NameComing(s: State) {
    exists i :: 0 <= i < |s.pcs| && s.pcs[i].AwaitUser?
  }

  predicate SwitchesOver(s: State) {
    forall k :: 0 <= k < |s.switches| ==> s.switches[k].SwitchOver?
  }

  /** No attempt, no switch and no poller is under way that could write the union. */
  predicate Spent(s: State) {
    PollersHarmless(s) && !StartPending(s) && SwitchesOver(s)
  }

  /** No degrade is under way whose verdict is still to come. */
  predicate DegradeOver(s: State) {
    s.degrade.Idle? || (s.degrade.AwaitSweep? && s.degrade.at.Landed?)
  }

  /** A re-arm cannot end with a name: there is none to come, or nothing to mint with. */
  predicate Nameless(s: State) {
    || (s.userName.None? && !NameComing(s))
    || (!Mintable(s.githubToken) && !AuthRearm.MayMint(s.rearm))
  }

  /** A re-arm's mint can still be exchanged, and so start the refresh loop. */
  predicate MayExchange(f: AuthRearm.Flight) {
    AuthRearm.Exchanging(f) || f.at == Some(AuthRearm.Renewing)
  }

  /** Nobody asks the upstream for anything, now or later. */
  predicate Calm(s: State) {
    s.upstream == 0 && s.loop.NoLoop? && !MayExchange(s.rearm) && !Mintable(s.githubToken)
  }

  // ----- then nothing writes the union -----

  /** The union reads `kept`, and nothing under way will change that; refusals can, unless it is an error. */
  predicate Kept(s: State, kept: AuthState) {
    && s.auth == kept && (kept.SignedOut? || kept.Error?)
    && Spent(s) && Nameless(s) && DegradeOver(s) && (kept.SignedOut? ==> Calm(s))
  }

  lemma NoneWaiting(s: State)
    requires !StartPending(s)
    ensures forall k :: 0 <= k < |s.starts| ==> s.starts[k].Returned?
  {
  }

  /** A stopped, harmless poller may bring the name it was asking for, or a token that needs no mint. */
  lemma HarmlessPollerStep(s: State, i: nat, o: Outcome)
    requires Pollable(s, i) && Fits(s.pcs[i], o) && Harmless(s.pcs[i]) && !Live(s, i)
    ensures var t := Next(s, PollerStep(i, o));
            && t.auth == s.auth && t.degrade == s.degrade && t.rearm == s.rearm && t.flows == s.flows
            && t.sweepRegistered == s.sweepRegistered
            && |t.pcs| == |s.pcs| && t.pcs == s.pcs[i := t.pcs[i]] && Harmless(t.pcs[i]) && !t.pcs[i].AwaitUser?
            && t.starts == s.starts && t.switches == s.switches
            && (t.userName == s.userName || s.pcs[i].AwaitUser?)
            && (t.githubToken == s.githubToken || !Mintable(t.githubToken))
            && (s.loop.NoLoop? ==> t.loop == s.loop && t.upstream == s.upstream)
  {
  }

  lemma SpentAfterPoller(s: State, t: State, i: nat)
    requires Spent(s) && i < |s.pcs| == |t.pcs| && s.flows[i].aborted
    requires t.flows == s.flows && t.pcs == s.pcs[i := t.pcs[i]]
    requires Harmless(t.pcs[i]) && !t.pcs[i].AwaitUser? && t.starts == s.starts && t.switches == s.switches
    ensures Spent(t) && (NameComing(t) ==> NameComing(s))
  {
    forall j | 0 <= j < |t.pcs|
      ensures Harmless(t.pcs[j]) && !Live(t, j)
    {
      assert Harmless(s.pcs[j]) && !Live(s, j);
    }
  }

  lemma KeptPollerStep(s: State, e: Event, kept: AuthState)
    requires Kept(s, kept) && e.PollerStep?
    ensures Kept(Next(s, e), kept)
  {
    if Enabled(s, e) {
      hide AfterPoller;
      var t := Next(s, e);
      assert Harmless(s.pcs[e.flow]) && !Live(s, e.flow);
      HarmlessPollerStep(s, e.flow, e.outcome);
      SpentAfterPoller(s, t, e.flow);
      assert s.pcs[e.flow].AwaitUser? ==> NameComing(s);
    }
  }

  /** The flows and everything about them stay as they were. */
  lemma SpentStays(s: State, t: State)
    requires Spent(s) && t.pcs == s.pcs && t.starts == s.starts && t.switches == s.switches
    requires t.flows == s.flows || t.flows == AbortCurrent(s).flows
    ensures Spent(t) && (NameComing(t) <==> NameComing(s))
  {
    forall i | 0 <= i < |t.pcs|
      ensures Harmless(t.pcs[i]) && !Live(t, i)
    {
      assert Harmless(s.pcs[i]) && !Live(s, i);
    }
  }

  lemma RepeatedRequestEffect(s: State, error: Fatal)
    requires s.auth.Error? && s.auth.message == error.message && DegradeOver(s)
    ensures var t := AfterDegradeRequested(s, error);
            && t.degrade == s.degrade
            && ((t.userName == s.userName && t.githubToken == s.githubToken)
                || (t.userName.None? && t.githubToken.None?))
  {
  }

  lemma KeptRefusalStep(s: State, e: Event, kept: AuthState)
    requires Kept(s, kept) && Allowed(kept, e) && OfUpstream(e) && Refuses(e)
    ensures Kept(Next(s, e), kept)
  {
    if Enabled(s, e) {
      hide AfterDegradeRequested;
      var t := Next(s, e);
      if e.UpstreamRefused? {
        DegradeRequestEffect(s.(upstream := s.upstream - 1), e.error);
        RepeatedRequestEffect(s.(upstream := s.upstream - 1), e.error);
      } else {
        DegradeRequestEffect(s.(loop := NoLoop), e.answer.error);
        RepeatedRequestEffect(s.(loop := NoLoop), e.answer.error);
      }
      SpentStays(s, t);
    }
  }

  lemma KeptUpstreamStep(s: State, e: Event, kept: AuthState)
    requires Kept(s, kept) && Allowed(kept, e) && OfUpstream(e) && !Refuses(e)
    ensures Kept(Next(s, e), kept)
  {
    AnswerEffect(s, e);
    hide Next;
    SpentStays(s, Next(s, e));
  }

  /** A mint that settles leaves no more to come than there was. */
  lemma RearmMintMayNot(s: State, result: AuthRearm.Outcome)
    ensures var f := Next(s, RearmMintSettled(result)).rearm;
            && (AuthRearm.MayMint(f) ==> AuthRearm.MayMint(s.rearm))
            && (MayExchange(f) ==> MayExchange(s.rearm))
  {
  }

  lemma KeptRearmMintStep(s: State, result: AuthRearm.Outcome, kept: AuthState)
    requires Kept(s, kept)
    ensures Kept(Next(s, RearmMintSettled(result)), kept)
  {
    RearmMintEffect(s, result);
    RearmMintMayNot(s, result);
    hide Next;
    SpentStays(s, Next(s, RearmMintSettled(result)));
  }

  lemma KeptRearmStep(s: State, e: Event, kept: AuthState)
    requires Kept(s, kept) && OfRearm(e) && !e.RearmMintSettled?
    ensures Kept(Next(s, e), kept)
  {
    if e.RearmRenewed? {
      KeptRenewalStep(s, e.renewed, kept);
    } else {
      RearmAskEffect(s, e);
      hide Next;
      SpentStays(s, Next(s, e));
    }
  }

  /** Asking and concluding bring no mint that there is no token for. */
  lemma RearmAskEffect(s: State, e: Event)
    requires e.RearmAsked? || e.RearmConcluded?
    ensures var t := Next(s, e);
            && t == s.(rearm := t.rearm)
            && (AuthRearm.MayMint(t.rearm) ==> AuthRearm.MayMint(s.rearm) || Mintable(s.githubToken))
            && (MayExchange(t.rearm) ==> MayExchange(s.rearm) || Mintable(s.githubToken))
  {
  }

  lemma KeptRenewalStep(s: State, token: Option<string>, kept: AuthState)
    requires Kept(s, kept)
    ensures Kept(Next(s, RearmRenewed(token)), kept)
  {
    SpentStays(s, Next(s, RearmRenewed(token)));
  }

  lemma KeptSweepStep(s: State, e: Event, kept: AuthState)
    requires Kept(s, kept) && Allowed(kept, e) && OfSweepOrSwitch(e)
    ensures Kept(Next(s, e), kept)
  {
    assert Next(s, e) == s || (e.SweepSettled? && Next(s, e) == s.(degrade := Idle));
    SpentStays(s, Next(s, e));
  }

  lemma KeptOtherStep(s: State, e: Event, kept: AuthState)
    requires Kept(s, kept) && Allowed(kept, e) && !e.PollerStep? && !Beside(e)
    ensures Kept(Next(s, e), kept)
  {
    NoneWaiting(s);
    SpentStays(s, Next(s, e));
  }

  lemma KeptStep(s: State, e: Event, kept: AuthState)
    requires Kept(s, kept) && Allowed(kept, e)
    ensures Kept(Next(s, e), kept)
  {
    hide Next, Kept;
    if e.PollerStep? {
      KeptPollerStep(s, e, kept);
    } else if OfUpstream(e) {
      if Refuses(e) {
        KeptRefusalStep(s, e, kept);
      } else {
        KeptUpstreamStep(s, e, kept);
      }
    } else if e.RearmMintSettled? {
      KeptRearmMintStep(s, e.result, kept);
    } else if OfRearm(e) {
      KeptRearmStep(s, e, kept);
    } else if OfSweepOrSwitch(e) {
      KeptSweepStep(s, e, kept);
    } else {
      KeptOtherStep(s, e, kept);
    }
  }

  /** No quiet run writes the union once nothing is under way that could. */
  lemma {:induction false} KeptRun(s: State, es: seq<Event>, kept: AuthState)
    requires Kept(s, kept) && AllowedRun(kept, es)
    ensures Run(s, es).auth == kept
    decreases |es|
  {
    if es != [] {
      hide Next;
      AllowedTail(kept, es);
      KeptStep(s, es[0], kept);
      KeptRun(Next(s, es[0]), es[1..], kept);
    }
  }

  // ----- and everything else can -----

  /** `es` is such a run, after which the union reads something else. */
  predicate Undoes(kept: AuthState, s: State, es: seq<Event>) {
    AllowedRun(kept, es) && Run(s, es).auth != kept
  }

  lemma Then(kept: AuthState, s: State, e: Event, es: seq<Event>) returns (all: seq<Event>)
    requires Allowed(kept, e) && Undoes(kept, Next(s, e), es)
    ensures Undoes(kept, s, all)
  {
    hide Next;
    all := [e] + es;
    Unroll(s, e, es);
    AllowedCons(kept, e, es);
  }

  lemma AtOnce(kept: AuthState, s: State, e: Event) returns (all: seq<Event>)
    requires Allowed(kept, e) && Next(s, e).auth != kept
    ensures Undoes(kept, s, all)
  {
    hide Next;
    all := Then(kept, s, e, []);
  }

  /** A reason other than the one `kept` gives. */
  function Other(kept: AuthState): (error: Fatal)
    ensures kept.Error? ==> error.message != kept.message
  {
    Fatal(if kept.Error? then kept.message + "!" else "", None)
  }

  lemma {:induction false} DegradeUndoes(kept: AuthState, s: State) returns (es: seq<Event>)
    requires !DegradeOver(s) && !kept.SignedIn? && (kept.Error? ==> s.degrade.error.message != kept.message)
    ensures Undoes(kept, s, es)
    decreases match s.degrade
              case AwaitFlag(_) => 3
              case AwaitSweep(_, at) => if at.Trying? then 2 else if at.Committing? then 1 else 0
              case _ => 0
  {
    if s.degrade.AwaitFlag? {
      if s.sweepRegistered {
        es := DegradeUndoes(kept, Next(s, FlagSettled));
        es := Then(kept, s, FlagSettled, es);
      } else {
        es := AtOnce(kept, s, FlagSettled);
      }
    } else {
      es := SweepUndoes(kept, s);
    }
  }

  lemma SweepMoves(s: State)
    requires s.degrade.AwaitSweep?
    ensures s.degrade.at.Trying? ==>
              var t := Next(s, SweepMinted(Direct(s.degrade.at.token)));
              t.degrade.AwaitSweep? && t.degrade.error == s.degrade.error
              && (t.degrade.at.Committing? || t.degrade.at.Checking?)
    ensures s.degrade.at.Committing? ==>
              var t := Next(s, SweepCommitted(false));
              t.degrade == AwaitSweep(s.degrade.error, Checking)
  {
  }

  /** The verdict is that none worked, but for a sweep that is about to sign in. */
  lemma {:induction false} SweepUndoes(kept: AuthState, s: State) returns (es: seq<Event>)
    requires s.degrade.AwaitSweep? && !s.degrade.at.Landed?
    requires !kept.SignedIn? && (kept.Error? ==> s.degrade.error.message != kept.message)
    ensures Undoes(kept, s, es)
    decreases if s.degrade.at.Trying? then 2 else if s.degrade.at.Committing? then 1 else 0
  {
    if s.degrade.at.Checking? {
      es := AtOnce(kept, s, SweepSettled(NoneWorked));
    } else if s.degrade.at.Caching? {
      es := AtOnce(kept, s, SweepLands);
    } else {
      SweepMoves(s);
      hide Next;
      var e := if s.degrade.at.Trying? then SweepMinted(Direct(s.degrade.at.token)) else SweepCommitted(false);
      es := SweepUndoes(kept, Next(s, e));
      es := Then(kept, s, e, es);
    }
  }

  function Refusal(kept: AuthState, i: nat): Event {
    PollerStep(i, MintSettled(AuthFatal(Other(kept))))
  }

  /** A poller's mint, a request or the loop's last attempt is refused for another reason than the one shown. */
  predicate IsRefused(kept: AuthState, s: State, e: Event) {
    || (e.PollerStep? && e.flow < |s.pcs| && s.pcs[e.flow].AwaitMint? && !Direct(s.pcs[e.flow].token)
        && e == Refusal(kept, e.flow))
    || (e == UpstreamRefused(Other(kept)) && s.upstream > 0)
    || (e == RefreshSettled(RefreshRefused(Other(kept))) && LastAttempt(s.loop))
  }

  lemma RefusalDegrades(kept: AuthState, s: State, e: Event)
    requires IsRefused(kept, s, e) && s.auth == kept && s.degrade.Idle?
    requires s.now == s.lastAuthSuccessMs + RECOVERY_GRACE_MS
    ensures Next(s, e).degrade == AwaitFlag(Other(kept))
  {
  }

  lemma LaterIsRefusedToo(kept: AuthState, s: State, e: Event, time: int)
    requires IsRefused(kept, s, e)
    ensures IsRefused(kept, Next(s, ClockReads(time)), e)
  {
  }

  lemma IdleRefusalUndoes(kept: AuthState, s: State, e: Event) returns (es: seq<Event>)
    requires IsRefused(kept, s, e) && Allowed(kept, e) && s.auth == kept && !kept.SignedIn? && s.degrade.Idle?
    ensures Undoes(kept, s, es)
  {
    var later := ClockReads(s.lastAuthSuccessMs + RECOVERY_GRACE_MS);
    var t := Next(s, later);
    LaterIsRefusedToo(kept, s, e, later.time);
    assert t.auth == s.auth && t.degrade == s.degrade && t.now == t.lastAuthSuccessMs + RECOVERY_GRACE_MS;
    es := LateRefusalUndoes(kept, t, e);
    es := Then(kept, s, later, es);
  }

  lemma LateRefusalUndoes(kept: AuthState, s: State, e: Event) returns (es: seq<Event>)
    requires IsRefused(kept, s, e) && Allowed(kept, e) && s.auth == kept && !kept.SignedIn? && s.degrade.Idle?
    requires s.now == s.lastAuthSuccessMs + RECOVERY_GRACE_MS
    ensures Undoes(kept, s, es)
  {
    RefusalDegrades(kept, s, e);
    hide Next;
    es := DegradeUndoes(kept, Next(s, e));
    es := Then(kept, s, e, es);
  }

  lemma ReportedSweepIsIdle(kept: AuthState, s: State, e: Event)
    requires s.degrade.AwaitSweep? && s.degrade.at.Landed? && IsRefused(kept, s, e)
    ensures var t := Next(s, SweepSettled(Recovered));
            t.degrade.Idle? && t.auth == s.auth && IsRefused(kept, t, e)
  {
  }

  /** What the upstream refuses for good starts a degrade, though a poller it refuses was stopped. */
  lemma RefusalUndoes(kept: AuthState, s: State, e: Event) returns (es: seq<Event>)
    requires IsRefused(kept, s, e) && Allowed(kept, e) && s.auth == kept && !kept.SignedIn? && DegradeOver(s)
    ensures Undoes(kept, s, es)
  {
    if s.degrade.Idle? {
      es := IdleRefusalUndoes(kept, s, e);
    } else {
      ReportedSweepIsIdle(kept, s, e);
      hide Next;
      es := IdleRefusalUndoes(kept, Next(s, SweepSettled(Recovered)), e);
      es := Then(kept, s, SweepSettled(Recovered), es);
    }
  }

  lemma StoppedPollerUndoes(kept: AuthState, s: State, i: nat) returns (es: seq<Event>)
    requires i < |s.pcs| && !Harmless(s.pcs[i]) && s.auth == kept && !kept.SignedIn? && DegradeOver(s)
    ensures Undoes(kept, s, es)
  {
    match s.pcs[i] {
      case AwaitModels(_, _) => es := AtOnce(kept, s, PollerStep(i, ModelsSettled));
      case AwaitMint(_, _, _) => es := RefusalUndoes(kept, s, Refusal(kept, i));
      case AwaitAccount(_, _, _) =>
        StoredAccountIsMinted(kept, s, i);
        hide Next;
        es := RefusalUndoes(kept, Next(s, PollerStep(i, AccountStored)), Refusal(kept, i));
        es := Then(kept, s, PollerStep(i, AccountStored), es);
    }
  }

  lemma StoredAccountIsMinted(kept: AuthState, s: State, i: nat)
    requires i < |s.pcs| && s.pcs[i].AwaitAccount? && !Direct(s.pcs[i].token)
    ensures var t := Next(s, PollerStep(i, AccountStored));
            && t.auth == s.auth && t.degrade == s.degrade && IsRefused(kept, t, Refusal(kept, i))
  {
  }

  lemma LiveUserIsStored(s: State, i: nat)
    requires Live(s, i) && s.pcs[i].AwaitUser?
    ensures var t := Next(s, PollerStep(i, GotUser("", None)));
            t.auth == s.auth && Live(t, i) && t.pcs[i].AwaitAccount?
  {
  }

  lemma LiveMintGoesOn(s: State, i: nat)
    requires Live(s, i) && s.pcs[i].AwaitMint?
    ensures var t := Next(s, PollerStep(i, MintSettled(Minted)));
            t.auth == s.auth && Live(t, i) && t.pcs[i].AwaitModels?
  {
  }

  /** A live poller at one of these awaits can change the union in its next step. */
  lemma LivePollerWrites(kept: AuthState, s: State, i: nat) returns (es: seq<Event>)
    requires Live(s, i) && s.auth == kept && !kept.SignedIn?
    requires s.pcs[i].AwaitToken? || s.pcs[i].AwaitAccount? || s.pcs[i].AwaitModels?
    ensures Undoes(kept, s, es)
  {
    if s.pcs[i].AwaitModels? {
      es := AtOnce(kept, s, PollerStep(i, ModelsSettled));
    } else {
      es := AtOnce(kept, s, PollerStep(i, Rejected(Other(kept).message)));
    }
  }

  /** A live poller fails for a reason of its own, or goes on to sign in. */
  lemma LivePollerUndoes(kept: AuthState, s: State, i: nat) returns (es: seq<Event>)
    requires Live(s, i) && s.auth == kept && !kept.SignedIn?
    ensures Undoes(kept, s, es)
  {
    hide Next;
    if s.pcs[i].AwaitUser? {
      LiveUserIsStored(s, i);
      var e := PollerStep(i, GotUser("", None));
      es := LivePollerWrites(kept, Next(s, e), i);
      es := Then(kept, s, e, es);
    } else if s.pcs[i].AwaitMint? {
      LiveMintGoesOn(s, i);
      var e := PollerStep(i, MintSettled(Minted));
      es := LivePollerWrites(kept, Next(s, e), i);
      es := Then(kept, s, e, es);
    } else {
      es := LivePollerWrites(kept, s, i);
    }
  }

  lemma PollerUndoes(kept: AuthState, s: State, i: nat) returns (es: seq<Event>)
    requires i < |s.pcs| && !(Harmless(s.pcs[i]) && !Live(s, i))
    requires s.auth == kept && !kept.SignedIn? && DegradeOver(s)
    ensures Undoes(kept, s, es)
  {
    if Live(s, i) {
      es := LivePollerUndoes(kept, s, i);
    } else {
      es := StoppedPollerUndoes(kept, s, i);
    }
  }

  /** A live switch goes on to sign in. */
  lemma {:induction false} SwitchUndoes(kept: AuthState, s: State, k: nat) returns (es: seq<Event>)
    requires k < |s.switches| && !s.switches[k].SwitchOver? && !kept.SignedIn?
    ensures Undoes(kept, s, es)
    decreases match s.switches[k]
              case SwitchPreflight(_, _) => 3
              case SwitchMint(_, _) => 2
              case SwitchCommit(_) => 1
              case _ => 0
  {
    var e := SwitchStep(k, true);
    if s.switches[k].SwitchModels? {
      es := AtOnce(kept, s, e);
    } else {
      es := SwitchUndoes(kept, Next(s, e), k);
      es := Then(kept, s, e, es);
    }
  }

  lemma StartUndoes(kept: AuthState, s: State, k: nat) returns (es: seq<Event>)
    requires k < |s.starts| && s.starts[k].Waiting? && (kept.SignedOut? || kept.Error?)
    ensures Undoes(kept, s, es)
  {
    es := AtOnce(kept, s, StartIssued(k, DeviceCode("", "", 0)));
  }

  lemma UnspentUndoes(kept: AuthState, s: State) returns (es: seq<Event>)
    requires !Spent(s) && s.auth == kept && (kept.SignedOut? || kept.Error?) && DegradeOver(s)
    ensures Undoes(kept, s, es)
  {
    if !PollersHarmless(s) {
      var i :| 0 <= i < |s.pcs| && !(Harmless(s.pcs[i]) && !Live(s, i));
      es := PollerUndoes(kept, s, i);
    } else if StartPending(s) {
      var k :| 0 <= k < |s.starts| && s.starts[k].Waiting?;
      es := StartUndoes(kept, s, k);
    } else {
      var k :| 0 <= k < |s.switches| && !s.switches[k].SwitchOver?;
      es := SwitchUndoes(kept, s, k);
    }
  }

  // ----- a re-arm with a name -----

  lemma {:induction false} NamedRearmUndoes(kept: AuthState, s: State) returns (es: seq<Event>)
    requires s.userName.Some? && AuthRearm.MayMint(s.rearm) && !kept.SignedIn?
    ensures Undoes(kept, s, es)
    decreases s.rearm.at == Some(AuthRearm.Renewing)
  {
    if s.rearm.at == Some(AuthRearm.Renewing) {
      var e := RearmRenewed(Some(""));
      es := NamedRearmUndoes(kept, Next(s, e));
      es := Then(kept, s, e, es);
    } else {
      es := AtOnce(kept, s, RearmMintSettled(AuthRearm.Online));
    }
  }

  /** The next re-arm: concluded if it is only that, and asked for. */
  lemma {:induction false} NamedTokenUndoes(kept: AuthState, s: State) returns (es: seq<Event>)
    requires s.userName.Some? && (Mintable(s.githubToken) || AuthRearm.MayMint(s.rearm)) && !kept.SignedIn?
    ensures Undoes(kept, s, es)
    decreases s.rearm.at.Some?
  {
    if AuthRearm.MayMint(s.rearm) {
      es := NamedRearmUndoes(kept, s);
    } else if s.rearm.at.Some? {
      es := NamedTokenUndoes(kept, Next(s, RearmConcluded));
      es := Then(kept, s, RearmConcluded, es);
    } else {
      es := NamedRearmUndoes(kept, Next(s, RearmAsked));
      es := Then(kept, s, RearmAsked, es);
    }
  }

  /** A poller in `getGitHubUser` supplies the name, if need be, and the re-arm signs that user in. */
  lemma NameUndoes(kept: AuthState, s: State) returns (es: seq<Event>)
    requires !Nameless(s) && !kept.SignedIn?
    ensures Undoes(kept, s, es)
  {
    if s.userName.Some? {
      es := NamedTokenUndoes(kept, s);
    } else {
      var i :| 0 <= i < |s.pcs| && s.pcs[i].AwaitUser?;
      var e := PollerStep(i, GotUser("", None));
      NameArrives(s, i);
      hide Next;
      es := NamedTokenUndoes(kept, Next(s, e));
      es := Then(kept, s, e, es);
    }
  }

  lemma NameArrives(s: State, i: nat)
    requires i < |s.pcs| && s.pcs[i].AwaitUser?
    ensures var t := Next(s, PollerStep(i, GotUser("", None)));
            t.userName.Some? && t.githubToken == s.githubToken && t.rearm == s.rearm
  {
  }
}
