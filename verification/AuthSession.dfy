/**
 A sign-in attempt never costs the current session, and one that does not succeed gives back
 exactly the session it found.
 */
module AuthSession {
  import opened AuthFlow
  import opened Options

  // ----- a sign-in attempt never costs the current session -----

  /** The steps other than signing out, `markSignedOut` and the degrade path. */
  predicate KeepsSession(e: Event) {
    && !e.SignOut? && !e.MarkSignedOut?
    && !e.DegradeRequested? && !e.FlagSettled? && !e.SweepSettled? && !Refuses(e)
  }

  /** A session is present, and every attempt under way remembers one to fall back to. */
  predicate Protected(s: State) {
    && (s.auth.SignedIn? || (CurrentFlow(s).Some? && s.flows[CurrentFlow(s).value].resume.Some?))
    && (forall i :: 0 <= i < |s.pcs| && Live(s, i) ==> s.flows[i].resume.Some?)
    && (forall k :: 0 <= k < |s.starts| && s.starts[k].Waiting? ==> s.starts[k].resume.Some?)
  }

  /** A flow keeps the identity it fell back on, and one that is over stays over. */
  predicate FlowStays(s: State, t: State, i: nat) {
    i < |s.pcs| ==> i < |t.pcs| && t.flows[i].resume == s.flows[i].resume && (Live(t, i) ==> Live(s, i))
  }

  lemma OneFlowStaysPolled(s: State, e: Event, i: nat)
    requires e.PollerStep?
    ensures FlowStays(s, Next(s, e), i)
  {
    hide AfterPoller;
    if Enabled(s, e) {
      PollerEffect(s, e.flow, e.outcome);
    }
  }

  lemma OneFlowStaysBeside(s: State, e: Event, i: nat)
    requires Beside(e)
    ensures FlowStays(s, Next(s, e), i)
  {
    hide Next;
    BesideKeepsFlows(s, e);
  }

  lemma OneFlowStaysOtherwise(s: State, e: Event, i: nat)
    requires !e.PollerStep? && !Beside(e)
    ensures FlowStays(s, Next(s, e), i)
  {
  }

  lemma OneFlowStays(s: State, e: Event, i: nat)
    ensures FlowStays(s, Next(s, e), i)
  {
    if e.PollerStep? {
      OneFlowStaysPolled(s, e, i);
    } else if Beside(e) {
      OneFlowStaysBeside(s, e, i);
    } else {
      OneFlowStaysOtherwise(s, e, i);
    }
  }

  lemma FlowsStay(s: State, e: Event)
    ensures forall i: nat :: FlowStays(s, Next(s, e), i)
  {
    forall i: nat {
      OneFlowStays(s, e, i);
    }
  }

  lemma ProtectedPollerStep(s: State, e: Event)
    requires Protected(s) && KeepsSession(e) && e.PollerStep?
    ensures Protected(Next(s, e))
  {
    hide AfterPoller;
    if Enabled(s, e) {
      PollerEffect(s, e.flow, e.outcome);
    }
  }

  lemma ProtectedBesideStep(s: State, e: Event)
    requires Protected(s) && KeepsSession(e) && Beside(e)
    ensures Protected(Next(s, e))
  {
    hide Next;
    BesideKeepsFlows(s, e);
  }

  /** The events of the attempts themselves. */
  predicate OfAttempt(e: Event) {
    e.Start? || e.StartIssued? || e.StartFailed? || e.Cancel?
  }

  lemma ProtectedAttemptStep(s: State, e: Event)
    requires Protected(s) && OfAttempt(e)
    ensures Protected(Next(s, e))
  {
    FlowsStay(s, e);
  }

  lemma ProtectedOtherStep(s: State, e: Event)
    requires Protected(s) && KeepsSession(e) && !e.PollerStep? && !OfAttempt(e) && !Beside(e)
    ensures Protected(Next(s, e))
  {
    FlowsStay(s, e);
  }

  lemma ProtectedStep(s: State, e: Event)
    requires Protected(s) && KeepsSession(e)
    ensures Protected(Next(s, e))
  {
    if e.PollerStep? {
      ProtectedPollerStep(s, e);
    } else if OfAttempt(e) {
      ProtectedAttemptStep(s, e);
    } else if Beside(e) {
      ProtectedBesideStep(s, e);
    } else {
      ProtectedOtherStep(s, e);
    }
  }

  lemma {:induction false} ProtectedRun(s: State, es: seq<Event>)
    requires Protected(s) && forall e :: e in es ==> KeepsSession(e)
    ensures Protected(Run(s, es))
    decreases |es|
  {
    if es != [] {
      ProtectedStep(s, es[0]);
      ProtectedRun(Next(s, es[0]), es[1..]);
    }
  }

  /**
   Over every interleaving of (even overlapping) starts, expiries, restarts, cancels, poll and
   verification failures, successes and live switches, the reported status stays pending or
   authenticated. Every prefix of a run is a run, so this holds at every await.
   */
  lemma SessionSurvives(s: State, es: seq<Event>)
    requires Protected(s) && forall e :: e in es ==> KeepsSession(e)
    ensures StatusOf(Run(s, es)).Pending? || StatusOf(Run(s, es)).Authenticated?
  {
    ProtectedRun(s, es);
  }

  /** A settled signed-in state, with no attempt under way, is protected. */
  lemma SignedInIsProtected(s: State)
    requires s.auth.SignedIn?
    requires forall i :: 0 <= i < |s.pcs| ==> !Live(s, i)
    requires forall k :: 0 <= k < |s.starts| ==> s.starts[k].Returned?
    ensures Protected(s)
  {
  }

  /**
   Why `Protected` asks about attempts under way: one begun before boot signed the user in still
   fails to an error.
   */
  lemma UnprotectedAttemptLosesSession(code: DeviceCode, message: string)
    ensures var s := Run(Boot, [Start] + ([StartIssued(0, code)] + [MarkSignedIn("octocat", None)]));
            && s.auth.SignedIn?
            && StatusOf(Run(s, [PollerStep(0, Rejected(message))])) == Failed(message, None)
  {
    var s1 := Next(Boot, Start);
    var s2 := Next(s1, StartIssued(0, code));
    var last := [MarkSignedIn("octocat", None)];
    Unroll(Boot, Start, [StartIssued(0, code)] + last);
    Unroll(s1, StartIssued(0, code), last);
    assert last[1..] == [];
    var s3 := Run(s2, last);
    assert s3 == Next(s2, last[0]);
    var fails := [PollerStep(0, Rejected(message))];
    assert fails[1..] == [];
    assert Run(s3, fails) == Next(s3, fails[0]);
  }

  // ----- and an attempt that does not succeed gives back exactly the session it found -----

  /** A success is the poller finishing, or anyone else announcing an identity. */
  predicate AnnouncesIdentity(s: State, e: Event) {
    || e.MarkSignedIn?
    || (e.PollerStep? && e.outcome.ModelsSettled?)
    || e.SweepLands?
    || (e.SwitchStep? && Enabled(s, e) && s.switches[e.switch].SwitchModels?)
    || (e.RearmMintSettled? && e.result.Online?)
  }

  /** No step of the run announces an identity, signs out or degrades. */
  predicate Fruitless(s: State, es: seq<Event>)
    decreases |es|
  {
    es == [] || (KeepsSession(es[0]) && !AnnouncesIdentity(s, es[0]) && Fruitless(Next(s, es[0]), es[1..]))
  }

  predicate FallsBackTo(s: State, who: Identity) {
    && (s.auth == SignedIn(who) || (CurrentFlow(s).Some? && s.flows[CurrentFlow(s).value].resume == Some(who)))
    && (forall i :: 0 <= i < |s.pcs| && Live(s, i) ==> s.flows[i].resume == Some(who))
    && (forall k :: 0 <= k < |s.starts| && s.starts[k].Waiting? ==> s.starts[k].resume == Some(who))
  }

  lemma FallsBackPollerStep(s: State, e: Event, who: Identity)
    requires FallsBackTo(s, who) && KeepsSession(e) && !AnnouncesIdentity(s, e) && e.PollerStep?
    ensures FallsBackTo(Next(s, e), who)
  {
    hide AfterPoller;
    if Enabled(s, e) {
      PollerEffect(s, e.flow, e.outcome);
    }
  }

  lemma BesideAnnouncesNothing(s: State, e: Event)
    requires Beside(e) && KeepsSession(e) && !AnnouncesIdentity(s, e)
    ensures Next(s, e).auth == s.auth
  {
  }

  lemma FallsBackBesideStep(s: State, e: Event, who: Identity)
    requires FallsBackTo(s, who) && KeepsSession(e) && !AnnouncesIdentity(s, e) && Beside(e)
    ensures FallsBackTo(Next(s, e), who)
  {
    hide Next;
    BesideKeepsFlows(s, e);
    BesideAnnouncesNothing(s, e);
  }

  lemma FallsBackOtherStep(s: State, e: Event, who: Identity)
    requires FallsBackTo(s, who) && KeepsSession(e) && !AnnouncesIdentity(s, e) && !e.PollerStep? && !Beside(e)
    ensures FallsBackTo(Next(s, e), who)
  {
    FlowsStay(s, e);
  }

  lemma FallsBackStep(s: State, e: Event, who: Identity)
    requires FallsBackTo(s, who) && KeepsSession(e) && !AnnouncesIdentity(s, e)
    ensures FallsBackTo(Next(s, e), who)
  {
    if e.PollerStep? {
      FallsBackPollerStep(s, e, who);
    } else if Beside(e) {
      FallsBackBesideStep(s, e, who);
    } else {
      FallsBackOtherStep(s, e, who);
    }
  }

  /**
   However many attempts are begun, restarted, abandoned or refused, as long as none succeeds
   the user is shown a pending code or the very identity they had, and is signed in as that
   identity again once no flow is current.
   */
  lemma {:induction false} AbandonedAttemptsRestoreIdentity(s: State, es: seq<Event>, who: Identity)
    requires FallsBackTo(s, who)
    requires Fruitless(s, es)
    ensures FallsBackTo(Run(s, es), who)
    ensures StatusOf(Run(s, es)).Pending? || StatusOf(Run(s, es)) == Present(who)
    ensures CurrentFlow(Run(s, es)).None? ==> Run(s, es).auth == SignedIn(who)
    decreases |es|
  {
    if es != [] {
      FallsBackStep(s, es[0], who);
      AbandonedAttemptsRestoreIdentity(Next(s, es[0]), es[1..], who);
    }
  }

  // ----- what an attempt shows, and where it lands with no session to go back to -----

  /** A code is offered until the clock reads the end of its lifetime, and no longer. */
  lemma CodeIsOfferedUntilItExpires(s: State, call: nat, code: DeviceCode, time: int)
    requires Enabled(s, StartIssued(call, code))
    ensures var u, end := Next(Next(s, StartIssued(call, code)), ClockReads(time)), s.now + code.expiresIn * 1000;
            StatusOf(u) ==
            if time < end then Pending(true, code, end)
            else if s.starts[call].resume.Some? then Present(s.starts[call].resume.value)
            else Unauthenticated
  {
  }

  /** Cancelled, an attempt begun over nobody ends signed out. */
  lemma CancelledOverNobody(s: State)
    requires CurrentFlow(s).Some? && s.flows[CurrentFlow(s).value].resume.None?
    ensures Next(s, Cancel).auth == AuthState.SignedOut && !Live(Next(s, Cancel), CurrentFlow(s).value)
  {
  }

  /** Refused, it ends in the error, which for an account that cannot be verified says so. */
  lemma RefusedOverNobody(s: State, i: nat, message: string)
    requires Live(s, i) && s.flows[i].resume.None? && Enabled(s, PollerStep(i, Rejected(message)))
    ensures Next(s, PollerStep(i, Rejected(message))).auth ==
            AuthState.Error(
              if s.pcs[i].AwaitUser? then "Couldn't verify your GitHub account. Try signing in again." else message,
              None)
  {
  }
}
