/** Pollers: a stopped one is silent, and when there is only one at a time. */
module AuthPollers {
  import opened AuthFlow
  import AuthSession
  import opened Options

  // ----- a stopped poller -----

  /** A stopped poller writes the auth state in its next step exactly when it was waiting for the models. */
  lemma StoppedPollerStep(s: State, i: nat, o: Outcome)
    requires Pollable(s, i) && Fits(s.pcs[i], o) && s.flows[i].aborted
    ensures s.pcs[i].AwaitModels? ==> Next(s, PollerStep(i, o)).auth.SignedIn?
    ensures !s.pcs[i].AwaitModels? ==>
              && Next(s, PollerStep(i, o)).auth == s.auth
              && Next(s, PollerStep(i, o)).notified == s.notified
              && (Next(s, PollerStep(i, o)).pcs[i].Ended? || Next(s, PollerStep(i, o)).pcs[i].AwaitMint?)
  {
  }

  predicate Silenced(s: State, i: nat) {
    i < |s.flows| && s.flows[i].aborted && !s.pcs[i].AwaitModels?
  }

  lemma SilencedStaysPolled(s: State, e: Event, i: nat)
    requires Silenced(s, i) && e.PollerStep?
    ensures Silenced(Next(s, e), i)
    ensures e.flow == i ==> Next(s, e).auth == s.auth
  {
    hide AfterPoller;
    if Enabled(s, e) {
      PollerEffect(s, e.flow, e.outcome);
    }
  }

  lemma SilencedStaysBeside(s: State, e: Event, i: nat)
    requires Silenced(s, i) && Beside(e)
    ensures Silenced(Next(s, e), i)
  {
    hide Next;
    BesideKeepsFlows(s, e);
  }

  lemma SilencedStays(s: State, e: Event, i: nat)
    requires Silenced(s, i)
    ensures Silenced(Next(s, e), i)
    ensures e.PollerStep? && e.flow == i ==> Next(s, e).auth == s.auth
  {
    if e.PollerStep? {
      SilencedStaysPolled(s, e, i);
    } else if Beside(e) {
      SilencedStaysBeside(s, e, i);
    }
  }

  /** Whether any step that poller `i` takes in the run assigns the auth state. */
  predicate PollerEverWrites(s: State, es: seq<Event>, i: nat)
    decreases |es|
  {
    es != [] &&
    (|| (es[0].PollerStep? && es[0].flow == i && Next(s, es[0]).auth != s.auth)
     || PollerEverWrites(Next(s, es[0]), es[1..], i))
  }

  /** Stopped at any await but the last, a poller never writes again, whatever else happens. */
  lemma {:induction false} StoppedPollerStaysSilent(s: State, es: seq<Event>, i: nat)
    requires Silenced(s, i)
    ensures Silenced(Run(s, es), i) && !PollerEverWrites(s, es, i)
    decreases |es|
  {
    if es != [] {
      SilencedStays(s, es[0], i);
      StoppedPollerStaysSilent(Next(s, es[0]), es[1..], i);
    }
  }

  // ----- one poller at a time -----

  /** start, its completion, cancel, sign-out, the clock, process cleanup and poller steps. */
  predicate FlowEvent(e: Event) {
    e.Start? || e.StartIssued? || e.StartFailed? || e.PollerStep? || e.Cancel? || e.SignOut? ||
    e.ClockReads? || e.ProcessCleanup?
  }

  predicate StartPending(s: State) {
    exists k :: 0 <= k < |s.starts| && s.starts[k].Waiting?
  }

  /** A poller's fatal mint that starts a degrade, and so stops the current flow. */
  predicate FatalMintDegrades(s: State, e: Event) {
    && e.PollerStep? && Enabled(s, e) && e.outcome.MintSettled? && e.outcome.result.AuthFatal?
    && s.degrade.Idle? && s.now - s.lastAuthSuccessMs >= RECOVERY_GRACE_MS
  }

  /** The flow this event tells to stop, if any. */
  function Aborts(s: State, e: Event): Option<nat> {
    if e.Cancel? || e.SignOut? || e.ProcessCleanup? then CurrentFlow(s)
    else if FatalMintDegrades(s, e) then CurrentFlow(s)
    else if e.Start? && CurrentFlow(s).Some? && Expired(s.flows[CurrentFlow(s).value], s.now) then CurrentFlow(s)
    else None
  }

  /** Starts do not overlap, and no stop lands while the poller waits for the models. */
  predicate Disciplined(s: State, e: Event) {
    && FlowEvent(e)
    && (e.Start? ==> !StartPending(s))
    && (Aborts(s, e).Some? ==> !s.pcs[Aborts(s, e).value].AwaitModels?)
  }

  predicate DisciplinedRun(s: State, es: seq<Event>)
    decreases |es|
  {
    es == [] || (Disciplined(s, es[0]) && DisciplinedRun(Next(s, es[0]), es[1..]))
  }

  predicate OnePoller(s: State) {
    // a live poller is the current flow's, so there is at most one
    && (forall i :: 0 <= i < |s.pcs| && Live(s, i) ==> CurrentFlow(s) == Some(i))
    // no stopped poller can still write
    && (forall i :: 0 <= i < |s.pcs| && s.flows[i].aborted ==> !s.pcs[i].AwaitModels?)
    // while a code is being requested nothing is live, and only one code is being requested
    && (StartPending(s) ==> forall i :: 0 <= i < |s.pcs| ==> !Live(s, i))
    && (forall j, k :: 0 <= j < |s.starts| && 0 <= k < |s.starts| ==>
          s.starts[j].Waiting? && s.starts[k].Waiting? ==> j == k)
    // a current flow that has not been stopped is no one else's to replace
    && (StartPending(s) && CurrentFlow(s).Some? ==> s.flows[CurrentFlow(s).value].aborted)
  }

  lemma OnePollerAfterStart(s: State)
    requires OnePoller(s) && Disciplined(s, Start)
    ensures OnePoller(Next(s, Start))
  {
    var t := Next(s, Start);
    if t != s {
      assert forall k :: 0 <= k < |t.starts| && t.starts[k].Waiting? ==> k == |s.starts|;
    }
  }

  lemma OnePollerAfterIssue(s: State, call: nat, code: DeviceCode)
    requires OnePoller(s) && Enabled(s, StartIssued(call, code))
    ensures OnePoller(Next(s, StartIssued(call, code)))
  {
    var t := Next(s, StartIssued(call, code));
    assert s.starts[call].Waiting?;
    assert StartPending(s);
    assert forall k :: 0 <= k < |t.starts| ==> !t.starts[k].Waiting?;
    forall i | 0 <= i < |t.pcs| && Live(t, i)
      ensures CurrentFlow(t) == Some(i)
    {
      assert i < |s.pcs| ==> !Live(s, i);
    }
  }

  lemma OnePollerAfterFatal(s: State, i: nat, o: Outcome)
    requires OnePoller(s) && Disciplined(s, PollerStep(i, o)) && FatalMintDegrades(s, PollerStep(i, o))
    ensures OnePoller(Next(s, PollerStep(i, o)))
  {
    hide AfterPoller;
    var t := Next(s, PollerStep(i, o));
    PollerEffect(s, i, o);
    MintEffect(s, i, o);
    forall j | 0 <= j < |t.pcs| && Live(t, j)
      ensures CurrentFlow(t) == Some(j)
    {
      assert Live(s, j);
    }
  }

  lemma NoFatalKeepsFlows(s: State, i: nat, o: Outcome)
    requires Enabled(s, PollerStep(i, o)) && !FatalMintDegrades(s, PollerStep(i, o))
    ensures Next(s, PollerStep(i, o)).flows == s.flows
  {
  }

  lemma OnePollerAfterPoller(s: State, i: nat, o: Outcome)
    requires OnePoller(s) && Enabled(s, PollerStep(i, o)) && !FatalMintDegrades(s, PollerStep(i, o))
    ensures OnePoller(Next(s, PollerStep(i, o)))
  {
    hide AfterPoller;
    var t := Next(s, PollerStep(i, o));
    PollerEffect(s, i, o);
    NoFatalKeepsFlows(s, i, o);
    forall j | 0 <= j < |t.pcs| && Live(t, j)
      ensures CurrentFlow(t) == Some(j)
    {
      assert Live(s, j) && CurrentFlow(s) == Some(j);
      if s.flows[i].aborted {
        assert !s.pcs[i].AwaitModels? && t.auth == s.auth;
      } else {
        assert Live(s, i) && i == j && !t.pcs[i].Ended?;
      }
    }
  }

  lemma OnePollerAfterRest(s: State, e: Event)
    requires OnePoller(s) && Disciplined(s, e) && !e.Start? && !e.StartIssued? && !e.PollerStep?
    ensures OnePoller(Next(s, e))
  {
    var t := Next(s, e);
    assert forall k :: 0 <= k < |t.starts| && t.starts[k].Waiting? ==> s.starts[k].Waiting?;
  }

  lemma OnePollerStep(s: State, e: Event)
    requires OnePoller(s) && Disciplined(s, e)
    ensures OnePoller(Next(s, e))
  {
    if e.Start? {
      OnePollerAfterStart(s);
    } else if e.StartIssued? && Enabled(s, e) {
      OnePollerAfterIssue(s, e.call, e.code);
    } else if e.PollerStep? && Enabled(s, e) {
      if FatalMintDegrades(s, e) {
        OnePollerAfterFatal(s, e.flow, e.outcome);
      } else {
        OnePollerAfterPoller(s, e.flow, e.outcome);
      }
    } else if e.StartIssued? || e.PollerStep? {
      assert Next(s, e) == s;
    } else {
      OnePollerAfterRest(s, e);
    }
  }

  /** The single-flight guarantee: along every disciplined run, at most one live poller, always the current flow's. */
  lemma {:induction false} SingleFlight(s: State, es: seq<Event>)
    requires OnePoller(s) && DisciplinedRun(s, es)
    ensures OnePoller(Run(s, es))
    ensures forall i, j :: Live(Run(s, es), i) && Live(Run(s, es), j) ==> i == j
    decreases |es|
  {
    if es != [] {
      OnePollerStep(s, es[0]);
      SingleFlight(Next(s, es[0]), es[1..]);
    }
  }

  // ----- exactly when there is only one -----

  predicate OneLive(s: State) {
    forall i, j :: 0 <= i < j < |s.pcs| ==> !(Live(s, i) && Live(s, j))
  }

  predicate SomeLive(s: State) {
    exists i :: 0 <= i < |s.pcs| && Live(s, i)
  }

  /** A code arrives, for a start that waited for it, while another poller is live. */
  predicate Intrudes(s: State, e: Event) {
    e.StartIssued? && Enabled(s, e) && SomeLive(s)
  }

  predicate AlwaysOneLive(s: State, es: seq<Event>)
    decreases |es|
  {
    OneLive(s) && (es == [] || AlwaysOneLive(Next(s, es[0]), es[1..]))
  }

  predicate NeverIntrudes(s: State, es: seq<Event>)
    decreases |es|
  {
    es == [] || (!Intrudes(s, es[0]) && NeverIntrudes(Next(s, es[0]), es[1..]))
  }

  /** Nothing but an arriving code brings a poller. */
  lemma OnlyCodesBringPollers(s: State, e: Event)
    requires !(e.StartIssued? && Enabled(s, e))
    ensures |Next(s, e).pcs| == |s.pcs|
  {
    if Beside(e) {
      BesideKeepsFlows(s, e);
    } else if e.PollerStep? && Enabled(s, e) {
      PollerEffect(s, e.flow, e.outcome);
    }
  }

  lemma CodeBringsPoller(s: State, e: Event)
    requires e.StartIssued? && Enabled(s, e)
    ensures |Next(s, e).pcs| == |s.pcs| + 1 && Live(Next(s, e), |s.pcs|)
    ensures forall i :: 0 <= i < |s.pcs| ==> (Live(Next(s, e), i) <==> Live(s, i))
  {
  }

  lemma StaysOneLive(s: State, e: Event)
    requires OneLive(s)
    ensures OneLive(Next(s, e)) <==> !Intrudes(s, e)
  {
    hide Next, Enabled;
    if e.StartIssued? && Enabled(s, e) {
      CodeBringsPoller(s, e);
      if SomeLive(s) {
        var i :| 0 <= i < |s.pcs| && Live(s, i);
        assert Live(Next(s, e), i) && Live(Next(s, e), |s.pcs|);
      }
    } else {
      OnlyCodesBringPollers(s, e);
      var t := Next(s, e);
      forall i, j | 0 <= i < j < |t.pcs|
        ensures !(Live(t, i) && Live(t, j))
      {
        AuthSession.OneFlowStays(s, e, i);
        AuthSession.OneFlowStays(s, e, j);
      }
    }
  }

  /**
   For every run of any events: there is never more than one live poller if and only if no code
   ever arrives while one is live.
   */
  lemma {:induction false} OneLiveExactlyWhen(s: State, es: seq<Event>)
    requires OneLive(s)
    ensures AlwaysOneLive(s, es) <==> NeverIntrudes(s, es)
    decreases |es|
  {
    if es != [] {
      StaysOneLive(s, es[0]);
      if OneLive(Next(s, es[0])) {
        OneLiveExactlyWhen(Next(s, es[0]), es[1..]);
      }
    }
  }

  /** Between its start and its code, another code has arrived. */
  predicate Overlapped(s: State, es: seq<Event>)
    decreases |es|
  {
    es != [] && ((es[0].StartIssued? && Enabled(s, es[0])) || Overlapped(Next(s, es[0]), es[1..]))
  }

  /** A live poller that is not the current flow's, so that no later start or cancel can stop it. */
  predicate Orphan(s: State, i: nat) {
    Live(s, i) && CurrentFlow(s) != Some(i)
  }

  lemma {:induction false} NoCodesNoPollers(s: State, es: seq<Event>, i: nat)
    requires !Overlapped(s, es) && Live(Run(s, es), i)
    ensures Live(s, i)
    decreases |es|
  {
    if es != [] {
      hide Next, Enabled;
      NoCodesNoPollers(Next(s, es[0]), es[1..], i);
      OnlyCodesBringPollers(s, es[0]);
      AuthSession.OneFlowStays(s, es[0], i);
    }
  }

  lemma StartStopsCurrent(s: State, i: nat)
    requires Enabled(s, Start) && |Next(s, Start).starts| > |s.starts| && Live(Next(s, Start), i)
    ensures Orphan(s, i)
  {
  }

  /**
   Where an intruding code comes from: a start begins, `es` goes by, and there is a live poller.
   Then another start's code arrived in between, or the poller was an orphan when the start began.
   */
  lemma IntrusionMeans(s: State, es: seq<Event>, i: nat)
    requires |Next(s, Start).starts| > |s.starts| && Live(Run(Next(s, Start), es), i)
    ensures Overlapped(Next(s, Start), es) || Orphan(s, i)
  {
    if !Overlapped(Next(s, Start), es) {
      NoCodesNoPollers(Next(s, Start), es, i);
      StartStopsCurrent(s, i);
    }
  }

  /** Who assigns the union without stopping the flow it replaces. */
  predicate PassesOver(s: State, e: Event) {
    || e.MarkSignedOut? || e.MarkSignedIn? || e.StartIssued? || e.PollerStep?
    || e.FlagSettled? || e.SweepSettled? || e.SweepLands? || e.SwitchStep? || e.RearmMintSettled?
  }

  /** A poller is orphaned by one of those, and by `markSignedOut` always. */
  lemma OrphanedBy(s: State, e: Event, i: nat)
    requires Live(s, i) && CurrentFlow(s) == Some(i)
    ensures Orphan(Next(s, e), i) ==> PassesOver(s, e)
    ensures e.MarkSignedOut? ==> Orphan(Next(s, e), i)
  {
    if Beside(e) && !PassesOver(s, e) {
      BesideAssigns(s, e);
    }
  }

  lemma BesideAssigns(s: State, e: Event)
    requires Beside(e) && !PassesOver(s, e)
    ensures Next(s, e).auth == s.auth
  {
    if OfUpstream(e) {
      hide Next;
      UpstreamKeepsFlows(s, e);
    } else if OfRearm(e) {
      hide Next;
      RearmKeepsFlows(s, e);
    }
  }

  lemma BootHasOnePoller()
    ensures OnePoller(Boot) && Boot.notified == Boot.auth
  {
  }

  // ----- why the hypotheses are needed -----

  /** Two starts that overlap in `getDeviceCode` leave two live pollers: the serialisation hypothesis is needed. */
  lemma OverlappingStartsLeaveTwoPollers(code: DeviceCode)
    ensures var s := Next(Next(Next(Next(Boot, Start), Start), StartIssued(0, code)), StartIssued(1, code));
            Live(s, 0) && Live(s, 1) && CurrentFlow(s) == Some(1)
  {
  }

  /** `markSignedOut` stops nobody, so a live poller is left that is not the current flow's. */
  lemma MarkSignedOutLeavesPollerLive(code: DeviceCode)
    ensures var s := Next(Next(Next(Boot, Start), StartIssued(0, code)), MarkSignedOut);
            s.auth == AuthState.SignedOut && Live(s, 0)
  {
  }

  predicate AllStopped(s: State) {
    forall i :: 0 <= i < |s.pcs| ==> !Live(s, i)
  }

  /** With one poller at a time, signing out or cancelling stops every poller there is. */
  lemma StoppingStopsAll(s: State, e: Event)
    requires OnePoller(s) && (e.SignOut? || e.Cancel? || e.ProcessCleanup?)
    ensures AllStopped(Next(s, e))
  {
    var t := Next(s, e);
    forall i | 0 <= i < |t.pcs|
      ensures !Live(t, i)
    {
      if Live(s, i) {
        assert CurrentFlow(s) == Some(i);
      }
    }
  }
}
