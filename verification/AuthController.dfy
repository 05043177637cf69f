/**
 The controller as the source has it: module variables that each step reassigns, and one
 setter that publishes. Every method is the code between two awaits, proved to move the
 state exactly as the step system `AuthFlow` says.
 */
module AuthController {
  import AuthRearm
  import AuthPollers
  import AuthSession
  import opened AuthFlow
  import opened Options

  class AuthController {
    var authState: AuthState
    var notified: AuthState
    var flows: seq<Flow>
    var pcs: seq<PollerAt>
    var starts: seq<StartCall>
    var now: int
    var githubToken: Option<string>
    var userName: Option<string>
    var degradeInFlight: DegradeAt
    var lastAuthSuccessMs: int
    var autoRecover: bool
    var switches: seq<SwitchAt>
    var rearm: AuthRearm.Flight
    var loop: LoopAt
    /** How many requests to Copilot are under way; the source keeps them as suspended calls. */
    var upstream: nat

    function View(): Snapshot
      reads this
    {
      Snapshot(authState, notified, flows, pcs, starts, now, githubToken, userName,
               degradeInFlight, lastAuthSuccessMs, autoRecover, switches, rearm, loop, upstream)
    }

    predicate Valid()
      reads this
    {
      AuthFlow.Valid(View())
    }

    constructor ()
      ensures Valid() && View() == Boot
    {
      authState, notified := AuthState.SignedOut, AuthState.SignedOut;
      flows, pcs, starts := [], [], [];
      now, lastAuthSuccessMs := 0, 0;
      githubToken, userName := None, None;
      degradeInFlight, autoRecover, switches := Idle, false, [];
      rearm, loop, upstream := AuthRearm.Boot, NoLoop, 0;
    }

    /** The single writer: assign, then tell every subscriber. */
    method SetAuthState(next: AuthState)
      modifies this`authState, this`notified
      ensures authState == next && notified == next
    {
      authState := next;
      notified := next;
    }

    method ClearTokenTrio()
      modifies this`githubToken, this`userName
      ensures githubToken.None? && userName.None?
    {
      githubToken, userName := None, None;
    }

    /** A request of the loop's that may still be its last is left behind. */
    method StopCopilotRefreshLoop()
      modifies this`loop, this`upstream
      ensures loop == NoLoop
      ensures upstream == old(upstream) + if LastAttempt(old(loop)) then 1 else 0
    {
      if LastAttempt(loop) {
        upstream := upstream + 1;
      }
      loop := NoLoop;
    }

    /** After `setupCopilotToken` was called with this token, and it worked. */
    method FinishSetup(token: string)
      requires Valid()
      modifies this`loop, this`upstream
      ensures Valid() && View() == Exchanged(old(View()), token)
    {
      if DIRECT_BEARER <= token {
        return;
      }
      BeginLoop();
    }

    function ActiveFlow(): Option<nat>
      reads this
    {
      match authState
      case DeviceIssued(f) => Some(f)
      case Polling(f) => Some(f)
      case _ => None
    }

    method Abort(f: nat)
      requires f < |flows|
      modifies this`flows
      ensures flows == old(flows)[f := old(flows)[f].(aborted := true)]
    {
      flows := flows[f := flows[f].(aborted := true)];
    }

    function GetAuthStatus(): Status
      requires Valid()
      reads this
    {
      StatusOf(View())
    }

    /** Up to `await getDeviceCode()`. A flow that has not expired is handed back instead. */
    method StartDeviceFlow() returns (reply: Option<Status>)
      requires Valid()
      modifies this
      ensures Valid() && View() == Next(old(View()), Start)
      ensures reply.Some? <==> View() == old(View())
      ensures reply.Some? ==> StatusOf(View()).Pending? && reply.value == StatusOf(View()).(polling := false)
    {
      var existing := ActiveFlow();
      if existing.Some? && !Expired(flows[existing.value], now) {
        var f := flows[existing.value];
        return Some(Pending(false, f.code, f.expiresAt));
      }
      var resume := None;
      if existing.Some? {
        resume := flows[existing.value].resume;
      } else if authState.SignedIn? {
        resume := Some(authState.who);
      }
      if existing.Some? {
        Abort(existing.value);
      }
      starts := starts + [Waiting(resume)];
      reply := None;
    }

    /** From the code arriving: install the flow, run its poller up to its first await, announce it. */
    method InstallFlow(call: nat, code: DeviceCode) returns (reply: Status)
      requires Valid() && call < |starts| && starts[call].Waiting?
      modifies this
      ensures Valid() && View() == Next(old(View()), StartIssued(call, code))
      ensures reply == Pending(false, code, now + code.expiresIn * 1000)
    {
      var flow := Flow(code, now + code.expiresIn * 1000, false, starts[call].resume);
      flows, pcs := flows + [flow], pcs + [Ended];
      var i := |flows| - 1;
      authState := DeviceIssued(i);
      BeginPoller(i);
      notified := authState;
      starts := starts[call := Returned];
      reply := Pending(false, flow.code, flow.expiresAt);
    }

    method BeginPoller(i: nat)
      requires i < |flows| == |pcs|
      modifies this`authState, this`notified, this`pcs
      ensures if old(flows[i].aborted) then View() == old(View())
              else View() == old(View()).(auth := Polling(i), notified := Polling(i), pcs := old(pcs)[i := AwaitToken])
    {
      if flows[i].aborted {
        return;
      }
      SetAuthState(Polling(i));
      pcs := pcs[i := AwaitToken];
    }

    method CancelDeviceFlow() returns (reply: Status)
      requires Valid()
      modifies this
      ensures Valid() && View() == Next(old(View()), Cancel)
      ensures reply == StatusOf(View())
    {
      var flow := ActiveFlow();
      if flow.None? {
        return GetAuthStatus();
      }
      Abort(flow.value);
      var resume := flows[flow.value].resume;
      SetAuthState(if resume.Some? then SignedIn(resume.value) else AuthState.SignedOut);
      reply := GetAuthStatus();
    }

    /** The poller's `catch`: silent when the flow was stopped, else the flow lands. */
    method FailPoller(i: nat, message: string)
      requires Valid() && i < |pcs|
      modifies this
      ensures Valid() && View() == FailedPoller(old(View()), i, message)
    {
      pcs := pcs[i := Ended];
      var flow := flows[i];
      if flow.aborted {
        return;
      }
      SetAuthState(if flow.resume.Some? then SignedIn(flow.resume.value) else Error(message, None));
    }

    /** From `pollAccessToken`, and from `getGitHubUser`, to the next await. */
    method ResumeIdentity(i: nat, o: Outcome)
      requires Valid() && i < |pcs| && Fits(pcs[i], o) && (pcs[i].AwaitToken? || pcs[i].AwaitUser?)
      modifies this
      ensures Valid() && View() == AfterIdentity(old(View()), i, o)
    {
      var at := pcs[i];
      if o.Rejected? {
        FailPoller(i, if at.AwaitUser? then VERIFY_FAILED else o.message);
        return;
      }
      pcs := pcs[i := Ended];
      if at.AwaitUser? {
        userName := Some(o.login);
      }
      if flows[i].aborted {
        return;
      }
      pcs := pcs[i := if at.AwaitToken? then AwaitUser(o.token) else AwaitAccount(at.token, o.login, o.avatarUrl)];
    }

    /** From `addAccount` to the call of the mint. */
    method ResumeAccount(i: nat, o: Outcome)
      requires Valid() && i < |pcs| && Fits(pcs[i], o) && pcs[i].AwaitAccount?
      modifies this
      ensures Valid() && View() == AfterAccount(old(View()), i, o)
    {
      var at := pcs[i];
      if o.Rejected? {
        FailPoller(i, o.message);
        return;
      }
      githubToken := Some(at.token);
      pcs := pcs[i := AwaitMint(at.token, at.login, at.avatarUrl)];
      if DIRECT_BEARER <= at.token {
        StopCopilotRefreshLoop();
      }
    }

    /** From the mint to `cacheModels`. */
    method ResumeMint(i: nat, o: Outcome)
      requires Valid() && i < |pcs| && Fits(pcs[i], o) && pcs[i].AwaitMint?
      modifies this
      ensures Valid() && View() == AfterPollerMint(old(View()), i, o)
    {
      var at := pcs[i];
      pcs := pcs[i := Ended];
      if o.result.AuthFatal? {
        MarkAuthDegraded(o.result.error);
        return;
      }
      if o.result.Minted? {
        FinishSetup(at.token);
      }
      if flows[i].aborted {
        return;
      }
      pcs := pcs[i := AwaitModels(at.login, at.avatarUrl)];
    }

    /** One resumption of a poller, re-reading the abort flag wherever the source does. */
    method ResumePoller(i: nat, o: Outcome)
      requires Valid() && i < |pcs| && Fits(pcs[i], o)
      modifies this
      ensures Valid() && View() == Next(old(View()), PollerStep(i, o))
    {
      match pcs[i] {
        case AwaitToken => ResumeIdentity(i, o);
        case AwaitUser(_) => ResumeIdentity(i, o);
        case AwaitAccount(_, _, _) => ResumeAccount(i, o);
        case AwaitMint(_, _, _) => ResumeMint(i, o);
        case AwaitModels(login, avatar) =>
          pcs := pcs[i := Ended];
          SetAuthState(SignedIn(Identity(login, avatar, Some(now))));
      }
    }

    /** Up to `await deactivateActiveAccount()`: stop, wipe, and set the union last. */
    method SignOut()
      requires Valid()
      modifies this
      ensures Valid() && View() == Next(old(View()), Event.SignOut)
    {
      var flow := ActiveFlow();
      if flow.Some? {
        Abort(flow.value);
      }
      ClearTokenTrio();
      SetAuthState(AuthState.SignedOut);
    }

    method MarkSignedIn(login: string, avatarUrl: Option<string>)
      requires Valid()
      modifies this
      ensures Valid() && View() == Next(old(View()), Event.MarkSignedIn(login, avatarUrl))
    {
      lastAuthSuccessMs := now;
      SetAuthState(SignedIn(Identity(login, avatarUrl, Some(now))));
    }

    method MarkSignedOut()
      requires Valid()
      modifies this
      ensures Valid() && View() == Next(old(View()), Event.MarkSignedOut)
    {
      SetAuthState(AuthState.SignedOut);
    }

    method StopAuthController()
      requires Valid()
      modifies this
      ensures Valid() && View() == Next(old(View()), ProcessCleanup)
    {
      var flow := ActiveFlow();
      if flow.Some? {
        Abort(flow.value);
      }
    }

    /** Stop the poller and the loop, and forget the tokens. */
    method TearDown()
      requires Valid()
      modifies this`flows, this`loop, this`upstream, this`githubToken, this`userName
      ensures Valid() && View() == StopLoop(WithoutTokens(AbortCurrent(old(View()))))
    {
      var flow := ActiveFlow();
      if flow.Some? {
        Abort(flow.value);
      }
      StopCopilotRefreshLoop();
      ClearTokenTrio();
    }

    /** Single flight, then the grace window, then `runDegrade` up to the registry write. */
    method MarkAuthDegraded(error: Fatal)
      requires Valid()
      modifies this
      ensures Valid() && View() == AfterDegradeRequested(old(View()), error)
    {
      hide StopLoop, WithoutTokens, AbortCurrent;
      if !degradeInFlight.Idle? {
        return;
      }
      if now - lastAuthSuccessMs < RECOVERY_GRACE_MS {
        return;
      }
      TearDown();
      if authState.Error? && authState.message == error.message {
        return;
      }
      degradeInFlight := AwaitFlag(error);
    }

    /** A completion or a background mint is refused for good. */
    method ForwardAuthFatal(error: Fatal)
      requires Valid() && upstream > 0
      modifies this
      ensures Valid() && View() == AfterDegradeRequested(old(View()).(upstream := old(upstream) - 1), error)
    {
      upstream := upstream - 1;
      MarkAuthDegraded(error);
    }

    /** After the registry write, whether it succeeded or was only logged. */
    method ContinueDegrade()
      requires Valid() && degradeInFlight.AwaitFlag?
      modifies this
      ensures Valid() && View() == AfterFlag(old(View()))
    {
      var error := degradeInFlight.error;
      if autoRecover {
        degradeInFlight := AwaitSweep(error, Checking);
      } else {
        degradeInFlight := Idle;
        SetAuthState(Error(error.message, error.remediationUrl));
      }
    }

    method FinishDegrade(verdict: SweepResult)
      requires Valid() && degradeInFlight.AwaitSweep?
      modifies this
      ensures Valid() && View() == AfterSweep(old(View()), verdict)
    {
      var error := degradeInFlight.error;
      degradeInFlight := Idle;
      if verdict.Recovered? {
        return;
      }
      if verdict.NoneWorked? {
        ClearTokenTrio();
      }
      SetAuthState(Error(error.message, error.remediationUrl));
    }

    method PointAt(token: string, login: string)
      requires Valid()
      modifies this`githubToken, this`userName, this`loop, this`upstream
      ensures Valid() && View() == PointedAt(old(View()), token, login)
    {
      githubToken, userName := Some(token), Some(login);
      StopCopilotRefreshLoop();
    }

    /** One resumption of the recovery sweep. */
    method ResumeSweep(e: Event)
      requires Valid() && Enabled(View(), e)
      requires e.SweepTries? || e.SweepMinted? || e.SweepCommitted? || e.SweepLands?
      modifies this
      ensures Valid() && View() == Next(old(View()), e)
    {
      match e {
        case SweepTries(token, login) =>
          degradeInFlight := degradeInFlight.(at := Trying(token, login));
          PointAt(token, login);
        case SweepMinted(ok) =>
          var token, login := degradeInFlight.at.token, degradeInFlight.at.login;
          degradeInFlight := degradeInFlight.(at := if ok then Committing(login) else Checking);
          if ok {
            FinishSetup(token);
          }
        case SweepCommitted(ok) =>
          var login := degradeInFlight.at.login;
          degradeInFlight := degradeInFlight.(at := if ok then Caching(login) else Checking);
        case SweepLands =>
          var login := degradeInFlight.at.login;
          degradeInFlight := degradeInFlight.(at := Landed);
          MarkSignedIn(login, None);
      }
    }

    /** One resumption of a live account switch. */
    method ResumeSwitch(k: nat, ok: bool)
      requires Valid() && k < |switches| && !switches[k].SwitchOver?
      modifies this
      ensures Valid() && View() == AfterSwitch(old(View()), k, ok)
    {
      var at := switches[k];
      switches := switches[k := SwitchOver];
      match at {
        case SwitchPreflight(token, login) =>
          if ok {
            PointAt(token, login);
            switches := switches[k := SwitchMint(token, login)];
          }
        case SwitchMint(token, login) =>
          if ok {
            switches := switches[k := SwitchCommit(login)];
            FinishSetup(token);
          }
        case SwitchCommit(login) =>
          if ok {
            switches := switches[k := SwitchModels(login)];
          }
        case SwitchModels(login) => MarkSignedIn(login, None);
      }
    }

    /** Join the flight under way, or start one; without a token to exchange it ends at once. */
    method RearmCopilotAuth()
      requires Valid()
      modifies this
      ensures Valid() && View() == WithRearm(old(View()), AuthRearm.Ask(Mintable(old(githubToken))))
    {
      if rearm.at.Some? {
        rearm := rearm.(calls := rearm.calls + [AuthRearm.Waiting(rearm.flights)]);
        return;
      }
      rearm := rearm.(flights := rearm.flights + 1);
      rearm := rearm.(calls := rearm.calls + [AuthRearm.Waiting(rearm.flights)]);
      if githubToken.None? || githubToken.value == "" {
        rearm := rearm.(at := Some(AuthRearm.Ending(AuthRearm.AuthFatal)));
        return;
      }
      if DIRECT_BEARER <= githubToken.value {
        rearm := rearm.(at := Some(AuthRearm.Ending(AuthRearm.AuthFatal)));
        return;
      }
      rearm := rearm.(at := Some(AuthRearm.FirstMint));
      rearm := rearm.(log := rearm.log + [AuthRearm.MintTried(rearm.flights)]);
    }

    method FinishRearmOnline()
      requires Valid()
      modifies this`authState, this`notified, this`lastAuthSuccessMs
      ensures Valid() && View() == AfterRearmOnline(old(View()))
    {
      lastAuthSuccessMs := now;
      if userName.Some? {
        SetAuthState(SignedIn(Identity(userName.value, None, Some(now))));
      }
    }

    /** A mint of the flight worked: an exchanged one starts the loop, and the session is online. */
    method RearmWorked()
      requires Valid() && AuthRearm.Minting(rearm)
      modifies this
      ensures Valid() && View() == AfterRearmMint(old(View()), AuthRearm.Online)
    {
      var exchanging := AuthRearm.Exchanging(rearm);
      SettleMint();
      if exchanging {
        BeginLoop();
      }
      FinishRearmOnline();
    }

    method SettleMint()
      requires Valid() && AuthRearm.Minting(rearm)
      modifies this`rearm
      ensures Valid() && View() == WithRearm(old(View()), AuthRearm.MintSettles(AuthRearm.Online))
    {
      rearm := rearm.(at := Some(AuthRearm.Ending(AuthRearm.Online)),
                      log := rearm.log + [AuthRearm.MintWorked(rearm.flights)]);
    }

    method BeginLoop()
      requires Valid()
      modifies this`loop, this`upstream
      ensures Valid() && View() == StartLoop(old(View()))
    {
      StopCopilotRefreshLoop();
      loop := Asleep(0);
    }

    /** What follows `attemptMint`. */
    method RearmMinted(result: AuthRearm.Outcome)
      requires Valid() && AuthRearm.Settles(rearm, result)
      modifies this
      ensures Valid() && View() == AfterRearmMint(old(View()), result)
    {
      if result.Online? {
        RearmWorked();
      } else if rearm.at == Some(AuthRearm.FirstMint) && result.AuthFatal? {
        rearm := rearm.(at := Some(AuthRearm.Renewing));
        rearm := rearm.(log := rearm.log + [AuthRearm.RenewTried(rearm.flights)]);
      } else {
        rearm := rearm.(at := Some(AuthRearm.Ending(result)));
      }
    }

    method RenewalSettled(renewed: Option<string>)
      requires Valid() && rearm.at == Some(AuthRearm.Renewing)
      modifies this
      ensures Valid() && View() == AfterRenewal(old(View()), renewed)
    {
      if renewed.None? {
        rearm := rearm.(at := Some(AuthRearm.Ending(AuthRearm.AuthFatal)));
        return;
      }
      githubToken := renewed;
      rearm := rearm.(at := Some(AuthRearm.SecondMint(!(DIRECT_BEARER <= renewed.value))));
      if DIRECT_BEARER <= renewed.value {
        StopCopilotRefreshLoop();
      }
      rearm := rearm.(log := rearm.log + [AuthRearm.MintTried(rearm.flights)]);
    }

    /** The promise settles, and the next caller will start a new flight. */
    method ConcludeRearm()
      requires Valid()
      modifies this
      ensures Valid() && View() == WithRearm(old(View()), AuthRearm.Conclude)
    {
      if rearm.at.Some? && rearm.at.value.Ending? {
        rearm := rearm.(calls := AuthRearm.Answer(rearm.calls, rearm.at.value.outcome));
        rearm := rearm.(at := None);
      }
    }

    /** A background mint works: boot's, or the online retry's. */
    method FinishBackgroundMint(retry: bool)
      requires Valid() && upstream > 0
      modifies this
      ensures Valid() && View() == AfterUpstreamMint(old(View()), retry)
    {
      upstream := upstream - 1;
      BeginLoop();
      if retry && githubToken.None? {
        StopCopilotRefreshLoop();
      }
    }

    /** What follows the loop's `await getCopilotToken()`. */
    method ResumeRefreshLoop(answer: RefreshResult)
      requires Valid() && loop.Asking?
      modifies this
      ensures Valid() && View() == AfterRefresh(old(View()), answer)
    {
      match answer {
        case Refreshed =>
          loop := Asleep(0);
          lastAuthSuccessMs := now;
        case RefreshFailed => loop := Asleep(loop.refusals);
        case RefreshRefused(error) =>
          if loop.refusals + 1 < FATAL_REFUSALS {
            loop := Asleep(loop.refusals + 1);
            return;
          }
          loop := NoLoop;
          MarkAuthDegraded(error);
      }
    }

    /** Whatever the event loop runs next. */
    method Dispatch(e: Event)
      requires Valid()
      modifies this
      ensures Valid() && View() == Next(old(View()), e)
    {
      if OfSweepOrSwitch(e) {
        DispatchSweepOrSwitch(e);
      } else if OfRearm(e) {
        DispatchRearm(e);
      } else if e.RefreshDue? || e.RefreshSettled? {
        DispatchLoop(e);
      } else if OfUpstream(e) {
        DispatchUpstream(e);
      } else if OfAttempts(e) {
        DispatchAttempt(e);
      } else {
        DispatchRest(e);
      }
    }

    /** Of sign-in attempts. */
    method DispatchAttempt(e: Event)
      requires Valid() && OfAttempts(e)
      modifies this
      ensures Valid() && View() == Next(old(View()), e)
    {
      if !Enabled(View(), e) {
        return;
      }
      match e {
        case Start => var _ := StartDeviceFlow();
        case StartIssued(call, code) => var _ := InstallFlow(call, code);
        case StartFailed(call) => starts := starts[call := Returned];
        case PollerStep(i, o) => ResumePoller(i, o);
        case Cancel => var _ := CancelDeviceFlow();
      }
    }

    method DispatchRest(e: Event)
      requires Valid() && !Beside(e) && !OfAttempts(e)
      modifies this
      ensures Valid() && View() == Next(old(View()), e)
    {
      if e.FlagSettled? && !degradeInFlight.AwaitFlag? {
        return;
      }
      match e {
        case SignOut => SignOut();
        case MarkSignedIn(login, avatar) => MarkSignedIn(login, avatar);
        case MarkSignedOut => MarkSignedOut();
        case ProcessCleanup => StopAuthController();
        case ClockReads(time) => now := time;
        case TokenInstalled(token) => githubToken := Some(token);
        case AuthSucceeded => lastAuthSuccessMs := now;
        case SweepRegistered => autoRecover := true;
        case DegradeRequested(error) => MarkAuthDegraded(error);
        case FlagSettled => ContinueDegrade();
      }
    }

    method DispatchSweepOrSwitch(e: Event)
      requires Valid() && OfSweepOrSwitch(e)
      modifies this
      ensures Valid() && View() == Next(old(View()), e)
    {
      if !Enabled(View(), e) {
        return;
      }
      if e.SwitchRequested? {
        switches := switches + [SwitchPreflight(e.token, e.login)];
      } else if e.SwitchStep? {
        ResumeSwitch(e.switch, e.ok);
      } else if e.SweepSettled? {
        FinishDegrade(e.verdict);
      } else {
        ResumeSweep(e);
      }
    }

    method DispatchRearm(e: Event)
      requires Valid() && OfRearm(e)
      modifies this
      ensures Valid() && View() == Next(old(View()), e)
    {
      if !Enabled(View(), e) {
        return;
      }
      hide AfterRearmMint, AfterRenewal, WithRearm;
      match e {
        case RearmAsked => RearmCopilotAuth();
        case RearmMintSettled(result) => RearmMinted(result);
        case RearmRenewed(renewed) => RenewalSettled(renewed);
        case RearmConcluded => ConcludeRearm();
      }
    }

    method DispatchLoop(e: Event)
      requires Valid() && (e.RefreshDue? || e.RefreshSettled?)
      modifies this
      ensures Valid() && View() == Next(old(View()), e)
    {
      if !Enabled(View(), e) {
        return;
      }
      hide AfterRefresh;
      match e {
        case RefreshDue => loop := Asking(loop.refusals);
        case RefreshSettled(answer) => ResumeRefreshLoop(answer);
      }
    }

    /** Of requests to Copilot. */
    method DispatchUpstream(e: Event)
      requires Valid() && OfUpstream(e) && !e.RefreshDue? && !e.RefreshSettled?
      modifies this
      ensures Valid() && View() == Next(old(View()), e)
    {
      if !Enabled(View(), e) {
        return;
      }
      hide AfterDegradeRequested, AfterUpstreamMint;
      match e {
        case UpstreamSent => upstream := upstream + 1;
        case UpstreamAnswered => upstream := upstream - 1;
        case UpstreamMinted(retry) => FinishBackgroundMint(retry);
        case UpstreamRefused(error) => ForwardAuthFatal(error);
      }
    }

    /**
     A whole schedule. Subscribers are told of every change; a session that is present survives
     everything but signing out and degrading; and pollers stay single under their discipline.
     */
    method Serve(es: seq<Event>)
      requires Valid()
      modifies this
      ensures Valid() && View() == Run(old(View()), es)
      ensures old(notified == authState) ==> notified == authState
      ensures old(AuthSession.Protected(View())) && (forall e :: e in es ==> AuthSession.KeepsSession(e)) ==>
                GetAuthStatus().Pending? || GetAuthStatus().Authenticated?
      ensures old(AuthPollers.OnePoller(View()) && AuthPollers.DisciplinedRun(View(), es)) ==>
                forall i, j :: Live(View(), i) && Live(View(), j) ==> i == j
    {
      ghost var s := View();
      for k := 0 to |es|
        invariant Valid()
        invariant Run(View(), es[k..]) == Run(s, es)
      {
        assert es[k..][1..] == es[k + 1..];
        Dispatch(es[k]);
      }
      if s.notified == s.auth {
        EveryChangeIsPublished(s, es);
      }
      if AuthSession.Protected(s) && forall e :: e in es ==> AuthSession.KeepsSession(e) {
        AuthSession.SessionSurvives(s, es);
      }
      if AuthPollers.OnePoller(s) && AuthPollers.DisciplinedRun(s, es) {
        AuthPollers.SingleFlight(s, es);
      }
    }
  }
}
