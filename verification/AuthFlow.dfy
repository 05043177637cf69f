/**
 The device-flow auth controller as a step system.

 Every `await` in the controller is a point where any other action may run, so one step is
 the code between two awaits. A poller is identified with the flow it was started for:
 `pcs[i]` says where the poller of flow `i` is suspended. Outcomes of service calls are
 carried by the events, so a run quantifies over every network behaviour; the device grant
 itself (RFC 8628, sections 3.4 and 3.5) stays abstract.
 */
module AuthFlow {
  import opened Options
  import AuthRearm

  datatype DeviceCode = DeviceCode(userCode: string, verificationUri: string, expiresIn: int)

  datatype Identity = Identity(login: string, avatarUrl: Option<string>, connectedSinceMs: Option<int>)

  /** One `ActiveFlow`: only `aborted` ever changes, and only from false to true. */
  datatype Flow = Flow(code: DeviceCode, expiresAt: int, aborted: bool, resume: Option<Identity>)

  datatype AuthState =
    | SignedOut
    | DeviceIssued(flow: nat)
    | Polling(flow: nat)
    | SignedIn(who: Identity)
    | Error(message: string, remediationUrl: Option<string>)

  /** The await a poller is suspended in, with the locals it will need afterwards. */
  datatype PollerAt =
    | AwaitToken
    | AwaitUser(token: string)
    | AwaitAccount(token: string, login: string, avatarUrl: Option<string>)
    | AwaitMint(token: string, login: string, avatarUrl: Option<string>)
    | AwaitModels(login: string, avatarUrl: Option<string>)
    | Ended

  datatype Fatal = Fatal(message: string, remediationUrl: Option<string>)

  datatype MintResult = Minted | TransientFailure | AuthFatal(error: Fatal)

  datatype Outcome =
    | GotToken(token: string)
    | GotUser(login: string, avatarUrl: Option<string>)
    | AccountStored
    | MintSettled(result: MintResult)
    | ModelsSettled
    | Rejected(message: string)

  /** A `startDeviceFlow` call: suspended in `getDeviceCode`, or returned. */
  datatype StartCall = Waiting(resume: Option<Identity>) | Returned

  /** The await a recovery sweep is suspended in; at `Landed` it has signed in and is about to report so. */
  datatype SweepAt =
    | Checking
    | Trying(token: string, login: string)
    | Committing(login: string)
    | Caching(login: string)
    | Landed

  datatype DegradeAt = Idle | AwaitFlag(error: Fatal) | AwaitSweep(error: Fatal, at: SweepAt)

  datatype SweepResult = Recovered | NoneWorked | SweepThrew

  /** The await a live account switch is suspended in. */
  datatype SwitchAt =
    | SwitchPreflight(token: string, login: string)
    | SwitchMint(token: string, login: string)
    | SwitchCommit(login: string)
    | SwitchModels(login: string)
    | SwitchOver

  /** The loop that keeps the bearer fresh: `refusals` in a row so far, of which the third degrades. */
  datatype LoopAt = NoLoop | Asleep(refusals: nat) | Asking(refusals: nat)

  datatype RefreshResult = Refreshed | RefreshFailed | RefreshRefused(error: Fatal)

  datatype Snapshot = Snapshot(
    auth: AuthState,
    notified: AuthState,        // the value of `auth` at the last published event
    flows: seq<Flow>,
    pcs: seq<PollerAt>,
    starts: seq<StartCall>,
    now: int,
    githubToken: Option<string>,
    userName: Option<string>,
    degrade: DegradeAt,
    lastAuthSuccessMs: int,
    sweepRegistered: bool,
    switches: seq<SwitchAt>,
    rearm: AuthRearm.Flight,
    loop: LoopAt,
    upstream: nat               // completions and background mints that have not been answered
  )

  const RECOVERY_GRACE_MS := 3000
  const VERIFY_FAILED := "Couldn't verify your GitHub account. Try signing in again."

  const Boot: Snapshot :=
    Snapshot(SignedOut, SignedOut, [], [], [], 0, None, None, Idle, 0, false, [], AuthRearm.Boot, NoLoop, 0)

  predicate Valid(s: Snapshot) {
    && |s.pcs| == |s.flows|
    && (CurrentFlow(s).Some? ==> CurrentFlow(s).value < |s.flows|)
  }

  type State = s: Snapshot | Valid(s) witness Boot

  function CurrentFlow(s: Snapshot): Option<nat> {
    match s.auth
    case DeviceIssued(f) => Some(f)
    case Polling(f) => Some(f)
    case _ => None
  }

  predicate Expired(f: Flow, now: int) {
    f.expiresAt <= now
  }

  predicate Pollable(s: State, i: nat) {
    i < |s.pcs| && !s.pcs[i].Ended?
  }

  /** A poller that has not ended and has not been told to stop. */
  predicate Live(s: State, i: nat) {
    Pollable(s, i) && !s.flows[i].aborted
  }

  // ----- the wire status -----

  datatype Status =
    | Unauthenticated
    | Authenticated(login: string, avatarUrl: Option<string>, connectedSinceMs: Option<int>)
    | Pending(polling: bool, code: DeviceCode, expiresAt: int)
    | Failed(message: string, remediationUrl: Option<string>)

  /** Empty optional fields are omitted from the wire. */
  function Present(who: Identity): Status {
    Authenticated(
      who.login,
      if who.avatarUrl == Some("") then None else who.avatarUrl,
      if who.connectedSinceMs == Some(0) then None else who.connectedSinceMs)
  }

  function StatusOf(s: State): Status {
    match s.auth
    case SignedIn(who) => Present(who)
    case Error(message, url) => Failed(message, if url == Some("") then None else url)
    case SignedOut => Unauthenticated
    case DeviceIssued(f) => FlowStatus(s.flows[f], false, s.now)
    case Polling(f) => FlowStatus(s.flows[f], true, s.now)
  }

  function FlowStatus(f: Flow, polling: bool, now: int): Status {
    if !Expired(f, now) then Pending(polling, f.code, f.expiresAt)
    else if f.resume.Some? then Present(f.resume.value)
    else Unauthenticated
  }

  // ----- the steps -----

  datatype Event =
    | Start
    | StartIssued(call: nat, code: DeviceCode)
    | StartFailed(call: nat)
    | PollerStep(flow: nat, outcome: Outcome)
    | Cancel
    | SignOut
    | MarkSignedIn(login: string, avatarUrl: Option<string>)
    | MarkSignedOut
    | ProcessCleanup
    | ClockReads(time: int)
    | TokenInstalled(token: string)
    | AuthSucceeded
    | SweepRegistered
    | DegradeRequested(error: Fatal)
    | FlagSettled
    | SweepTries(token: string, login: string)
    | SweepMinted(ok: bool)
    | SweepCommitted(ok: bool)
    | SweepLands
    | SweepSettled(verdict: SweepResult)
    | SwitchRequested(token: string, login: string)
    | SwitchStep(switch: nat, ok: bool)
    | RearmAsked
    | RearmMintSettled(result: AuthRearm.Outcome)
    | RearmRenewed(renewed: Option<string>)
    | RearmConcluded
    | UpstreamSent
    | UpstreamAnswered
    | UpstreamMinted(retry: bool)
    | UpstreamRefused(error: Fatal)
    | RefreshDue
    | RefreshSettled(answer: RefreshResult)

  function Publish(s: Snapshot, next: AuthState): Snapshot {
    s.(auth := next, notified := next)
  }

  function AbortFlow(s: State, f: nat): (t: State)
    requires f < |s.flows|
  {
    s.(flows := s.flows[f := s.flows[f].(aborted := true)])
  }

  function AbortCurrent(s: State): State {
    if CurrentFlow(s).Some? then AbortFlow(s, CurrentFlow(s).value) else s
  }

  /** `flowFailureState`: a failed flow lands on the session it was started over, if any. */
  function LandingState(f: Flow, fallback: AuthState): AuthState {
    if f.resume.Some? then SignedIn(f.resume.value) else fallback
  }

  function CaptureResume(s: State): Option<Identity> {
    if CurrentFlow(s).Some? then s.flows[CurrentFlow(s).value].resume
    else if s.auth.SignedIn? then Some(s.auth.who)
    else None
  }

  function AfterStart(s: State): State {
    if CurrentFlow(s).Some? && !Expired(s.flows[CurrentFlow(s).value], s.now) then s
    else AbortCurrent(s).(starts := s.starts + [Waiting(CaptureResume(s))])
  }

  function AfterStartIssued(s: State, call: nat, code: DeviceCode): State
    requires call < |s.starts| && s.starts[call].Waiting?
  {
    var f := Flow(code, s.now + code.expiresIn * 1000, false, s.starts[call].resume);
    Publish(s.(flows := s.flows + [f],
               pcs := s.pcs + [AwaitToken],
               starts := s.starts[call := Returned]),
            Polling(|s.flows|))
  }

  function AfterCancel(s: State): State {
    if CurrentFlow(s).None? then s
    else Publish(AbortCurrent(s), LandingState(s.flows[CurrentFlow(s).value], SignedOut))
  }

  /** `clearTokenTrio`, of which the Copilot bearer is not modelled. */
  function WithoutTokens(s: State): State {
    s.(githubToken := None, userName := None)
  }

  const FATAL_REFUSALS := 3

  /** What is asked for is not called back: a last attempt that is stopped may still be refused. */
  function StopLoop(s: State): State {
    s.(loop := NoLoop, upstream := s.upstream + if LastAttempt(s.loop) then 1 else 0)
  }

  predicate LastAttempt(l: LoopAt) {
    l.Asking? && l.refusals + 1 >= FATAL_REFUSALS
  }

  /** A mint that was exchanged for a bearer replaces the loop. */
  function StartLoop(s: State): State {
    StopLoop(s).(loop := Asleep(0))
  }

  /** The sign-out stops no loop. */
  function AfterSignOut(s: State): State {
    Publish(WithoutTokens(AbortCurrent(s)), SignedOut)
  }

  function AfterMarkSignedIn(s: State, login: string, avatarUrl: Option<string>): State {
    Publish(s.(lastAuthSuccessMs := s.now), SignedIn(Identity(login, avatarUrl, Some(s.now))))
  }

  /** The outcomes the await a poller sits in can produce. `cacheModels` never rejects past its own catch. */
  predicate Fits(at: PollerAt, o: Outcome) {
    match at
    case AwaitToken => o.GotToken? || o.Rejected?
    case AwaitUser(_) => o.GotUser? || o.Rejected?
    case AwaitAccount(_, _, _) => o.AccountStored? || o.Rejected?
    case AwaitMint(token, _, _) => o.MintSettled? && (Direct(token) ==> o.result.Minted?)
    case AwaitModels(_, _) => o.ModelsSettled?
    case Ended => false
  }

  function AfterDegradeRequested(s: State, error: Fatal): State {
    if !s.degrade.Idle? || s.now - s.lastAuthSuccessMs < RECOVERY_GRACE_MS then s
    else
      var cleared := StopLoop(WithoutTokens(AbortCurrent(s)));
      if s.auth.Error? && s.auth.message == error.message then cleared
      else cleared.(degrade := AwaitFlag(error))
  }

  function GiveUp(s: State, error: Fatal): State {
    Publish(s.(degrade := Idle), Error(error.message, error.remediationUrl))
  }

  const DIRECT_BEARER := "gho_"

  /** A token that is used as the bearer as it is: there is no mint to be refused, and no loop. */
  predicate Direct(token: string) {
    DIRECT_BEARER <= token
  }

  /** A mint is called: a direct bearer stops the loop there and then. */
  function Called(s: State, token: string): State {
    if Direct(token) then StopLoop(s) else s
  }

  /** A mint has worked: an exchanged one starts the loop. */
  function Exchanged(s: State, token: string): State {
    if Direct(token) then s else StartLoop(s)
  }

  function Stopped(s: State, i: nat): State
    requires i < |s.pcs|
  {
    s.(pcs := s.pcs[i := Ended])
  }

  function Goes(s: State, i: nat, at: PollerAt): State
    requires i < |s.pcs|
  {
    s.(pcs := s.pcs[i := at])
  }

  /** A poller that fails: silently when it was stopped, else its flow lands. */
  function FailedPoller(s: State, i: nat, message: string): State
    requires i < |s.pcs|
  {
    if s.flows[i].aborted then Stopped(s, i)
    else Publish(Stopped(s, i), LandingState(s.flows[i], Error(message, None)))
  }

  /** With the token, and with the user: up to the account's being stored. */
  function AfterIdentity(s: State, i: nat, o: Outcome): State
    requires Pollable(s, i) && Fits(s.pcs[i], o) && (s.pcs[i].AwaitToken? || s.pcs[i].AwaitUser?)
  {
    match s.pcs[i]
    case AwaitToken =>
      if o.Rejected? then FailedPoller(s, i, o.message)
      else if s.flows[i].aborted then Stopped(s, i) else Goes(s, i, AwaitUser(o.token))
    case AwaitUser(token) =>
      if o.Rejected? then FailedPoller(s, i, VERIFY_FAILED)
      else
        var known := s.(userName := Some(o.login));
        if s.flows[i].aborted then Stopped(known, i)
        else Goes(known, i, AwaitAccount(token, o.login, o.avatarUrl))
  }

  function AfterAccount(s: State, i: nat, o: Outcome): State
    requires Pollable(s, i) && Fits(s.pcs[i], o) && s.pcs[i].AwaitAccount?
  {
    var at := s.pcs[i];
    if o.Rejected? then FailedPoller(s, i, o.message)
    else Called(Goes(s.(githubToken := Some(at.token)), i, AwaitMint(at.token, at.login, at.avatarUrl)), at.token)
  }

  function AfterPollerMint(s: State, i: nat, o: Outcome): State
    requires Pollable(s, i) && Fits(s.pcs[i], o) && s.pcs[i].AwaitMint?
  {
    var at := s.pcs[i];
    if o.result.AuthFatal? then AfterDegradeRequested(Stopped(s, i), o.result.error)
    else
      var minted := if o.result.Minted? then Exchanged(s, at.token) else s;
      if s.flows[i].aborted then Stopped(minted, i) else Goes(minted, i, AwaitModels(at.login, at.avatarUrl))
  }

  function AfterPoller(s: State, i: nat, o: Outcome): State
    requires Pollable(s, i) && Fits(s.pcs[i], o)
  {
    match s.pcs[i]
    case AwaitToken => AfterIdentity(s, i, o)
    case AwaitUser(_) => AfterIdentity(s, i, o)
    case AwaitAccount(_, _, _) => AfterAccount(s, i, o)
    case AwaitMint(_, _, _) => AfterPollerMint(s, i, o)
    case AwaitModels(login, avatar) => Publish(Stopped(s, i), SignedIn(Identity(login, avatar, Some(s.now))))
  }

  /** The session in memory is pointed at another account, up to the call of the mint. */
  function PointedAt(s: State, token: string, login: string): State {
    StopLoop(s).(githubToken := Some(token), userName := Some(login))
  }

  /** A live switch stays switched over in memory when its mint or its commit fails. */
  function AfterSwitch(s: State, k: nat, ok: bool): State
    requires k < |s.switches| && !s.switches[k].SwitchOver?
  {
    var over := s.(switches := s.switches[k := SwitchOver]);
    match s.switches[k]
    case SwitchPreflight(token, login) =>
      if !ok then over
      else PointedAt(s, token, login).(switches := s.switches[k := SwitchMint(token, login)])
    case SwitchMint(token, login) =>
      if ok then Exchanged(s.(switches := s.switches[k := SwitchCommit(login)]), token) else over
    case SwitchCommit(login) => if ok then s.(switches := s.switches[k := SwitchModels(login)]) else over
    case SwitchModels(login) => AfterMarkSignedIn(over, login, None)
  }

  /** After the registry write: the sweep, if one is registered, and else the error. */
  function AfterFlag(s: State): State
    requires s.degrade.AwaitFlag?
  {
    if s.sweepRegistered then s.(degrade := AwaitSweep(s.degrade.error, Checking))
    else GiveUp(s, s.degrade.error)
  }

  /** After the sweep: the error, unless it recovered; with no account left to use, no tokens either. */
  function AfterSweep(s: State, result: SweepResult): State
    requires s.degrade.AwaitSweep?
  {
    match result
    case Recovered => s.(degrade := Idle)
    case NoneWorked => GiveUp(WithoutTokens(s), s.degrade.error)
    case SweepThrew => GiveUp(s, s.degrade.error)
  }

  function InSweep(s: State, at: SweepAt): State
    requires s.degrade.AwaitSweep?
  {
    s.(degrade := s.degrade.(at := at))
  }

  /** The sweep mints the account it tries; an account that fails is flagged, and it checks the next. */
  function AfterSweepMint(s: State, ok: bool): State
    requires s.degrade.AwaitSweep? && s.degrade.at.Trying?
  {
    if !ok then InSweep(s, Checking)
    else Exchanged(InSweep(s, Committing(s.degrade.at.login)), s.degrade.at.token)
  }

  /** A token that can be exchanged; a direct bearer cannot. */
  predicate Mintable(token: Option<string>) {
    token.Some? && token.value != "" && !Direct(token.value)
  }

  /** A background mint works. The online retry undoes it when the token is gone by then; boot does not. */
  function AfterUpstreamMint(s: State, retry: bool): State
    requires s.upstream > 0
  {
    var answered := s.(upstream := s.upstream - 1);
    if retry && s.githubToken.None? then StopLoop(answered) else StartLoop(answered)
  }

  function AfterRefresh(s: State, result: RefreshResult): State
    requires s.loop.Asking?
  {
    match result
    case Refreshed => s.(loop := Asleep(0), lastAuthSuccessMs := s.now)
    case RefreshFailed => s.(loop := Asleep(s.loop.refusals))
    case RefreshRefused(error) =>
      if LastAttempt(s.loop) then AfterDegradeRequested(s.(loop := NoLoop), error)
      else s.(loop := Asleep(s.loop.refusals + 1))
  }

  /** A re-arm's mint works: the loop, if there was an exchange, and signed in, if it is known as whom. */
  function AfterRearmMint(s: State, result: AuthRearm.Outcome): State {
    var t := WithRearm(s, AuthRearm.MintSettles(result));
    if !result.Online? then t
    else AfterRearmOnline(if AuthRearm.Exchanging(s.rearm) then StartLoop(t) else t)
  }

  function AfterRenewal(s: State, token: Option<string>): State {
    if token.None? then WithRearm(s, AuthRearm.RenewSettles(AuthRearm.NotRenewed))
    else
      Called(WithRearm(s, AuthRearm.RenewSettles(AuthRearm.Renewed(!Direct(token.value)))), token.value)
        .(githubToken := token)
  }

  /** `finishRearmOnline`: signed in again, if it is known as whom. */
  function AfterRearmOnline(s: State): State {
    if s.userName.Some? then AfterMarkSignedIn(s, s.userName.value, None) else s.(lastAuthSuccessMs := s.now)
  }

  function WithRearm(s: State, e: AuthRearm.Event): State {
    s.(rearm := AuthRearm.Next(s.rearm, e))
  }

  predicate Enabled(s: State, e: Event) {
    match e
    case StartIssued(call, _) => call < |s.starts| && s.starts[call].Waiting?
    case StartFailed(call) => call < |s.starts| && s.starts[call].Waiting?
    case PollerStep(i, o) => Pollable(s, i) && Fits(s.pcs[i], o)
    case FlagSettled => s.degrade.AwaitFlag?
    case SweepTries(_, _) => s.degrade.AwaitSweep? && s.degrade.at.Checking?
    case SweepMinted(ok) => s.degrade.AwaitSweep? && s.degrade.at.Trying? && (Direct(s.degrade.at.token) ==> ok)
    case SweepCommitted(_) => s.degrade.AwaitSweep? && s.degrade.at.Committing?
    case SweepLands => s.degrade.AwaitSweep? && s.degrade.at.Caching?
    case SweepSettled(verdict) =>
      s.degrade.AwaitSweep? && if verdict.Recovered? then s.degrade.at.Landed? else s.degrade.at.Checking?
    case SwitchStep(k, ok) =>
      && k < |s.switches| && !s.switches[k].SwitchOver?
      && (s.switches[k].SwitchMint? && Direct(s.switches[k].token) ==> ok)
    case RearmMintSettled(result) => AuthRearm.Settles(s.rearm, result)
    case RearmRenewed(_) => s.rearm.at == Some(AuthRearm.Renewing)
    case UpstreamAnswered => s.upstream > 0
    case UpstreamMinted(_) => s.upstream > 0
    case UpstreamRefused(_) => s.upstream > 0
    case RefreshDue => s.loop.Asleep?
    case RefreshSettled(_) => s.loop.Asking?
    case _ => true
  }

  /** One step. An event that cannot happen in `s` leaves it unchanged. */
  function Next(s: State, e: Event): State {
    if !Enabled(s, e) then s
    else
      match e
      case Start => AfterStart(s)
      case StartIssued(call, code) => AfterStartIssued(s, call, code)
      case StartFailed(call) => s.(starts := s.starts[call := Returned])
      case PollerStep(i, o) => AfterPoller(s, i, o)
      case Cancel => AfterCancel(s)
      case SignOut => AfterSignOut(s)
      case MarkSignedIn(login, avatar) => AfterMarkSignedIn(s, login, avatar)
      case MarkSignedOut => Publish(s, AuthState.SignedOut)
      case ProcessCleanup => AbortCurrent(s)
      case ClockReads(time) => s.(now := time)
      case TokenInstalled(token) => s.(githubToken := Some(token))
      case AuthSucceeded => s.(lastAuthSuccessMs := s.now)
      case SweepRegistered => s.(sweepRegistered := true)
      case DegradeRequested(error) => AfterDegradeRequested(s, error)
      case FlagSettled => AfterFlag(s)
      case SweepTries(token, login) => PointedAt(InSweep(s, Trying(token, login)), token, login)
      case SweepMinted(ok) => AfterSweepMint(s, ok)
      case SweepCommitted(ok) => InSweep(s, if ok then Caching(s.degrade.at.login) else Checking)
      case SweepLands => AfterMarkSignedIn(InSweep(s, Landed), s.degrade.at.login, None)
      case SweepSettled(verdict) => AfterSweep(s, verdict)
      case SwitchRequested(token, login) => s.(switches := s.switches + [SwitchPreflight(token, login)])
      case SwitchStep(k, ok) => AfterSwitch(s, k, ok)
      case RearmAsked => WithRearm(s, AuthRearm.Ask(Mintable(s.githubToken)))
      case RearmMintSettled(result) => AfterRearmMint(s, result)
      case RearmRenewed(token) => AfterRenewal(s, token)
      case RearmConcluded => WithRearm(s, AuthRearm.Conclude)
      case UpstreamSent => s.(upstream := s.upstream + 1)
      case UpstreamAnswered => s.(upstream := s.upstream - 1)
      case UpstreamMinted(retry) => AfterUpstreamMint(s, retry)
      case UpstreamRefused(error) => AfterDegradeRequested(s.(upstream := s.upstream - 1), error)
      case RefreshDue => s.(loop := Asking(s.loop.refusals))
      case RefreshSettled(answer) => AfterRefresh(s, answer)
  }

  function Run(s: State, es: seq<Event>): State
    decreases |es|
  {
    if es == [] then s else Run(Next(s, es[0]), es[1..])
  }

  // ----- what a request to degrade does to the rest -----

  lemma DegradeRequestEffect(s: State, error: Fatal)
    ensures var t := AfterDegradeRequested(s, error);
            && t.auth == s.auth && t.notified == s.notified && t.pcs == s.pcs && t.starts == s.starts
            && t.switches == s.switches && t.rearm == s.rearm && t.sweepRegistered == s.sweepRegistered
            && (t.flows == s.flows || t.flows == AbortCurrent(s).flows)
  {
  }

  // ----- what a poller's step does to the rest -----

  /** The union as it was; or signed in at the end; or landed where the attempt began. */
  predicate PollerWrites(s: State, t: State, i: nat, o: Outcome)
    requires i < |s.pcs|
  {
    || t.auth == s.auth
    || (s.pcs[i].AwaitModels? && o.ModelsSettled? && t.auth.SignedIn?)
    || (!s.flows[i].aborted && o.Rejected?
        && if s.flows[i].resume.Some? then t.auth == SignedIn(s.flows[i].resume.value) else t.auth.Error?)
  }

  /** Only this poller moves on; stopped, it may still mint, and only not stopped does it ask for the models. */
  predicate PollerMoves(s: State, t: State, i: nat)
    requires i < |s.pcs|
  {
    && |t.pcs| == |s.pcs| && t.pcs == s.pcs[i := t.pcs[i]] && t.starts == s.starts && t.switches == s.switches
    && (t.auth != s.auth ==> t.pcs[i].Ended?)
    && (s.flows[i].aborted ==> t.pcs[i].Ended? || t.pcs[i].AwaitMint?)
  }

  lemma IdentityEffect(s: State, i: nat, o: Outcome)
    requires Pollable(s, i) && Fits(s.pcs[i], o) && (s.pcs[i].AwaitToken? || s.pcs[i].AwaitUser?)
    ensures var t := Next(s, PollerStep(i, o));
            PollerMoves(s, t, i) && PollerWrites(s, t, i, o) && t.flows == s.flows
  {
  }

  lemma AccountEffect(s: State, i: nat, o: Outcome)
    requires Pollable(s, i) && Fits(s.pcs[i], o) && s.pcs[i].AwaitAccount?
    ensures var t := Next(s, PollerStep(i, o));
            PollerMoves(s, t, i) && PollerWrites(s, t, i, o) && t.flows == s.flows
  {
  }

  lemma MintEffect(s: State, i: nat, o: Outcome)
    requires Pollable(s, i) && Fits(s.pcs[i], o) && s.pcs[i].AwaitMint?
    ensures var t := Next(s, PollerStep(i, o));
            && PollerMoves(s, t, i) && t.auth == s.auth
            && (t.flows == s.flows || (o.result.AuthFatal? && t.pcs[i].Ended? && t.flows == AbortCurrent(s).flows))
  {
    if o.result.AuthFatal? {
      FatalMintEffect(s, i, o);
    }
  }

  lemma FatalMintEffect(s: State, i: nat, o: Outcome)
    requires Pollable(s, i) && Fits(s.pcs[i], o) && s.pcs[i].AwaitMint? && o.result.AuthFatal?
    ensures var t := Next(s, PollerStep(i, o));
            && PollerMoves(s, t, i) && t.auth == s.auth && t.pcs[i].Ended?
            && (t.flows == s.flows || t.flows == AbortCurrent(s).flows)
  {
    hide AfterDegradeRequested;
    DegradeRequestEffect(Stopped(s, i), o.result.error);
  }

  lemma PollerEffect(s: State, i: nat, o: Outcome)
    requires Pollable(s, i) && Fits(s.pcs[i], o)
    ensures var t := Next(s, PollerStep(i, o));
            && PollerMoves(s, t, i) && PollerWrites(s, t, i, o)
            && (t.flows == s.flows
                || (Refuses(PollerStep(i, o)) && t.pcs[i].Ended? && t.flows == AbortCurrent(s).flows))
  {
    match s.pcs[i] {
      case AwaitToken => IdentityEffect(s, i, o);
      case AwaitUser(_) => IdentityEffect(s, i, o);
      case AwaitAccount(_, _, _) => AccountEffect(s, i, o);
      case AwaitMint(_, _, _) => MintEffect(s, i, o);
      case AwaitModels(_, _) =>
    }
  }

  // ----- what goes on beside the device flow -----

  predicate OfSweepOrSwitch(e: Event) {
    e.SweepTries? || e.SweepMinted? || e.SweepCommitted? || e.SweepLands? || e.SweepSettled?
    || e.SwitchRequested? || e.SwitchStep?
  }

  predicate OfRearm(e: Event) {
    e.RearmAsked? || e.RearmMintSettled? || e.RearmRenewed? || e.RearmConcluded?
  }

  predicate OfUpstream(e: Event) {
    e.UpstreamSent? || e.UpstreamAnswered? || e.UpstreamMinted? || e.UpstreamRefused?
    || e.RefreshDue? || e.RefreshSettled?
  }

  predicate OfAttempts(e: Event) {
    e.Start? || e.StartIssued? || e.StartFailed? || e.PollerStep? || e.Cancel?
  }

  predicate Beside(e: Event) {
    OfSweepOrSwitch(e) || OfRearm(e) || OfUpstream(e)
  }

  /** What the upstream rejects for good sends whoever asked down the degrade path. */
  predicate Refuses(e: Event) {
    || (e.PollerStep? && e.outcome.MintSettled? && e.outcome.result.AuthFatal?)
    || e.UpstreamRefused?
    || (e.RefreshSettled? && e.answer.RefreshRefused?)
  }

  /** The union is as it was, or says somebody is signed in. */
  predicate KeepsOrSignsIn(s: State, t: State) {
    t.auth == s.auth || t.auth.SignedIn?
  }

  /** No flow, poller or start is touched. */
  predicate SameFlows(s: State, t: State) {
    t.flows == s.flows && t.pcs == s.pcs && t.starts == s.starts
  }

  lemma SwitchKeepsFlows(s: State, e: Event)
    requires e.SwitchStep?
    ensures SameFlows(s, Next(s, e)) && KeepsOrSignsIn(s, Next(s, e))
  {
  }

  lemma SweepOrSwitchKeepsFlows(s: State, e: Event)
    requires OfSweepOrSwitch(e)
    ensures SameFlows(s, Next(s, e)) && (!e.SweepSettled? ==> KeepsOrSignsIn(s, Next(s, e)))
  {
    if e.SwitchStep? {
      SwitchKeepsFlows(s, e);
    }
  }

  lemma RearmMintKeepsFlows(s: State, result: AuthRearm.Outcome)
    ensures var t := AfterRearmMint(s, result); SameFlows(s, t) && KeepsOrSignsIn(s, t)
  {
  }

  lemma RearmKeepsFlows(s: State, e: Event)
    requires OfRearm(e)
    ensures SameFlows(s, Next(s, e)) && KeepsOrSignsIn(s, Next(s, e))
    ensures !e.RearmMintSettled? ==> Next(s, e).auth == s.auth
  {
    hide AfterRearmMint;
    if e.RearmMintSettled? {
      RearmMintKeepsFlows(s, e.result);
    }
  }

  /** Apart from refusals, requests and the loop touch nothing but themselves and the grace window. */
  lemma AnswerEffect(s: State, e: Event)
    requires OfUpstream(e) && !Refuses(e)
    ensures var t := Next(s, e);
            && SameFlows(s, t) && t.auth == s.auth && t.switches == s.switches && t.degrade == s.degrade
            && t.userName == s.userName && t.githubToken == s.githubToken && t.rearm == s.rearm
            && t.sweepRegistered == s.sweepRegistered
            && (s.loop.NoLoop? && s.upstream == 0 && !e.UpstreamSent? ==> t == s)
  {
  }

  lemma RearmMintEffect(s: State, result: AuthRearm.Outcome)
    ensures var t := Next(s, RearmMintSettled(result));
            && SameFlows(s, t) && t.switches == s.switches && t.degrade == s.degrade
            && t.userName == s.userName && t.githubToken == s.githubToken
            && t.sweepRegistered == s.sweepRegistered
            && (t.auth == s.auth || (s.userName.Some? && t.auth.SignedIn? && AuthRearm.Minting(s.rearm)))
            && (AuthRearm.Exchanging(s.rearm) || (t.loop == s.loop && t.upstream == s.upstream))
  {
  }

  lemma RefusalKeepsFlows(s: State, e: Event)
    requires OfUpstream(e) && Refuses(e)
    ensures Next(s, e).auth == s.auth && Next(s, e).pcs == s.pcs && Next(s, e).starts == s.starts
    ensures Next(s, e).flows == s.flows || Next(s, e).flows == AbortCurrent(s).flows
  {
    hide AfterDegradeRequested;
    if Enabled(s, e) {
      if e.UpstreamRefused? {
        DegradeRequestEffect(s.(upstream := s.upstream - 1), e.error);
      } else {
        DegradeRequestEffect(s.(loop := NoLoop), e.answer.error);
      }
    }
  }

  lemma UpstreamKeepsFlows(s: State, e: Event)
    requires OfUpstream(e)
    ensures Next(s, e).auth == s.auth && Next(s, e).pcs == s.pcs && Next(s, e).starts == s.starts
    ensures Next(s, e).flows == s.flows || (Refuses(e) && Next(s, e).flows == AbortCurrent(s).flows)
  {
    if Refuses(e) {
      RefusalKeepsFlows(s, e);
    }
  }

  /** At most a refusal stops the current flow. */
  lemma BesideKeepsFlows(s: State, e: Event)
    requires Beside(e)
    ensures Next(s, e).pcs == s.pcs && Next(s, e).starts == s.starts
    ensures Next(s, e).flows == s.flows || (Refuses(e) && Next(s, e).flows == AbortCurrent(s).flows)
    ensures !e.SweepSettled? ==> KeepsOrSignsIn(s, Next(s, e))
  {
    hide Next;
    if OfSweepOrSwitch(e) {
      SweepOrSwitchKeepsFlows(s, e);
    } else if OfRearm(e) {
      RearmKeepsFlows(s, e);
    } else {
      UpstreamKeepsFlows(s, e);
    }
  }

  // ----- every change is announced -----

  lemma RefusalIsPublished(s: State, e: Event)
    requires s.notified == s.auth && OfUpstream(e) && Refuses(e)
    ensures Next(s, e).notified == Next(s, e).auth
  {
    if Enabled(s, e) {
      hide AfterDegradeRequested;
      if e.UpstreamRefused? {
        DegradeRequestEffect(s.(upstream := s.upstream - 1), e.error);
      } else {
        DegradeRequestEffect(s.(loop := NoLoop), e.answer.error);
      }
    }
  }

  lemma SweepOrSwitchIsPublished(s: State, e: Event)
    requires s.notified == s.auth && OfSweepOrSwitch(e)
    ensures Next(s, e).notified == Next(s, e).auth
  {
  }

  lemma BesideIsPublished(s: State, e: Event)
    requires s.notified == s.auth && Beside(e)
    ensures Next(s, e).notified == Next(s, e).auth
  {
    if OfUpstream(e) && Refuses(e) {
      RefusalIsPublished(s, e);
    } else if OfSweepOrSwitch(e) {
      SweepOrSwitchIsPublished(s, e);
    }
  }

  lemma StepIsPublished(s: State, e: Event)
    requires s.notified == s.auth
    ensures Next(s, e).notified == Next(s, e).auth
  {
    if Beside(e) {
      BesideIsPublished(s, e);
    }
  }

  /** Whatever happens, subscribers have been told the current union value at every await. */
  lemma {:induction false} EveryChangeIsPublished(s: State, es: seq<Event>)
    requires s.notified == s.auth
    ensures Run(s, es).notified == Run(s, es).auth
    decreases |es|
  {
    if es != [] {
      hide Next;
      StepIsPublished(s, es[0]);
      EveryChangeIsPublished(Next(s, es[0]), es[1..]);
    }
  }

  /** What the rearm flight sees of an event. */
  function RearmEvents(s: State, e: Event): seq<AuthRearm.Event> {
    match e
    case RearmAsked => [AuthRearm.Ask(Mintable(s.githubToken))]
    case RearmMintSettled(result) => [AuthRearm.MintSettles(result)]
    case RearmRenewed(token) =>
      [AuthRearm.RenewSettles(if token.None? then AuthRearm.NotRenewed else AuthRearm.Renewed(!Direct(token.value)))]
    case RearmConcluded => [AuthRearm.Conclude]
    case _ => []
  }

  lemma OneRearmEvent(f: AuthRearm.Flight, e: AuthRearm.Event)
    ensures AuthRearm.Run(f, [e]) == AuthRearm.Next(f, e)
  {
    assert [e][1..] == [];
  }

  lemma BesideLeavesRearm(s: State, e: Event)
    requires Beside(e) && !OfRearm(e)
    ensures Next(s, e).rearm == s.rearm
  {
    if OfUpstream(e) && Refuses(e) {
      RefusalLeavesRearm(s, e);
    }
  }

  lemma RefusalLeavesRearm(s: State, e: Event)
    requires OfUpstream(e) && Refuses(e)
    ensures Next(s, e).rearm == s.rearm
  {
    if Enabled(s, e) {
      hide AfterDegradeRequested;
      if e.UpstreamRefused? {
        DegradeRequestEffect(s.(upstream := s.upstream - 1), e.error);
      } else {
        DegradeRequestEffect(s.(loop := NoLoop), e.answer.error);
      }
    }
  }

  lemma PollerLeavesRearm(s: State, e: Event)
    requires e.PollerStep?
    ensures Next(s, e).rearm == s.rearm
  {
    if Enabled(s, e) && e.outcome.MintSettled? && e.outcome.result.AuthFatal? {
      hide AfterDegradeRequested;
      DegradeRequestEffect(Stopped(s, e.flow), e.outcome.result.error);
    }
  }

  lemma OthersLeaveRearm(s: State, e: Event)
    requires !OfRearm(e)
    ensures Next(s, e).rearm == s.rearm
  {
    if Beside(e) {
      BesideLeavesRearm(s, e);
    } else if e.PollerStep? {
      PollerLeavesRearm(s, e);
    }
  }

  lemma StepRearms(s: State, e: Event)
    ensures Next(s, e).rearm == AuthRearm.Run(s.rearm, RearmEvents(s, e))
  {
    hide AuthRearm.Next, AuthRearm.Run;
    match e {
      case RearmAsked => OneRearmEvent(s.rearm, AuthRearm.Ask(Mintable(s.githubToken)));
      case RearmMintSettled(result) => OneRearmMint(s, result);
      case RearmRenewed(token) => OneRearmRenewal(s, token);
      case RearmConcluded => OneRearmEvent(s.rearm, AuthRearm.Conclude);
      case _ =>
        OthersLeaveRearm(s, e);
        NoRearmEvent(s.rearm);
    }
  }

  lemma NoRearmEvent(f: AuthRearm.Flight)
    ensures AuthRearm.Run(f, []) == f
  {
  }

  lemma OneRearmRenewal(s: State, token: Option<string>)
    ensures var e := RearmRenewed(token); Next(s, e).rearm == AuthRearm.Run(s.rearm, RearmEvents(s, e))
  {
    OneRearmEvent(s.rearm, RearmEvents(s, RearmRenewed(token))[0]);
  }

  lemma OneRearmMint(s: State, result: AuthRearm.Outcome)
    ensures Next(s, RearmMintSettled(result)).rearm == AuthRearm.Run(s.rearm, [AuthRearm.MintSettles(result)])
  {
    OneRearmEvent(s.rearm, AuthRearm.MintSettles(result));
  }

  lemma {:induction false} RearmRunsConcat(f: AuthRearm.Flight, a: seq<AuthRearm.Event>, b: seq<AuthRearm.Event>)
    ensures AuthRearm.Run(AuthRearm.Run(f, a), b) == AuthRearm.Run(f, a + b)
    decreases |a|
  {
    if a == [] {
      assert a + b == b;
    } else {
      assert (a + b)[1..] == a[1..] + b;
      RearmRunsConcat(AuthRearm.Next(f, a[0]), a[1..], b);
    }
  }

  /** Inside every run of the controller there is a run of the rearm flight, so what holds of those holds here. */
  lemma {:induction false} RearmRunsInside(s: State, es: seq<Event>) returns (rs: seq<AuthRearm.Event>)
    ensures Run(s, es).rearm == AuthRearm.Run(s.rearm, rs)
    decreases |es|
  {
    if es == [] {
      rs := [];
    } else {
      StepRearms(s, es[0]);
      var rest := RearmRunsInside(Next(s, es[0]), es[1..]);
      RearmRunsConcat(s.rearm, RearmEvents(s, es[0]), rest);
      rs := RearmEvents(s, es[0]) + rest;
    }
  }

  /** From boot on, however sign-ins and sign-outs interleave: flights are cheap and their callers agree. */
  lemma RearmIsSharedAndCheap(es: seq<Event>, f: nat)
    ensures AuthRearm.Spent(Run(Boot, es).rearm, f, 2, 1)
    ensures AuthRearm.Shared(Run(Boot, es).rearm) && AuthRearm.Truthful(Run(Boot, es).rearm)
  {
    var rs := RearmRunsInside(Boot, es);
    AuthRearm.FlightsAreCheap(AuthRearm.Boot, rs, f);
    AuthRearm.CallersAgree(AuthRearm.Boot, rs);
  }

  lemma Unroll(s: State, e: Event, es: seq<Event>)
    ensures Run(s, [e] + es) == Run(Next(s, e), es)
  {
    assert ([e] + es)[1..] == es;
  }
}
