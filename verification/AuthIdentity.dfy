/**
 Whom a completed sign-in signs in. Runs overlap attempts, switches and sweeps in any way; each of them
 ends with the account it was itself told about, and nobody is signed in who was not named.
 */
module AuthIdentity {
  import AuthRearm
  import opened AuthFlow
  import opened Options

  datatype Who = Who(login: string, avatarUrl: Option<string>)

  datatype Account = Account(token: string, login: string)

  // ----- pollers -----

  /** The user the poller of flow `i` is told about last. */
  function LastUser(s: State, es: seq<Event>, i: nat): Option<Who>
    decreases |es|
  {
    if es == [] then None
    else
      var later := LastUser(Next(s, es[0]), es[1..], i);
      if later.Some? then later else UserTold(s, es[0], i)
  }

  function UserTold(s: State, e: Event, i: nat): Option<Who> {
    if e.PollerStep? && e.flow == i && e.outcome.GotUser? && Enabled(s, e)
    then Some(Who(e.outcome.login, e.outcome.avatarUrl)) else None
  }

  /** The token that poller is given last. */
  function LastToken(s: State, es: seq<Event>, i: nat): Option<string>
    decreases |es|
  {
    if es == [] then None
    else
      var later := LastToken(Next(s, es[0]), es[1..], i);
      if later.Some? then later else TokenGiven(s, es[0], i)
  }

  function TokenGiven(s: State, e: Event, i: nat): Option<string> {
    if e.PollerStep? && e.flow == i && e.outcome.GotToken? && Enabled(s, e) then Some(e.outcome.token) else None
  }

  /** What a poller that waits here carries along. */
  function UserAt(at: PollerAt): Option<Who> {
    match at
    case AwaitAccount(_, login, avatar) => Some(Who(login, avatar))
    case AwaitMint(_, login, avatar) => Some(Who(login, avatar))
    case AwaitModels(login, avatar) => Some(Who(login, avatar))
    case _ => None
  }

  function TokenAt(at: PollerAt): Option<string> {
    match at
    case AwaitUser(token) => Some(token)
    case AwaitAccount(token, _, _) => Some(token)
    case AwaitMint(token, _, _) => Some(token)
    case _ => None
  }

  function UserOf(s: State, i: nat): Option<Who> {
    if i < |s.pcs| then UserAt(s.pcs[i]) else None
  }

  function TokenOf(s: State, i: nat): Option<string> {
    if i < |s.pcs| then TokenAt(s.pcs[i]) else None
  }

  /** A poller that still carries something carries what it did, or what it has just been told. */
  predicate CarriesOn(s: State, e: Event, i: nat) {
    var t := Next(s, e);
    && (UserOf(t, i).Some? ==> UserOf(t, i) == if UserTold(s, e, i).Some? then UserTold(s, e, i) else UserOf(s, i))
    && (TokenOf(t, i).Some? ==>
          TokenOf(t, i) == if TokenGiven(s, e, i).Some? then TokenGiven(s, e, i) else TokenOf(s, i))
  }

  lemma OwnStepCarries(s: State, i: nat, o: Outcome)
    requires Pollable(s, i) && Fits(s.pcs[i], o) && !s.pcs[i].AwaitMint?
    ensures CarriesOn(s, PollerStep(i, o), i)
  {
  }

  lemma OwnMintCarries(s: State, i: nat, o: Outcome)
    requires Pollable(s, i) && Fits(s.pcs[i], o) && s.pcs[i].AwaitMint?
    ensures CarriesOn(s, PollerStep(i, o), i)
  {
    if o.result.AuthFatal? {
      hide AfterDegradeRequested;
      DegradeRequestEffect(Stopped(s, i), o.result.error);
    }
  }

  lemma PollerCarries(s: State, e: Event, i: nat)
    requires e.PollerStep?
    ensures CarriesOn(s, e, i)
  {
    if Enabled(s, e) {
      if e.flow != i {
        hide AfterPoller;
        PollerEffect(s, e.flow, e.outcome);
      } else if s.pcs[i].AwaitMint? {
        OwnMintCarries(s, i, e.outcome);
      } else {
        OwnStepCarries(s, i, e.outcome);
      }
    }
  }

  lemma BesideCarries(s: State, e: Event, i: nat)
    requires Beside(e)
    ensures CarriesOn(s, e, i)
  {
    hide Next;
    BesideKeepsFlows(s, e);
  }

  lemma OthersCarry(s: State, e: Event, i: nat)
    requires !e.PollerStep? && !Beside(e)
    ensures CarriesOn(s, e, i)
  {
  }

  lemma StepCarries(s: State, e: Event, i: nat)
    ensures CarriesOn(s, e, i)
  {
    hide CarriesOn;
    if e.PollerStep? {
      PollerCarries(s, e, i);
    } else if Beside(e) {
      BesideCarries(s, e, i);
    } else {
      OthersCarry(s, e, i);
    }
  }

  /** Over every run: what a poller carries is what it was told last. */
  lemma {:induction false} CarriesWhatItWasTold(s: State, es: seq<Event>, i: nat)
    ensures var t := Run(s, es);
            && (UserOf(t, i).Some? ==>
                  UserOf(t, i) == if LastUser(s, es, i).Some? then LastUser(s, es, i) else UserOf(s, i))
            && (TokenOf(t, i).Some? ==>
                  TokenOf(t, i) == if LastToken(s, es, i).Some? then LastToken(s, es, i) else TokenOf(s, i))
    decreases |es|
  {
    if es != [] {
      hide Next, UserOf, TokenOf, UserTold, TokenGiven;
      StepCarries(s, es[0], i);
      CarriesWhatItWasTold(Next(s, es[0]), es[1..], i);
    }
  }

  /**
   Over every run, from any state in which the poller has not begun: when its models are settled, the
   union names the user it was told about, connected since now.
   */
  lemma CompletedSignIn(s: State, es: seq<Event>, i: nat)
    requires i >= |s.pcs|
    requires Enabled(Run(s, es), PollerStep(i, ModelsSettled))
    ensures var t := Run(s, es);
            && LastUser(s, es, i).Some?
            && var who, u := LastUser(s, es, i).value, Next(t, PollerStep(i, ModelsSettled));
               && u.auth == SignedIn(Identity(who.login, who.avatarUrl, Some(t.now)))
               && StatusOf(u).Authenticated? && StatusOf(u).login == who.login
  {
    CarriesWhatItWasTold(s, es, i);
  }

  /** And before that the token it was given is the one installed, under the name it was told. */
  lemma CompletedStore(s: State, es: seq<Event>, i: nat)
    requires i >= |s.pcs|
    requires Enabled(Run(s, es), PollerStep(i, AccountStored))
    ensures LastToken(s, es, i).Some? && LastUser(s, es, i).Some?
    ensures Next(Run(s, es), PollerStep(i, AccountStored)).githubToken == LastToken(s, es, i)
  {
    CarriesWhatItWasTold(s, es, i);
    hide Run;
  }

  // ----- live switches -----

  /** The account that the `k`-th switch was requested for. */
  function Requested(s: State, es: seq<Event>, k: nat): Option<Account>
    decreases |es|
  {
    if es == [] then None
    else if RequestNow(s, es[0], k).Some? then RequestNow(s, es[0], k)
    else Requested(Next(s, es[0]), es[1..], k)
  }

  function RequestNow(s: State, e: Event, k: nat): Option<Account> {
    if e.SwitchRequested? && |s.switches| == k then Some(Account(e.token, e.login)) else None
  }

  predicate SwitchNames(at: SwitchAt, a: Account) {
    match at
    case SwitchPreflight(token, login) => token == a.token && login == a.login
    case SwitchMint(token, login) => token == a.token && login == a.login
    case SwitchCommit(login) => login == a.login
    case SwitchModels(login) => login == a.login
    case SwitchOver => true
  }

  lemma PollerLeavesSwitches(s: State, e: Event)
    requires e.PollerStep?
    ensures Next(s, e).switches == s.switches
  {
    hide AfterPoller;
    if Enabled(s, e) {
      PollerEffect(s, e.flow, e.outcome);
    }
  }

  lemma UpstreamLeavesSwitches(s: State, e: Event)
    requires OfUpstream(e)
    ensures Next(s, e).switches == s.switches
  {
    if !Refuses(e) {
      AnswerEffect(s, e);
    } else if Enabled(s, e) {
      hide AfterDegradeRequested;
      if e.UpstreamRefused? {
        DegradeRequestEffect(s.(upstream := s.upstream - 1), e.error);
      } else {
        DegradeRequestEffect(s.(loop := NoLoop), e.answer.error);
      }
    }
  }

  lemma OthersLeaveSwitches(s: State, e: Event)
    requires !e.SwitchRequested? && !e.SwitchStep?
    ensures Next(s, e).switches == s.switches
  {
    if OfUpstream(e) {
      UpstreamLeavesSwitches(s, e);
    } else if e.PollerStep? {
      PollerLeavesSwitches(s, e);
    } else if e.RearmMintSettled? {
      RearmMintEffect(s, e.result);
    }
  }

  lemma SwitchStepGoesOn(s: State, k: nat, ok: bool, i: nat, a: Account)
    requires i < |s.switches| && SwitchNames(s.switches[i], a)
    ensures |Next(s, SwitchStep(k, ok)).switches| == |s.switches|
    ensures SwitchNames(Next(s, SwitchStep(k, ok)).switches[i], a)
    ensures s.switches[i].SwitchOver? ==> Next(s, SwitchStep(k, ok)).switches[i].SwitchOver?
  {
  }

  lemma SwitchGoesOn(s: State, e: Event, k: nat, a: Account)
    requires k < |s.switches| && SwitchNames(s.switches[k], a)
    ensures k < |Next(s, e).switches| && SwitchNames(Next(s, e).switches[k], a)
    ensures s.switches[k].SwitchOver? ==> Next(s, e).switches[k].SwitchOver?
  {
    RequestAdds(s, e);
    hide Next, SwitchNames;
    if e.SwitchStep? {
      SwitchStepGoesOn(s, e.switch, e.ok, k, a);
    } else if !e.SwitchRequested? {
      OthersLeaveSwitches(s, e);
    }
  }

  lemma RequestAdds(s: State, e: Event)
    ensures e.SwitchRequested? ==> Next(s, e).switches == s.switches + [SwitchPreflight(e.token, e.login)]
  {
  }

  lemma {:induction false} SwitchStaysNamed(s: State, es: seq<Event>, k: nat, a: Account)
    requires k < |s.switches| && SwitchNames(s.switches[k], a)
    ensures k < |Run(s, es).switches| && SwitchNames(Run(s, es).switches[k], a)
    decreases |es|
  {
    if es != [] {
      hide Next;
      SwitchGoesOn(s, es[0], k, a);
      SwitchStaysNamed(Next(s, es[0]), es[1..], k, a);
    }
  }

  lemma StepAddsNone(s: State, k: nat, ok: bool)
    ensures |Next(s, SwitchStep(k, ok)).switches| == |s.switches|
  {
  }

  lemma OnlyRequestsAdd(s: State, e: Event)
    ensures e.SwitchRequested? ==> Next(s, e).switches == s.switches + [SwitchPreflight(e.token, e.login)]
    ensures !e.SwitchRequested? ==> |Next(s, e).switches| == |s.switches|
  {
    RequestAdds(s, e);
    hide Next;
    if e.SwitchStep? {
      StepAddsNone(s, e.switch, e.ok);
    } else if !e.SwitchRequested? {
      OthersLeaveSwitches(s, e);
    }
  }

  lemma {:induction false} SwitchWasRequested(s: State, es: seq<Event>, k: nat)
    requires |s.switches| <= k < |Run(s, es).switches|
    ensures Requested(s, es, k).Some? && SwitchNames(Run(s, es).switches[k], Requested(s, es, k).value)
    decreases |es|
  {
    hide Next;
    var t := Next(s, es[0]);
    OnlyRequestsAdd(s, es[0]);
    if es[0].SwitchRequested? && |s.switches| == k {
      SwitchStaysNamed(t, es[1..], k, Account(es[0].token, es[0].login));
    } else {
      SwitchWasRequested(t, es[1..], k);
    }
  }

  /**
   Over every run: a switch that passes its check installs the token and the name it was requested
   for, and one that lands signs in that name, connected since now.
   */
  lemma CompletedSwitch(s: State, es: seq<Event>, k: nat, ok: bool)
    requires |s.switches| <= k && Enabled(Run(s, es), SwitchStep(k, ok))
    ensures Requested(s, es, k).Some?
    ensures var t, a := Run(s, es), Requested(s, es, k).value;
            var u := Next(t, SwitchStep(k, ok));
            && (t.switches[k].SwitchModels? ==> u.auth == SignedIn(Identity(a.login, None, Some(t.now))))
            && (t.switches[k].SwitchPreflight? && ok ==>
                  u.githubToken == Some(a.token) && u.userName == Some(a.login))
  {
    SwitchWasRequested(s, es, k);
    hide Run;
  }

  // ----- recovery sweeps -----

  /** The account that a sweep tried last. */
  function LastTried(s: State, es: seq<Event>): Option<Account>
    decreases |es|
  {
    if es == [] then None
    else
      var later := LastTried(Next(s, es[0]), es[1..]);
      if later.Some? then later else TriedNow(s, es[0])
  }

  function TriedNow(s: State, e: Event): Option<Account> {
    if e.SweepTries? && Enabled(s, e) then Some(Account(e.token, e.login)) else None
  }

  /** The login of the account that the sweep is at. */
  function SweepLogin(s: State): Option<string> {
    if !s.degrade.AwaitSweep? then None
    else
      match s.degrade.at
      case Trying(_, login) => Some(login)
      case Committing(login) => Some(login)
      case Caching(login) => Some(login)
      case _ => None
  }

  lemma SweepGoesOn(s: State, e: Event)
    ensures var t := Next(s, e);
            SweepLogin(t).Some? ==>
              SweepLogin(t) == if TriedNow(s, e).Some? then Some(TriedNow(s, e).value.login) else SweepLogin(s)
  {
    if OfUpstream(e) {
      UpstreamLeavesSweep(s, e);
    } else if e.PollerStep? {
      PollerLeavesSweep(s, e);
    } else if e.RearmMintSettled? {
      RearmMintEffect(s, e.result);
    }
  }

  lemma RequestLeavesSweep(s: State, error: Fatal)
    ensures SweepLogin(AfterDegradeRequested(s, error)) == SweepLogin(s)
  {
  }

  lemma UpstreamLeavesSweep(s: State, e: Event)
    requires OfUpstream(e)
    ensures SweepLogin(Next(s, e)) == SweepLogin(s)
  {
    if !Refuses(e) {
      AnswerEffect(s, e);
    } else if Enabled(s, e) {
      hide AfterDegradeRequested;
      if e.UpstreamRefused? {
        RequestLeavesSweep(s.(upstream := s.upstream - 1), e.error);
      } else {
        RequestLeavesSweep(s.(loop := NoLoop), e.answer.error);
      }
    }
  }

  lemma PollerLeavesSweep(s: State, e: Event)
    requires e.PollerStep?
    ensures SweepLogin(Next(s, e)) == SweepLogin(s)
  {
    if Enabled(s, e) && e.outcome.MintSettled? && e.outcome.result.AuthFatal? {
      hide AfterDegradeRequested;
      RequestLeavesSweep(Stopped(s, e.flow), e.outcome.result.error);
    }
  }

  lemma {:induction false} SweepIsAtWhomItTried(s: State, es: seq<Event>)
    ensures var t := Run(s, es);
            SweepLogin(t).Some? ==>
              SweepLogin(t) ==
              if LastTried(s, es).Some? then Some(LastTried(s, es).value.login) else SweepLogin(s)
    decreases |es|
  {
    if es != [] {
      hide Next, SweepLogin, TriedNow;
      SweepGoesOn(s, es[0]);
      SweepIsAtWhomItTried(Next(s, es[0]), es[1..]);
    }
  }

  /** Over every run: a sweep that lands signs in the account it tried last, connected since now. */
  lemma CompletedSweep(s: State, es: seq<Event>)
    requires SweepLogin(s).None? && Enabled(Run(s, es), SweepLands)
    ensures LastTried(s, es).Some?
    ensures Next(Run(s, es), SweepLands).auth ==
            SignedIn(Identity(LastTried(s, es).value.login, None, Some(Run(s, es).now)))
  {
    SweepIsAtWhomItTried(s, es);
    hide Run;
  }

  /** A renewal installs the token it brings, and without one leaves the token that is there. */
  lemma RenewalInstallsItsToken(s: State, renewed: Option<string>)
    requires Enabled(s, RearmRenewed(renewed))
    ensures Next(s, RearmRenewed(renewed)).githubToken == if renewed.Some? then renewed else s.githubToken
    ensures Next(s, RearmRenewed(renewed)).userName == s.userName
  {
  }

  // ----- nobody else -----

  /** An event that names an account: the user's, a caller's, or one from the registry. */
  predicate Names(e: Event, login: string) {
    || (e.PollerStep? && e.outcome.GotUser? && e.outcome.login == login)
    || (e.MarkSignedIn? && e.login == login)
    || (e.SwitchRequested? && e.login == login)
    || (e.SweepTries? && e.login == login)
  }

  predicate IsFor(resume: Option<Identity>, login: string) {
    resume.Some? && resume.value.login == login
  }

  /** The attempts know the login: one was begun over it, or a poller has been told it. */
  predicate AttemptsKnow(s: State, login: string) {
    || (exists i :: 0 <= i < |s.flows| && IsFor(s.flows[i].resume, login))
    || (exists k :: 0 <= k < |s.starts| && s.starts[k].Waiting? && IsFor(s.starts[k].resume, login))
    || (exists i :: 0 <= i < |s.pcs| && UserAt(s.pcs[i]).Some? && UserAt(s.pcs[i]).value.login == login)
  }

  predicate SwitchKnows(at: SwitchAt, login: string) {
    !at.SwitchOver? && at.login == login
  }

  /** The session, a switch or the sweep knows it. */
  predicate AccountsKnow(s: State, login: string) {
    || s.userName == Some(login)
    || (exists k :: 0 <= k < |s.switches| && SwitchKnows(s.switches[k], login))
    || SweepLogin(s) == Some(login)
  }

  predicate Known(s: State, login: string) {
    (s.auth.SignedIn? && s.auth.who.login == login) || AttemptsKnow(s, login) || AccountsKnow(s, login)
  }

  lemma BesideLearnsNothing(s: State, e: Event, login: string)
    requires Beside(e) && AttemptsKnow(Next(s, e), login)
    ensures AttemptsKnow(s, login)
  {
    hide Next;
    BesideKeepsFlows(s, e);
  }

  lemma PollerLearns(s: State, i: nat, o: Outcome, login: string)
    requires Enabled(s, PollerStep(i, o)) && AttemptsKnow(Next(s, PollerStep(i, o)), login)
    ensures AttemptsKnow(s, login) || Names(PollerStep(i, o), login)
  {
    var e := PollerStep(i, o);
    var t := Next(s, e);
    StepCarries(s, e, i);
    hide Next, AfterPoller;
    PollerEffect(s, i, o);
    if j :| 0 <= j < |t.pcs| && UserAt(t.pcs[j]).Some? && UserAt(t.pcs[j]).value.login == login {
      assert j == i ==> UserOf(t, i) == UserAt(t.pcs[i]);
    }
  }

  lemma AttemptsLearn(s: State, e: Event, login: string)
    requires OfAttempts(e) && !e.PollerStep? && AttemptsKnow(Next(s, e), login)
    ensures Known(s, login)
  {
  }

  /** What neither goes on beside the attempts nor is a step of one leaves them, but for stopping flows. */
  lemma OthersLearnNothing(s: State, e: Event, login: string)
    requires !Beside(e) && !OfAttempts(e) && AttemptsKnow(Next(s, e), login)
    ensures AttemptsKnow(s, login)
  {
    OthersKeepAttempts(s, e);
    hide Next;
  }

  lemma OthersKeepAttempts(s: State, e: Event)
    requires !Beside(e) && !OfAttempts(e)
    ensures Next(s, e).pcs == s.pcs && Next(s, e).starts == s.starts
    ensures Next(s, e).flows == s.flows || Next(s, e).flows == AbortCurrent(s).flows
  {
  }

  lemma OneMoreSwitch(s: State, e: Event, login: string)
    requires exists k :: 0 <= k < |Next(s, e).switches| && SwitchKnows(Next(s, e).switches[k], login)
    ensures AccountsKnow(s, login) || Names(e, login)
  {
    OnlyRequestsAdd(s, e);
    hide Next;
    var k :| 0 <= k < |Next(s, e).switches| && SwitchKnows(Next(s, e).switches[k], login);
    if k < |s.switches| {
      SwitchSame(s, e, k);
    }
  }

  lemma SwitchSame(s: State, e: Event, k: nat)
    requires k < |s.switches|
    ensures var t := Next(s, e);
            k < |t.switches| && (t.switches[k].SwitchOver?
                                 || (!s.switches[k].SwitchOver? && t.switches[k].login == s.switches[k].login))
  {
    var at := s.switches[k];
    var a := Account(if at.SwitchPreflight? || at.SwitchMint? then at.token else "",
                     if at.SwitchOver? then "" else at.login);
    SwitchGoesOn(s, e, k, a);
    hide Next;
  }

  /** Who writes the name of the session, and as what. */
  predicate NameWritten(s: State, e: Event) {
    var t := Next(s, e);
    || t.userName == s.userName || t.userName.None?
    || (e.PollerStep? && e.outcome.GotUser? && t.userName == Some(e.outcome.login))
    || (e.SweepTries? && t.userName == Some(e.login))
    || (e.SwitchStep? && e.switch < |s.switches| && s.switches[e.switch].SwitchPreflight?
        && t.userName == Some(s.switches[e.switch].login))
  }

  lemma UpstreamWritesNoName(s: State, e: Event)
    requires OfUpstream(e)
    ensures NameWritten(s, e)
  {
    if !Refuses(e) {
      AnswerEffect(s, e);
    }
  }

  lemma PollerWritesName(s: State, e: Event)
    requires e.PollerStep?
    ensures NameWritten(s, e)
  {
  }

  lemma OthersWriteName(s: State, e: Event)
    requires !OfUpstream(e) && !e.PollerStep?
    ensures NameWritten(s, e)
  {
    if e.RearmMintSettled? {
      RearmMintEffect(s, e.result);
    }
  }

  lemma NameIsWritten(s: State, e: Event)
    ensures NameWritten(s, e)
  {
    hide NameWritten;
    if OfUpstream(e) {
      UpstreamWritesNoName(s, e);
    } else if e.PollerStep? {
      PollerWritesName(s, e);
    } else {
      OthersWriteName(s, e);
    }
  }

  lemma AccountsLearn(s: State, e: Event, login: string)
    requires AccountsKnow(Next(s, e), login)
    ensures AccountsKnow(s, login) || Names(e, login)
  {
    hide Next;
    var t := Next(s, e);
    if t.userName == Some(login) {
      NameIsWritten(s, e);
      if e.SwitchStep? && e.switch < |s.switches| && s.switches[e.switch].SwitchPreflight? {
        assert s.switches[e.switch].login == login ==> SwitchKnows(s.switches[e.switch], login);
      }
    } else if SweepLogin(t) == Some(login) {
      SweepGoesOn(s, e);
    } else {
      OneMoreSwitch(s, e, login);
    }
  }

  /** Who is signed in by a step was known before it or is named by it. */
  predicate SignsInTheKnown(s: State, e: Event) {
    var t := Next(s, e);
    t.auth.SignedIn? ==> Known(s, t.auth.who.login) || Names(e, t.auth.who.login)
  }

  lemma BesideSignsIn(s: State, e: Event)
    requires OfSweepOrSwitch(e) || OfUpstream(e)
    ensures SignsInTheKnown(s, e)
  {
    hide AttemptsKnow;
    if OfUpstream(e) {
      UpstreamKeepsFlows(s, e);
    }
  }

  lemma RearmSignsIn(s: State, e: Event)
    requires OfRearm(e)
    ensures SignsInTheKnown(s, e)
  {
    RearmKeepsFlows(s, e);
    hide Next, AttemptsKnow;
    if e.RearmMintSettled? {
      RearmSignsInTheName(s, e.result);
    }
  }

  lemma OthersSignIn(s: State, e: Event)
    requires !Beside(e) && !e.PollerStep?
    ensures SignsInTheKnown(s, e)
  {
  }

  lemma UnionLearns(s: State, e: Event)
    ensures SignsInTheKnown(s, e)
  {
    hide Next, Known;
    if e.PollerStep? {
      PollerSignsIn(s, e);
    } else if OfRearm(e) {
      RearmSignsIn(s, e);
    } else if Beside(e) {
      BesideSignsIn(s, e);
    } else {
      OthersSignIn(s, e);
    }
  }

  lemma PollerSignsIn(s: State, e: Event)
    requires e.PollerStep?
    ensures SignsInTheKnown(s, e)
  {
    hide AfterPoller;
    if Enabled(s, e) {
      if Next(s, e).auth.SignedIn? {
        PollerSignsInTheKnown(s, e.flow, e.outcome);
      }
    }
  }

  lemma PollerSignsInTheKnown(s: State, i: nat, o: Outcome)
    requires Enabled(s, PollerStep(i, o)) && Next(s, PollerStep(i, o)).auth.SignedIn?
    ensures Known(s, Next(s, PollerStep(i, o)).auth.who.login)
  {
    if s.pcs[i].AwaitModels? {
      assert UserAt(s.pcs[i]) == Some(Who(s.pcs[i].login, s.pcs[i].avatarUrl));
    } else {
      hide AfterPoller;
      PollerEffect(s, i, o);
    }
  }

  /** A re-arm signs in the name of the session, if it has one, and else nobody. */
  lemma RearmSignsInTheName(s: State, result: AuthRearm.Outcome)
    ensures Next(s, RearmMintSettled(result)).auth ==
            if Enabled(s, RearmMintSettled(result)) && result.Online? && s.userName.Some?
            then SignedIn(Identity(s.userName.value, None, Some(s.now))) else s.auth
  {
  }

  lemma StepLearns(s: State, e: Event, login: string)
    requires Known(Next(s, e), login)
    ensures Known(s, login) || Names(e, login)
  {
    hide Next, AttemptsKnow, AccountsKnow;
    var t := Next(s, e);
    if AccountsKnow(t, login) {
      AccountsLearn(s, e, login);
    } else if AttemptsKnow(t, login) {
      if Beside(e) {
        BesideLearnsNothing(s, e, login);
      } else if e.PollerStep? {
        PollerStepLearns(s, e, login);
      } else if OfAttempts(e) {
        AttemptsLearn(s, e, login);
      } else {
        OthersLearnNothing(s, e, login);
      }
    } else {
      UnionLearns(s, e);
    }
  }

  lemma PollerStepLearns(s: State, e: Event, login: string)
    requires e.PollerStep? && AttemptsKnow(Next(s, e), login)
    ensures AttemptsKnow(s, login) || Names(e, login)
  {
    if Enabled(s, e) {
      PollerLearns(s, e.flow, e.outcome, login);
    }
  }

  lemma {:induction false} RunLearns(s: State, es: seq<Event>, login: string)
    requires Known(Run(s, es), login)
    ensures Known(s, login) || exists e :: e in es && Names(e, login)
    decreases |es|
  {
    if es != [] {
      hide Next, Known;
      RunLearns(Next(s, es[0]), es[1..], login);
      if Known(Next(s, es[0]), login) {
        StepLearns(s, es[0], login);
      }
    }
  }

  /**
   From boot on, however attempts, switches, sweeps, re-arms and degrades interleave: whoever is signed in
   was named, by GitHub for a token, by a caller, by the user's choice of account or by the registry.
   */
  lemma NobodyUnnamedIsSignedIn(es: seq<Event>)
    requires Run(Boot, es).auth.SignedIn?
    ensures exists e :: e in es && Names(e, Run(Boot, es).auth.who.login)
  {
    hide Run;
    RunLearns(Boot, es, Run(Boot, es).auth.who.login);
  }
}
