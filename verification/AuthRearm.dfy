/**
 Re-arming the Copilot session from the retained GitHub credential: one flight at a time, shared
 by every caller that asks while it is under way. What a flight does to the session is part of
 `AuthFlow`, which runs this one inside it.
 */
module AuthRearm {
  import opened Options

  datatype Outcome = Online | AuthFatal | Offline

  /** A renewed token may be one that is used as it is; then there is nothing to exchange. */
  datatype Renewal = NotRenewed | Renewed(exchanged: bool)

  datatype At = FirstMint | Renewing | SecondMint(exchanged: bool) | Ending(outcome: Outcome)

  /** A caller waits on a flight, or has its answer. */
  datatype Call = Waiting(flight: nat) | Answered(flight: nat, outcome: Outcome)

  datatype Effect = MintTried(flight: nat) | MintWorked(flight: nat) | RenewTried(flight: nat)

  datatype Flight = Flight(
    at: Option<At>,             // the flight under way, if any
    flights: nat,               // how many have been started; the last is the one under way
    calls: seq<Call>,
    log: seq<Effect>
  )

  /** `mintable` says whether there is a token that can be exchanged for another bearer. */
  datatype Event =
    | Ask(mintable: bool)
    | MintSettles(result: Outcome)
    | RenewSettles(renewal: Renewal)
    | Conclude

  const Boot := Flight(None, 0, [], [])

  /** A mint is under way, or may yet follow from a renewal. */
  predicate MayMint(f: Flight) {
    Minting(f) || f.at == Some(Renewing)
  }

  predicate Minting(f: Flight) {
    f.at.Some? && (f.at.value.FirstMint? || f.at.value.SecondMint?)
  }

  /** The mint under way asks the upstream, and so may be refused; else it works at once. */
  predicate Exchanging(f: Flight) {
    Minting(f) && f.at != Some(SecondMint(false))
  }

  predicate Settles(f: Flight, result: Outcome) {
    Minting(f) && (Exchanging(f) || result.Online?)
  }

  function Launch(s: Flight, mintable: bool): Flight {
    var f := s.flights + 1;
    var t := s.(flights := f, calls := s.calls + [Waiting(f)]);
    if !mintable then t.(at := Some(Ending(AuthFatal)))
    else t.(at := Some(FirstMint), log := s.log + [MintTried(f)])
  }

  function AfterMint(s: Flight, result: Outcome): Flight
    requires Minting(s)
  {
    if result.Online? then s.(at := Some(Ending(Online)), log := s.log + [MintWorked(s.flights)])
    else if result.AuthFatal? && s.at == Some(FirstMint)
    then s.(at := Some(Renewing), log := s.log + [RenewTried(s.flights)])
    else s.(at := Some(Ending(result)))
  }

  function AfterRenewal(s: Flight, renewal: Renewal): Flight {
    if renewal.NotRenewed? then s.(at := Some(Ending(AuthFatal)))
    else s.(at := Some(SecondMint(renewal.exchanged)), log := s.log + [MintTried(s.flights)])
  }

  /** Everybody who waited gets the one answer. */
  function Answer(calls: seq<Call>, outcome: Outcome): (out: seq<Call>)
    ensures |out| == |calls|
    ensures forall i :: 0 <= i < |calls| ==>
              out[i] == if calls[i].Waiting? then Answered(calls[i].flight, outcome) else calls[i]
  {
    seq(|calls|, i requires 0 <= i < |calls| =>
      if calls[i].Waiting? then Answered(calls[i].flight, outcome) else calls[i])
  }

  /** An event that cannot happen now changes nothing. */
  function Next(s: Flight, e: Event): Flight {
    match e
    case Ask(mintable) => if s.at.Some? then s.(calls := s.calls + [Waiting(s.flights)]) else Launch(s, mintable)
    case MintSettles(result) => if Settles(s, result) then AfterMint(s, result) else s
    case RenewSettles(renewal) => if s.at == Some(Renewing) then AfterRenewal(s, renewal) else s
    case Conclude =>
      if s.at.Some? && s.at.value.Ending? then s.(at := None, calls := Answer(s.calls, s.at.value.outcome)) else s
  }

  function Run(s: Flight, es: seq<Event>): Flight
    decreases |es|
  {
    if es == [] then s else Run(Next(s, es[0]), es[1..])
  }

  // ----- a flight costs at most two mints and one renewal -----

  function Count(log: seq<Effect>, e: Effect): nat {
    if log == [] then 0 else Count(log[..|log| - 1], e) + if log[|log| - 1] == e then 1 else 0
  }

  lemma CountSnoc(log: seq<Effect>, x: Effect, f: nat)
    ensures Count(log + [x], MintTried(f)) == Count(log, MintTried(f)) + if x == MintTried(f) then 1 else 0
    ensures Count(log + [x], RenewTried(f)) == Count(log, RenewTried(f)) + if x == RenewTried(f) then 1 else 0
  {
    assert (log + [x])[..|log|] == log;
  }

  predicate Spent(s: Flight, f: nat, mints: nat, renewals: nat) {
    Count(s.log, MintTried(f)) <= mints && Count(s.log, RenewTried(f)) <= renewals
  }

  predicate FlightCost(s: Flight, f: nat) {
    if f > s.flights then Spent(s, f, 0, 0)
    else if f < s.flights || s.at.None? then Spent(s, f, 2, 1)
    else match s.at.value
      case FirstMint => Spent(s, f, 1, 0)
      case Renewing => Spent(s, f, 1, 1)
      case _ => Spent(s, f, 2, 1)
  }

  lemma MintCost(s: Flight, result: Outcome, f: nat)
    requires FlightCost(s, f) && Minting(s)
    ensures FlightCost(AfterMint(s, result), f)
  {
    CountSnoc(s.log, if result.Online? then MintWorked(s.flights) else RenewTried(s.flights), f);
  }

  lemma AskCost(s: Flight, mintable: bool, f: nat)
    requires FlightCost(s, f) && s.at.None?
    ensures FlightCost(Launch(s, mintable), f)
  {
    CountSnoc(s.log, MintTried(s.flights + 1), f);
  }

  lemma StepCost(s: Flight, e: Event, f: nat)
    requires FlightCost(s, f)
    ensures FlightCost(Next(s, e), f)
  {
    hide Launch, AfterMint;
    match e {
      case Ask(mintable) =>
        if s.at.None? {
          AskCost(s, mintable, f);
        }
      case MintSettles(result) =>
        if Settles(s, result) {
          MintCost(s, result, f);
        }
      case RenewSettles(_) => CountSnoc(s.log, MintTried(s.flights), f);
      case Conclude =>
    }
  }

  /** Whoever asks and whatever the network does, no flight tries more than two mints and one renewal. */
  lemma {:induction false} FlightsAreCheap(s: Flight, es: seq<Event>, f: nat)
    requires FlightCost(s, f)
    ensures FlightCost(Run(s, es), f) && Spent(Run(s, es), f, 2, 1)
    decreases |es|
  {
    if es != [] {
      StepCost(s, es[0], f);
      FlightsAreCheap(Next(s, es[0]), es[1..], f);
    }
  }

  // ----- one answer per flight -----

  predicate SameFlight(a: Call, b: Call) {
    a.Answered? && b.Answered? && a.flight == b.flight
  }

  /** Everyone waiting waits on the flight under way, and answers of one flight agree. */
  ghost predicate Shared(s: Flight) {
    && (forall i :: 0 <= i < |s.calls| && s.calls[i].Waiting? ==> s.at.Some? && s.calls[i].flight == s.flights)
    && (forall i :: 0 <= i < |s.calls| && s.calls[i].Answered? ==> s.calls[i].flight <= s.flights)
    && (forall i :: 0 <= i < |s.calls| && s.calls[i].Answered? && s.at.Some? ==> s.calls[i].flight < s.flights)
    && (forall i, j :: 0 <= i < |s.calls| && 0 <= j < |s.calls| && SameFlight(s.calls[i], s.calls[j]) ==>
          s.calls[i].outcome == s.calls[j].outcome)
  }

  lemma StepShared(s: Flight, e: Event)
    requires Shared(s)
    ensures Shared(Next(s, e))
  {
  }

  /** A caller is told its flight is online exactly when a mint of that flight worked. */
  ghost predicate Truthful(s: Flight) {
    && (forall i :: 0 <= i < |s.calls| && s.calls[i].Answered? ==>
          (s.calls[i].outcome.Online? <==> MintWorked(s.calls[i].flight) in s.log))
    && (forall f :: f > s.flights ==> MintWorked(f) !in s.log)
    && (s.at.Some? ==> (s.at.value == Ending(Online) <==> MintWorked(s.flights) in s.log))
  }

  lemma StepTruthful(s: Flight, e: Event)
    requires Shared(s) && Truthful(s)
    ensures Truthful(Next(s, e))
  {
  }

  /** Over every run: callers of one flight agree, and are told the truth about it. */
  lemma {:induction false} CallersAgree(s: Flight, es: seq<Event>)
    requires Shared(s) && Truthful(s)
    ensures Shared(Run(s, es)) && Truthful(Run(s, es))
    decreases |es|
  {
    if es != [] {
      StepShared(s, es[0]);
      StepTruthful(s, es[0]);
      CallersAgree(Next(s, es[0]), es[1..]);
    }
  }
}
