/**
 Rounds of degrade and recover, on whatever schedule the clears that nobody waits for run: exactly
 when a round keeps what it decided, and why rounds that do come to an end.
 */
module RecoveryRounds {
  import opened AuthRecovery
  import opened Options
  import opened RegistryRaces

  // ----- a round that nothing disturbs -----

  /** One degrade followed by its sweep: flag the active account, then look for another. */
  function Round(reg: Registry, w: World): Sweep {
    SweepOf(FlagActiveIn(reg, w), w)
  }

  /** A failed flag write is logged and the degrade goes on. */
  function FlagActiveIn(reg: Registry, w: World): Registry {
    if reg.active.Some? && w.flags(reg.active.value) then MarkNeedsReauth(reg, reg.active.value) else reg
  }

  // ----- the updates a round makes -----

  function Update(op: Op, works: bool): seq<Event> {
    [Reads, if works then Writes(op) else WriteFails]
  }

  /** What trying these accounts does to the registry, account by account. */
  function Program(ks: seq<Key>, w: World): seq<Event>
    decreases |ks|
  {
    if ks == [] then [] else Trial(ks[0], w) + (if Passes(w, ks[0]) || !w.flags(ks[0]) then [] else Program(ks[1..], w))
  }

  /** One account: its mint, if it gets that far, and either the switch to it or the flag. */
  function Trial(k: Key, w: World): seq<Event> {
    (if w.preflight(k).Some? || w.mint(k).Some? then [] else [Minted(k)] + Update(Activate(k), w.commits(k)))
    + (if Passes(w, k) then [] else Update(Flag(k), w.flags(k)))
  }

  function RoundProgram(reg: Registry, w: World): seq<Event> {
    Update(FlagActive, reg.active.Some? && w.flags(reg.active.value))
    + Program(Candidates(FlagActiveIn(reg, w), reg.order), w)
  }

  /** The recovery's own part of a schedule. */
  function Own(es: seq<Event>): seq<Event> {
    if es == [] then [] else (if OfClears(es[0]) then [] else [es[0]]) + Own(es[1..])
  }

  /** `es` interleaves a round with clears. */
  predicate IsSchedule(reg: Registry, w: World, es: seq<Event>) {
    Own(es) == RoundProgram(reg, w)
  }

  // ----- what holds of a schedule holds of the round's own part -----

  lemma {:induction false} OwnReplay(reg: Registry, reading: bool, es: seq<Event>)
    ensures Replay(reg, reading, es) == Replay(reg, reading, Own(es))
    decreases |es|
  {
    if es != [] {
      var rest := Own(es[1..]);
      if OfClears(es[0]) {
        OwnReplay(reg, reading, es[1..]);
        assert Own(es) == rest;
      } else {
        assert Own(es) == [es[0]] + rest && ([es[0]] + rest)[1..] == rest;
        var next := if es[0].Writes? && reading then Apply(reg, es[0].op) else reg;
        OwnReplay(next, if OfUpdates(es[0]) then es[0].Reads? else reading, es[1..]);
      }
    }
  }

  lemma {:induction false} OwnProper(reading: bool, es: seq<Event>)
    ensures Proper(reading, es) <==> Proper(reading, Own(es))
    decreases |es|
  {
    if es != [] {
      var rest := Own(es[1..]);
      if OfClears(es[0]) {
        OwnProper(reading, es[1..]);
        assert Own(es) == rest;
      } else {
        assert Own(es) == [es[0]] + rest && ([es[0]] + rest)[1..] == rest;
        OwnProper(if OfUpdates(es[0]) then es[0].Reads? else reading, es[1..]);
      }
    }
  }

  lemma {:induction false} OwnUpdates(es: seq<Event>)
    ensures NoUpdates(es) <==> NoUpdates(Own(es))
    decreases |es|
  {
    if es != [] {
      OwnUpdates(es[1..]);
      assert forall e :: e in es <==> e == es[0] || e in es[1..];
      assert forall e :: e in Own(es) <==> (e == es[0] && !OfClears(e)) || e in Own(es[1..]);
    }
  }

  lemma {:induction false} OwnSwitches(es: seq<Event>, winner: Key, degraded: Key)
    ensures SwitchesTo(es, winner, degraded) <==> SwitchesTo(Own(es), winner, degraded)
    decreases |es|
  {
    if es != [] {
      var rest := Own(es[1..]);
      OwnSwitches(es[1..], winner, degraded);
      OwnUpdates(es[1..]);
      if OfClears(es[0]) {
        assert Own(es) == rest;
      } else {
        assert Own(es) == [es[0]] + rest && ([es[0]] + rest)[1..] == rest;
      }
    }
  }

  /** Whether the last update is still between its read and its write. */
  function EndsReading(reading: bool, es: seq<Event>): bool
    decreases |es|
  {
    if es == [] then reading
    else EndsReading(if OfUpdates(es[0]) then es[0].Reads? else reading, es[1..])
  }

  lemma {:induction false} OwnEndsReading(s: Store, es: seq<Event>)
    ensures Run(s, es).read.Some? == EndsReading(s.read.Some?, Own(es))
    decreases |es|
  {
    if es != [] {
      var rest := Own(es[1..]);
      OwnEndsReading(Step(s, es[0]), es[1..]);
      if OfClears(es[0]) {
        assert Own(es) == rest;
      } else {
        assert Own(es) == [es[0]] + rest && ([es[0]] + rest)[1..] == rest;
      }
    }
  }

  // ----- the program, update by update -----

  lemma UpdateFirst(op: Op, works: bool, rest: seq<Event>)
    ensures var es := Update(op, works) + rest;
            es[0] == Reads && es[1..][0] == (if works then Writes(op) else WriteFails) && es[1..][1..] == rest
  {
  }

  lemma AfterUpdate(reg: Registry, op: Op, works: bool, rest: seq<Event>)
    ensures var es := Update(op, works) + rest;
            && Replay(reg, false, es) == Replay(if works then Apply(reg, op) else reg, false, rest)
            && (Proper(false, es) <==> Proper(false, rest))
            && EndsReading(false, es) == EndsReading(false, rest)
  {
    UpdateFirst(op, works, rest);
  }

  lemma AfterMint(reg: Registry, k: Key, rest: seq<Event>)
    ensures var es := [Minted(k)] + rest;
            && Replay(reg, false, es) == Replay(reg, false, rest)
            && (Proper(false, es) <==> Proper(false, rest))
            && EndsReading(false, es) == EndsReading(false, rest)
  {
    assert ([Minted(k)] + rest)[1..] == rest;
  }

  /** What one trial does, whatever comes after it. */
  function Tried(reg: Registry, k: Key, w: World): Registry {
    if Passes(w, k) then ActivateAndClear(reg, k) else if w.flags(k) then MarkNeedsReauth(reg, k) else reg
  }

  lemma AfterTrial(reg: Registry, k: Key, w: World, rest: seq<Event>)
    ensures var es := Trial(k, w) + rest;
            && Replay(reg, false, es) == Replay(Tried(reg, k, w), false, rest)
            && (Proper(false, es) <==> Proper(false, rest))
            && EndsReading(false, es) == EndsReading(false, rest)
  {
    hide Replay, Proper, EndsReading, Program;
    var flag := if Passes(w, k) then [] else Update(Flag(k), w.flags(k));
    if Passes(w, k) {
      assert flag + rest == rest;
    } else {
      AfterUpdate(reg, Flag(k), w.flags(k), rest);
    }
    if w.preflight(k).Some? || w.mint(k).Some? {
      assert Trial(k, w) + rest == flag + rest;
    } else {
      var switch := Update(Activate(k), w.commits(k));
      assert Trial(k, w) + rest == [Minted(k)] + (switch + (flag + rest));
      AfterUpdate(reg, Activate(k), w.commits(k), flag + rest);
      AfterMint(reg, k, switch + (flag + rest));
    }
  }

  /** Undisturbed, the program does to the registry what the sweep is specified to do. */
  lemma {:induction false} ProgramReplays(reg: Registry, ks: seq<Key>, w: World)
    ensures Replay(reg, false, Program(ks, w)) == SweepFrom(ks, reg, w).reg
    ensures Proper(false, Program(ks, w)) && !EndsReading(false, Program(ks, w))
    decreases |ks|
  {
    if ks != [] {
      var rest := if Passes(w, ks[0]) || !w.flags(ks[0]) then [] else Program(ks[1..], w);
      AfterTrial(reg, ks[0], w, rest);
      if rest != [] || (!Passes(w, ks[0]) && w.flags(ks[0])) {
        ProgramReplays(Tried(reg, ks[0], w), ks[1..], w);
      }
    }
  }

  lemma SwitchAfterUpdate(op: Op, works: bool, rest: seq<Event>, winner: Key, degraded: Key)
    requires works ==> op.Flag? && op.key != degraded
    ensures SwitchesTo(Update(op, works) + rest, winner, degraded) <==> SwitchesTo(rest, winner, degraded)
  {
    UpdateFirst(op, works, rest);
  }

  lemma SwitchAfterFailedTrial(k: Key, w: World, rest: seq<Event>, winner: Key, degraded: Key)
    requires !Passes(w, k) && k != degraded
    ensures SwitchesTo(Trial(k, w) + rest, winner, degraded) <==> SwitchesTo(rest, winner, degraded)
  {
    var flag := Update(Flag(k), w.flags(k));
    SwitchAfterUpdate(Flag(k), w.flags(k), rest, winner, degraded);
    if w.preflight(k).Some? || w.mint(k).Some? {
      assert Trial(k, w) + rest == flag + rest;
    } else {
      var switch := Update(Activate(k), false);
      assert Trial(k, w) + rest == [Minted(k)] + (switch + (flag + rest));
      assert ([Minted(k)] + (switch + (flag + rest)))[1..] == switch + (flag + rest);
      SwitchAfterUpdate(Activate(k), false, flag + rest, winner, degraded);
    }
  }

  lemma WinningTrial(k: Key, w: World, degraded: Key)
    requires Passes(w, k)
    ensures SwitchesTo(Trial(k, w), k, degraded)
  {
    var switch := Update(Activate(k), true);
    assert Trial(k, w) == [Minted(k)] + switch && ([Minted(k)] + switch)[1..] == switch;
    assert switch[1..] == [Writes(Activate(k))] && switch[1..][1..] == [];
  }

  lemma {:induction false} ProgramSwitches(reg: Registry, ks: seq<Key>, w: World, degraded: Key)
    requires SweepFrom(ks, reg, w).Recovered? && degraded !in ks
    ensures SwitchesTo(Program(ks, w), SweepFrom(ks, reg, w).key, degraded) && SweepFrom(ks, reg, w).key in ks
    decreases |ks|
  {
    if Passes(w, ks[0]) {
      WinningTrial(ks[0], w, degraded);
      assert Program(ks, w) == Trial(ks[0], w);
    } else {
      var next := MarkNeedsReauth(reg, ks[0]);
      ProgramSwitches(next, ks[1..], w, degraded);
      SwitchAfterFailedTrial(ks[0], w, Program(ks[1..], w), SweepFrom(ks[1..], next, w).key, degraded);
    }
  }

  // ----- before the first mint there is no clear -----

  lemma {:induction false} FirstOwn(s: Store, es: seq<Event>, e: Event, rest: seq<Event>) returns (tail: seq<Event>)
    requires s.clears == [] && Own(es) == [e] + rest
    ensures Own(tail) == rest && Run(s, es) == Run(Step(s, e), tail)
    ensures Sheltered(s, es) <==> Sheltered(Step(s, e), tail)
    decreases |es|
  {
    var later := Own(es[1..]);
    if OfClears(es[0]) {
      assert Own(es) == later;
      tail := FirstOwn(s, es[1..], e, rest);
    } else {
      assert Own(es) == [es[0]] + later;
      assert ([es[0]] + later)[0] == ([e] + rest)[0] && ([es[0]] + later)[1..] == ([e] + rest)[1..];
      tail := es[1..];
    }
  }

  /** The degrade's own flag comes first, with no clear about. */
  lemma FlagFirst(reg: Registry, w: World, es: seq<Event>) returns (tail: seq<Event>)
    requires IsSchedule(reg, w, es)
    ensures var flagged := FlagActiveIn(reg, w);
            && Own(tail) == Program(Candidates(flagged, reg.order), w)
            && Run(Start(reg), es) == Run(Start(flagged), tail)
            && (Sheltered(Start(reg), es) <==> Sheltered(Start(flagged), tail))
  {
    var works := reg.active.Some? && w.flags(reg.active.value);
    var write := if works then Writes(FlagActive) else WriteFails;
    var rest := Program(Candidates(FlagActiveIn(reg, w), reg.order), w);
    assert RoundProgram(reg, w) == [Reads] + ([write] + rest);
    tail := FirstOwn(Start(reg), es, Reads, [write] + rest);
    tail := FirstOwn(Step(Start(reg), Reads), tail, write, rest);
    assert Step(Step(Start(reg), Reads), write) == Start(FlagActiveIn(reg, w));
  }

  // ----- what a round settles -----

  /** Sheltered, a round does what it would do undisturbed, whether or not it finds an account. */
  lemma ShelteredRound(reg: Registry, w: World, es: seq<Event>)
    requires IsSchedule(reg, w, es) && Sheltered(Start(reg), es)
    ensures Run(Start(reg), es).disk == Round(reg, w).reg
  {
    var flagged := FlagActiveIn(reg, w);
    var ks := Candidates(flagged, reg.order);
    var tail := FlagFirst(reg, w, es);
    ProgramReplays(flagged, ks, w);
    OwnReplay(flagged, false, tail);
    OwnEndsReading(Start(flagged), tail);
    ShelteredIsReplay(Start(flagged), flagged, tail);
  }

  /**
   For every registry and every schedule of a round that finds another account: the degraded account
   ends up flagged and the pointer on the account found if and only if it was flagged at the start, by
   this degrade or an earlier one, and every clear that landed was sheltered.
   */
  lemma RoundSettlesExactlyWhen(reg: Registry, w: World, es: seq<Event>)
    requires reg.Valid() && reg.active.Some? && reg.active.value in reg.accounts
    requires Round(reg, w).Recovered? && IsSchedule(reg, w, es)
    ensures var t, degraded := Run(Start(reg), es).disk, reg.active.value;
            t.active == Some(Round(reg, w).key) && IsFlagged(t, degraded) <==>
            IsFlagged(FlagActiveIn(reg, w), degraded) && Sheltered(Start(reg), es)
    ensures Sheltered(Start(reg), es) ==> Run(Start(reg), es).disk == Round(reg, w).reg
  {
    var flagged, degraded := FlagActiveIn(reg, w), reg.active.value;
    var ks := Candidates(flagged, reg.order);
    assert degraded !in ks;
    var tail := FlagFirst(reg, w, es);
    ProgramSwitches(flagged, ks, w, degraded);
    var winner := Round(reg, w).key;
    assert winner in flagged.accounts && winner != degraded;
    ProgramReplays(flagged, ks, w);
    OwnSwitches(tail, winner, degraded);
    OwnProper(false, tail);
    OwnEndsReading(Start(flagged), tail);
    SwitchSettlesExactlyWhen(Start(flagged), winner, degraded, tail);
    if Sheltered(Start(reg), es) {
      ShelteredRound(reg, w, es);
    }
  }

  // ----- rounds in a row -----

  /** One round: what the services do, and how it interleaves with the clears. */
  datatype Episode = Episode(w: World, es: seq<Event>)

  function After(reg: Registry, ep: Episode): Registry {
    Run(Start(reg), ep.es).disk
  }

  /** Consecutive rounds, each finding another account. */
  predicate KeepsRecovering(reg: Registry, eps: seq<Episode>)
    decreases |eps|
  {
    eps == [] ||
    (&& Round(reg, eps[0].w).Recovered? && IsSchedule(reg, eps[0].w, eps[0].es)
     && KeepsRecovering(After(reg, eps[0]), eps[1..]))
  }

  /** Every flag is written, and every clear that lands is sheltered. */
  ghost predicate Undisturbed(reg: Registry, eps: seq<Episode>)
    decreases |eps|
  {
    eps == [] ||
    (&& (forall k :: eps[0].w.flags(k)) && Sheltered(Start(reg), eps[0].es)
     && Undisturbed(After(reg, eps[0]), eps[1..]))
  }

  predicate ActiveIsGood(reg: Registry) {
    reg.active.Some? && reg.active.value in Unflagged(reg)
  }

  lemma SweepLandsOnGood(reg: Registry, w: World)
    requires reg.Valid() && (forall k :: w.flags(k)) && SweepOf(reg, w).Recovered?
    ensures SweepOf(reg, w).reg.Valid() && ActiveIsGood(SweepOf(reg, w).reg)
    ensures Unflagged(SweepOf(reg, w).reg) <= Unflagged(reg)
  {
    SweepMeans(reg, w);
    CandidatesAreDistinct(reg, reg.order);
    var ks := Candidates(reg, reg.order);
    var n := Rejects(ks, w);
    assert IsCandidate(reg, ks[n]) by {
      assert ks[n] in ks;
    }
    assert ks[n] !in ks[..n];
  }

  lemma FlaggedActive(reg: Registry, w: World)
    requires reg.Valid() && (forall k :: w.flags(k))
    ensures FlagActiveIn(reg, w).Valid()
    ensures Unflagged(FlagActiveIn(reg, w)) == Unflagged(reg) - (if reg.active.Some? then {reg.active.value} else {})
  {
  }

  /** An undisturbed round that finds another account strictly shrinks what is left to try. */
  lemma RoundShrinks(reg: Registry, ep: Episode)
    requires reg.Valid() && Round(reg, ep.w).Recovered? && IsSchedule(reg, ep.w, ep.es) && Undisturbed(reg, [ep])
    ensures After(reg, ep).Valid() && ActiveIsGood(After(reg, ep))
    ensures Unflagged(After(reg, ep)) <= Unflagged(reg)
    ensures reg.active.Some? ==> reg.active.value !in Unflagged(After(reg, ep))
    ensures ActiveIsGood(reg) ==> Unflagged(After(reg, ep)) < Unflagged(reg)
  {
    FlaggedActive(reg, ep.w);
    SweepLandsOnGood(FlagActiveIn(reg, ep.w), ep.w);
    ShelteredRound(reg, ep.w, ep.es);
  }

  /**
   Undisturbed automatic switching ends within as many rounds as there are unflagged accounts, and one
   fewer once the active one is good.
   */
  lemma {:induction false} RecoveryTerminates(reg: Registry, eps: seq<Episode>)
    requires reg.Valid() && KeepsRecovering(reg, eps) && Undisturbed(reg, eps)
    ensures |eps| <= |Unflagged(reg)|
    ensures ActiveIsGood(reg) ==> |eps| < |Unflagged(reg)|
    decreases |eps|
  {
    if eps == [] {
      if ActiveIsGood(reg) {
        assert Unflagged(reg) != {};
      }
    } else {
      RoundShrinks(reg, eps[0]);
      var next := After(reg, eps[0]);
      RecoveryTerminates(next, eps[1..]);
      SubsetIsSmaller(Unflagged(next), Unflagged(reg));
    }
  }

  lemma {:induction false} SubsetIsSmaller(a: set<Key>, b: set<Key>)
    requires a <= b
    ensures |a| <= |b|
    ensures a < b ==> |a| < |b|
  {
    assert b == a + (b - a);
    if a < b {
      assert b - a != {};
    }
  }

  /** An account flagged by an undisturbed round is never switched onto by a later one. */
  lemma {:induction false} NoPingPong(reg: Registry, eps: seq<Episode>, k: Key)
    requires reg.Valid() && KeepsRecovering(reg, eps) && Undisturbed(reg, eps)
    requires k !in Unflagged(reg) && eps != []
    ensures LastActive(reg, eps) != Some(k)
    decreases |eps|
  {
    RoundShrinks(reg, eps[0]);
    if |eps| > 1 {
      NoPingPong(After(reg, eps[0]), eps[1..], k);
    }
  }

  function LastActive(reg: Registry, eps: seq<Episode>): Option<Key>
    decreases |eps|
  {
    if eps == [] then reg.active else LastActive(After(reg, eps[0]), eps[1..])
  }

  // ----- disturbed, two accounts can be swapped for ever -----

  /** Two working accounts, one of them active and neither flagged. */
  predicate TwoGood(reg: Registry, a: Key, b: Key) {
    && a != b && reg.order == [a, b] && reg.accounts.Keys == {a, b}
    && !IsFlagged(reg, a) && !IsFlagged(reg, b) && (reg.active == Some(a) || reg.active == Some(b))
  }

  function TheOther(reg: Registry, a: Key, b: Key): Key {
    if reg.active == Some(a) then b else a
  }

  /** Every service call works, and so does every write but, perhaps, the flags. */
  ghost predicate AllWork(w: World, flags: bool) {
    forall k :: Passes(w, k) && w.flags(k) == flags
  }

  /** The mint's clear lands before the switch reads, which is the schedule `racing`; or nothing clears. */
  function Swap(reg: Registry, other: Key, flags: bool, racing: bool): seq<Event> {
    Update(FlagActive, flags) + ([Minted(other)] + ((if racing then [ClearReads(0), ClearWrites(0)] else [])
    + Update(Activate(other), true)))
  }

  lemma OnlyTheOther(reg: Registry, w: World, a: Key, b: Key, flags: bool)
    requires TwoGood(reg, a, b) && AllWork(w, flags)
    ensures Candidates(FlagActiveIn(reg, w), reg.order) == [TheOther(reg, a, b)]
  {
    var flagged, other := FlagActiveIn(reg, w), TheOther(reg, a, b);
    var last: seq<Key> := [b];
    assert reg.order[1..] == last && last[1..] == [];
    assert Candidates(flagged, []) == [];
    assert Candidates(flagged, last) == if other == b then [b] else [];
  }

  lemma OwnOfSwap(reg: Registry, w: World, a: Key, b: Key, flags: bool, racing: bool)
    requires TwoGood(reg, a, b) && AllWork(w, flags)
    ensures IsSchedule(reg, w, Swap(reg, TheOther(reg, a, b), flags, racing))
    ensures Round(reg, w).Recovered?
  {
    var other := TheOther(reg, a, b);
    OnlyTheOther(reg, w, a, b, flags);
    var switch := Update(Activate(other), true);
    assert Trial(other, w) == [Minted(other)] + switch;
    assert Program([other], w) == Trial(other, w);
    OwnOfMain(switch);
    var clears := if racing then [ClearReads(0), ClearWrites(0)] else [];
    OwnOfClears(clears, switch);
    OwnCons(Minted(other), clears + switch);
    OwnOfUpdate(FlagActive, flags, [Minted(other)] + (clears + switch));
  }

  lemma OwnCons(e: Event, es: seq<Event>)
    ensures Own([e] + es) == if OfClears(e) then Own(es) else [e] + Own(es)
  {
    assert ([e] + es)[1..] == es;
    assert [] + Own(es) == Own(es);
  }

  lemma OwnOfMain(switch: seq<Event>)
    requires |switch| == 2 && !OfClears(switch[0]) && !OfClears(switch[1])
    ensures Own(switch) == switch
  {
    assert switch == [switch[0]] + ([switch[1]] + []);
    OwnCons(switch[1], []);
    OwnCons(switch[0], [switch[1]] + []);
  }

  lemma OwnOfClears(clears: seq<Event>, es: seq<Event>)
    requires |clears| == 0 || (|clears| == 2 && OfClears(clears[0]) && OfClears(clears[1]))
    ensures Own(clears + es) == Own(es)
  {
    if clears == [] {
      assert clears + es == es;
    } else {
      OwnCons(clears[1], es);
      OwnCons(clears[0], [clears[1]] + es);
      assert clears + es == [clears[0]] + ([clears[1]] + es);
    }
  }

  lemma OwnOfUpdate(op: Op, works: bool, es: seq<Event>)
    ensures Own(Update(op, works) + es) == Update(op, works) + Own(es)
  {
    var write := if works then Writes(op) else WriteFails;
    OwnCons(write, es);
    OwnCons(Reads, [write] + es);
    assert Update(op, works) + es == [Reads] + ([write] + es);
  }

  lemma RunCons(s: Store, e: Event, es: seq<Event>)
    ensures Run(s, [e] + es) == Run(Step(s, e), es)
  {
    assert ([e] + es)[1..] == es;
  }

  lemma RunUpdate(s: Store, op: Op, works: bool, es: seq<Event>)
    requires s.read.None?
    ensures Run(s, Update(op, works) + es) == Run(if works then s.(disk := Apply(s.disk, op)) else s, es)
  {
    var write := if works then Writes(op) else WriteFails;
    assert Update(op, works) + es == [Reads] + ([write] + es);
    RunCons(s, Reads, [write] + es);
    RunCons(Step(s, Reads), write, es);
  }

  lemma RunClear(s: Store, es: seq<Event>)
    requires s.clears == [Due]
    ensures Run(s, [ClearReads(0), ClearWrites(0)] + es) == Run(Store(Cleared(s.disk), s.read, [Done]), es)
  {
    assert [ClearReads(0), ClearWrites(0)] + es == [ClearReads(0)] + ([ClearWrites(0)] + es);
    RunCons(s, ClearReads(0), [ClearWrites(0)] + es);
    var t := Step(s, ClearReads(0));
    RunCons(t, ClearWrites(0), es);
    assert t.clears == [if Cleared(s.disk) == s.disk then Done else Holding(s.disk)];
    assert Step(t, ClearWrites(0)) == Store(Cleared(s.disk), s.read, [Done]);
  }

  lemma UnflagOfFlag(reg: Registry, k: Key)
    requires reg.active == Some(k) && k in reg.accounts && !IsFlagged(reg, k)
    ensures Cleared(Apply(reg, FlagActive)) == reg
  {
    assert reg.accounts[k := reg.accounts[k].(needsReauth := true)][k := reg.accounts[k]] == reg.accounts;
  }

  lemma RunOfSwap(reg: Registry, other: Key, flags: bool)
    requires reg.active.Some? && reg.active.value in reg.accounts && !IsFlagged(reg, reg.active.value)
    ensures Run(Start(reg), Swap(reg, other, flags, flags)).disk == ActivateAndClear(reg, other)
  {
    var switch := Update(Activate(other), true);
    var clears := if flags then [ClearReads(0), ClearWrites(0)] else [];
    RunUpdate(Start(reg), FlagActive, flags, [Minted(other)] + (clears + switch));
    var s := if flags then Start(Apply(reg, FlagActive)) else Start(reg);
    RunCons(s, Minted(other), clears + switch);
    var t := Step(s, Minted(other));
    if flags {
      UnflagOfFlag(reg, reg.active.value);
      RunClear(t, switch);
      RunUpdate(Store(reg, None, [Done]), Activate(other), true, []);
    } else {
      assert clears + switch == switch;
      RunUpdate(t, Activate(other), true, []);
    }
    assert switch + [] == switch;
  }

  /** The rounds of such a run, each undone in one way or the other. */
  function Swaps(reg: Registry, w: World, a: Key, b: Key, flags: bool, n: nat): seq<Episode>
    decreases n
  {
    if n == 0 then []
    else
      var other := TheOther(reg, a, b);
      [Episode(w, Swap(reg, other, flags, flags))] + Swaps(ActivateAndClear(reg, other), w, a, b, flags, n - 1)
  }

  /**
   Why flags must be written, and clears sheltered. If flags are lost, or if every flag is written and
   the mint's own clear lands before the switch reads, two working accounts are swapped for ever.
   */
  lemma {:induction false} DisturbedPingPong(a: Key, b: Key, reg: Registry, w: World, flags: bool, n: nat)
    requires TwoGood(reg, a, b) && AllWork(w, flags)
    ensures KeepsRecovering(reg, Swaps(reg, w, a, b, flags, n)) && |Swaps(reg, w, a, b, flags, n)| == n
    decreases n
  {
    hide Round, Swap, Run, Own, RoundProgram;
    if n > 0 {
      var other := TheOther(reg, a, b);
      var first := Episode(w, Swap(reg, other, flags, flags));
      var next := ActivateAndClear(reg, other);
      var rest := Swaps(next, w, a, b, flags, n - 1);
      OwnOfSwap(reg, w, a, b, flags, flags);
      RunOfSwap(reg, other, flags);
      DisturbedPingPong(a, b, next, w, flags, n - 1);
      assert ([first] + rest)[1..] == rest;
    }
  }

  /** A mint's clear that reads before the switch and lands after it: the failing account is active again. */
  lemma PointerComesBack(reg: Registry, winner: Key, degraded: Key)
    requires reg.active == Some(degraded) && degraded in reg.accounts && winner in reg.accounts
    ensures var es := Update(FlagActive, true)
                      + ([Minted(winner), ClearReads(0)] + (Update(Activate(winner), true) + [ClearWrites(0)]));
            var t := Run(Start(reg), es).disk;
            t.active == Some(degraded) && !IsFlagged(t, degraded)
  {
    var switch := Update(Activate(winner), true);
    RunUpdate(Start(reg), FlagActive, true, [Minted(winner), ClearReads(0)] + (switch + [ClearWrites(0)]));
    var s := Start(Apply(reg, FlagActive));
    assert [Minted(winner), ClearReads(0)] + (switch + [ClearWrites(0)])
           == [Minted(winner)] + ([ClearReads(0)] + (switch + [ClearWrites(0)]));
    RunCons(s, Minted(winner), [ClearReads(0)] + (switch + [ClearWrites(0)]));
    var t := Step(s, Minted(winner));
    RunCons(t, ClearReads(0), switch + [ClearWrites(0)]);
    var u := Step(t, ClearReads(0));
    FlagShows(reg, degraded);
    assert u.clears == [Holding(s.disk)];
    RunUpdate(u, Activate(winner), true, [ClearWrites(0)]);
    RunCons(u.(disk := Apply(u.disk, Activate(winner))), ClearWrites(0), []);
    assert [ClearWrites(0)] + [] == [ClearWrites(0)];
  }

  lemma FlagShows(reg: Registry, k: Key)
    requires reg.active == Some(k) && k in reg.accounts
    ensures Cleared(Apply(reg, FlagActive)) != Apply(reg, FlagActive)
  {
    assert Apply(reg, FlagActive).accounts[k].needsReauth && !Cleared(Apply(reg, FlagActive)).accounts[k].needsReauth;
  }
}
