/**
 Unlocked updates of the account registry. Every update reads the file and later writes it back.
 The recovery's own updates follow one another, but each accepted mint also starts one that nobody
 waits for, which clears the flag of whoever is active; its read and its write fall anywhere.
 */
module RegistryRaces {
  import opened AuthRecovery
  import opened Options

  /** What the recovery writes. */
  datatype Op = FlagActive | Flag(key: Key) | Activate(key: Key)

  /** A flag-clear that nobody waits for: still to read, holding what it read, or over. */
  datatype Clear = Due | Holding(read: Registry) | Done

  /** `read` is what the recovery's update under way has read. */
  datatype Store = Store(disk: Registry, read: Option<Registry>, clears: seq<Clear>)

  datatype Event =
    | Reads
    | Writes(op: Op)
    | WriteFails
    | Minted(key: Key)
    | ClearReads(clear: nat)
    | ClearWrites(clear: nat)
    | ClearFails(clear: nat)

  function Apply(reg: Registry, op: Op): Registry {
    match op
    case FlagActive => if reg.active.Some? then MarkNeedsReauth(reg, reg.active.value) else reg
    case Flag(k) => MarkNeedsReauth(reg, k)
    case Activate(k) => ActivateAndClear(reg, k)
  }

  /** The active account's flag is cleared; nothing is written when that changes nothing. */
  function Cleared(reg: Registry): Registry {
    if reg.active.Some? && reg.active.value in reg.accounts
    then reg.(accounts := reg.accounts[reg.active.value := reg.accounts[reg.active.value].(needsReauth := false)])
    else reg
  }

  /** What the updates do to the flags and to the pointer, and that they do nothing else. */
  lemma UpdatesMean(reg: Registry, op: Op)
    ensures SameCredentials(Apply(reg, op), reg) && SameCredentials(Cleared(reg), reg)
    ensures op.FlagActive? ==>
              && Apply(reg, op).active == reg.active
              && Unflagged(Apply(reg, op)) == Unflagged(reg) - (if reg.active.Some? then {reg.active.value} else {})
    ensures op.Flag? ==>
              && Apply(reg, op).active == reg.active && Unflagged(Apply(reg, op)) == Unflagged(reg) - {op.key}
    ensures op.Activate? && op.key in reg.accounts ==>
              && Apply(reg, op).active == Some(op.key)
              && Unflagged(Apply(reg, op)) == Unflagged(reg) + {op.key}
    ensures Cleared(reg).active == reg.active
    ensures reg.active.Some? && reg.active.value in reg.accounts ==>
              Unflagged(Cleared(reg)) == Unflagged(reg) + {reg.active.value}
  {
  }

  function WithClear(s: Store, i: nat, c: Clear): Store
    requires i < |s.clears|
  {
    s.(clears := s.clears[i := c])
  }

  /** An event that cannot happen now changes nothing. */
  function Step(s: Store, e: Event): Store {
    match e
    case Reads => s.(read := Some(s.disk))
    case Writes(op) => if s.read.Some? then s.(disk := Apply(s.read.value, op), read := None) else s
    case WriteFails => s.(read := None)
    case Minted(_) => s.(clears := s.clears + [Due])
    case ClearReads(i) =>
      if i < |s.clears| && s.clears[i].Due?
      then WithClear(s, i, if Cleared(s.disk) == s.disk then Done else Holding(s.disk)) else s
    case ClearWrites(i) =>
      if i < |s.clears| && s.clears[i].Holding?
      then WithClear(s, i, Done).(disk := Cleared(s.clears[i].read)) else s
    case ClearFails(i) => if i < |s.clears| then WithClear(s, i, Done) else s
  }

  function Run(s: Store, es: seq<Event>): Store
    decreases |es|
  {
    if es == [] then s else Run(Step(s, es[0]), es[1..])
  }

  function Start(reg: Registry): Store {
    Store(reg, None, [])
  }

  // ----- shelter -----

  predicate OfClears(e: Event) {
    e.ClearReads? || e.ClearWrites? || e.ClearFails?
  }

  predicate OfUpdates(e: Event) {
    e.Reads? || e.Writes? || e.WriteFails?
  }

  /** The recovery's next registry access is a write that works. */
  predicate WriteIsNext(es: seq<Event>)
    decreases |es|
  {
    es != [] && (es[0].Writes? || (!OfUpdates(es[0]) && WriteIsNext(es[1..])))
  }

  predicate Lands(s: Store, e: Event) {
    e.ClearWrites? && e.clear < |s.clears| && s.clears[e.clear].Holding?
  }

  /** Every clear that lands does so between a read and the write that follows it, which overwrites it. */
  predicate Sheltered(s: Store, es: seq<Event>)
    decreases |es|
  {
    es == [] || ((Lands(s, es[0]) ==> s.read.Some? && WriteIsNext(es[1..])) && Sheltered(Step(s, es[0]), es[1..]))
  }

  // ----- sheltered, it is as if there were no clears -----

  /** The registry as the recovery's updates alone make it. */
  function Replay(reg: Registry, reading: bool, es: seq<Event>): Registry
    decreases |es|
  {
    if es == [] then reg
    else
      match es[0]
      case Reads => Replay(reg, true, es[1..])
      case Writes(op) => Replay(if reading then Apply(reg, op) else reg, false, es[1..])
      case WriteFails => Replay(reg, false, es[1..])
      case _ => Replay(reg, reading, es[1..])
  }

  /** The disk is what the updates made it, or is about to be overwritten by the one that read that. */
  predicate Follows(s: Store, base: Registry, es: seq<Event>) {
    if s.read.Some? then s.read.value == base && (s.disk == base || WriteIsNext(es)) else s.disk == base
  }

  /** For any run, however long and with any number of updates: sheltered clears leave no trace. */
  lemma {:induction false} ShelteredIsReplay(s: Store, base: Registry, es: seq<Event>)
    requires Follows(s, base, es) && Sheltered(s, es) && Run(s, es).read.None?
    ensures Run(s, es).disk == Replay(base, s.read.Some?, es)
    decreases |es|
  {
    if es != [] {
      var next := match es[0]
                  case Writes(op) => if s.read.Some? then Apply(base, op) else base
                  case _ => base;
      ShelteredIsReplay(Step(s, es[0]), next, es[1..]);
    }
  }

  // ----- and only sheltered -----

  predicate IsFlagged(reg: Registry, k: Key) {
    k in reg.accounts && reg.accounts[k].needsReauth
  }

  /** The account that was degraded shows no flag, on disk or in what is about to be written back. */
  predicate Tainted(s: Store, degraded: Key, es: seq<Event>) {
    && !IsFlagged(s.disk, degraded)
    && (s.read.Some? ==> !IsFlagged(s.read.value, degraded) || !WriteIsNext(es))
    && forall i :: 0 <= i < |s.clears| && s.clears[i].Holding? ==>
         s.clears[i].read.active == Some(degraded) || !IsFlagged(s.clears[i].read, degraded)
  }

  /** Nobody flags this account. */
  predicate NeverFlags(es: seq<Event>, degraded: Key) {
    forall e :: e in es && e.Writes? ==> e.op != Flag(degraded) && e.op != FlagActive
  }

  lemma TaintedStep(s: Store, degraded: Key, es: seq<Event>)
    requires es != [] && Tainted(s, degraded, es) && NeverFlags(es, degraded)
    ensures Tainted(Step(s, es[0]), degraded, es[1..])
  {
    assert es[0] in es;
  }

  lemma {:induction false} TaintedStays(s: Store, degraded: Key, es: seq<Event>)
    requires Tainted(s, degraded, es) && NeverFlags(es, degraded)
    ensures !IsFlagged(Run(s, es).disk, degraded)
    decreases |es|
  {
    if es != [] {
      TaintedStep(s, degraded, es);
      assert forall e :: e in es[1..] ==> e in es;
      TaintedStays(Step(s, es[0]), degraded, es[1..]);
    }
  }

  /** The degraded account is the active one in every version there is. */
  predicate StillActive(s: Store, degraded: Key) {
    && s.disk.active == Some(degraded)
    && (s.read.Some? ==> s.read.value.active == Some(degraded))
    && HoldersSawActive(s, degraded)
  }

  predicate HoldersSawActive(s: Store, degraded: Key) {
    forall i :: 0 <= i < |s.clears| && s.clears[i].Holding? ==> s.clears[i].read.active == Some(degraded)
  }

  /** Flags for others, and then one switch, to an account that is not the degraded one. */
  predicate SwitchesTo(es: seq<Event>, winner: Key, degraded: Key)
    decreases |es|
  {
    es != [] &&
    match es[0]
    case Writes(op) =>
      if op.Activate? then op.key == winner && NoUpdates(es[1..])
      else op.Flag? && op.key != degraded && SwitchesTo(es[1..], winner, degraded)
    case _ => SwitchesTo(es[1..], winner, degraded)
  }

  predicate NoUpdates(es: seq<Event>) {
    forall e :: e in es ==> !OfUpdates(e)
  }

  lemma {:induction false} SwitchNeverFlags(es: seq<Event>, winner: Key, degraded: Key)
    requires SwitchesTo(es, winner, degraded)
    ensures NeverFlags(es, degraded)
    decreases |es|
  {
    if es[0].Writes? && es[0].op.Activate? {
      assert forall e :: e in es ==> e == es[0] || e in es[1..];
    } else {
      SwitchNeverFlags(es[1..], winner, degraded);
      assert forall e :: e in es ==> e == es[0] || e in es[1..];
    }
  }

  lemma {:induction false} NoUpdatesNoWrite(es: seq<Event>)
    requires NoUpdates(es)
    ensures !WriteIsNext(es)
    decreases |es|
  {
    if es != [] {
      assert es[0] in es && forall e :: e in es[1..] ==> e in es;
      NoUpdatesNoWrite(es[1..]);
    }
  }

  /** A clear that lands in the open takes the flag off for good. */
  lemma OpenLandingTaints(s: Store, degraded: Key, es: seq<Event>)
    requires es != [] && Lands(s, es[0]) && !(s.read.Some? && WriteIsNext(es[1..]))
    requires HoldersSawActive(s, degraded)
    ensures Tainted(Step(s, es[0]), degraded, es[1..])
  {
  }

  /** After the switch: what read before it and lands now takes the pointer back as well. */
  lemma {:induction false} AfterTheSwitch(s: Store, winner: Key, degraded: Key, es: seq<Event>)
    requires NoUpdates(es) && s.read.None? && HoldersSawActive(s, degraded)
    requires s.disk.active == Some(winner) && winner != degraded
    requires winner in s.disk.accounts && !IsFlagged(s.disk, winner)
    requires !Sheltered(s, es)
    ensures !IsFlagged(Run(s, es).disk, degraded)
    decreases |es|
  {
    assert es[0] in es && forall e :: e in es[1..] ==> e in es;
    NoUpdatesNoWrite(es[1..]);
    if Lands(s, es[0]) {
      OpenLandingTaints(s, degraded, es);
      assert NeverFlags(es[1..], degraded);
      TaintedStays(Step(s, es[0]), degraded, es[1..]);
    } else {
      NothingToClear(s.disk);
      AfterTheSwitch(Step(s, es[0]), winner, degraded, es[1..]);
    }
  }

  lemma NothingToClear(reg: Registry)
    requires reg.active.Some? && reg.active.value in reg.accounts && !IsFlagged(reg, reg.active.value)
    ensures Cleared(reg) == reg
  {
    assert reg.accounts[reg.active.value := reg.accounts[reg.active.value].(needsReauth := false)] == reg.accounts;
  }

  /** The same, from anywhere before the switch. */
  lemma {:induction false} OpenLandingUnflags(s: Store, winner: Key, degraded: Key, es: seq<Event>)
    requires SwitchesTo(es, winner, degraded) && Proper(s.read.Some?, es) && StillActive(s, degraded)
    requires winner != degraded && HasBoth(s, winner, degraded)
    requires !Sheltered(s, es)
    ensures !IsFlagged(Run(s, es).disk, degraded)
    decreases |es|
  {
    var t := Step(s, es[0]);
    if Lands(s, es[0]) && !(s.read.Some? && WriteIsNext(es[1..])) {
      OpenLandingTaints(s, degraded, es);
      SwitchNeverFlags(es, winner, degraded);
      assert forall e :: e in es[1..] ==> e in es;
      TaintedStays(t, degraded, es[1..]);
    } else if es[0].Writes? && es[0].op.Activate? {
      AfterTheSwitch(t, winner, degraded, es[1..]);
    } else {
      OpenLandingUnflags(t, winner, degraded, es[1..]);
    }
  }

  /** Both accounts are in every version there is. */
  predicate HasBoth(s: Store, winner: Key, degraded: Key) {
    && winner in s.disk.accounts && degraded in s.disk.accounts
    && (s.read.Some? ==> winner in s.read.value.accounts && degraded in s.read.value.accounts)
    && forall i :: 0 <= i < |s.clears| && s.clears[i].Holding? ==>
         winner in s.clears[i].read.accounts && degraded in s.clears[i].read.accounts
  }

  /** Every write follows a read of its own. */
  predicate Proper(reading: bool, es: seq<Event>)
    decreases |es|
  {
    es == [] ||
    match es[0]
    case Reads => !reading && Proper(true, es[1..])
    case Writes(_) => reading && Proper(false, es[1..])
    case WriteFails => reading && Proper(false, es[1..])
    case _ => Proper(reading, es[1..])
  }

  lemma {:induction false} ReplayOfSwitch(reg: Registry, reading: bool, es: seq<Event>, winner: Key, degraded: Key)
    requires SwitchesTo(es, winner, degraded) && Proper(reading, es)
    requires winner in reg.accounts && winner != degraded
    ensures Replay(reg, reading, es).active == Some(winner)
    ensures IsFlagged(Replay(reg, reading, es), degraded) == IsFlagged(reg, degraded)
    decreases |es|
  {
    if es[0].Writes? && es[0].op.Activate? {
      ReplayOfNothing(Apply(reg, es[0].op), es[1..]);
    } else {
      var next := if es[0].Writes? then Apply(reg, es[0].op) else reg;
      var now := if OfUpdates(es[0]) then es[0].Reads? else reading;
      ReplayOfSwitch(next, now, es[1..], winner, degraded);
    }
  }

  lemma {:induction false} ReplayOfNothing(reg: Registry, es: seq<Event>)
    requires NoUpdates(es)
    ensures Replay(reg, false, es) == reg
    decreases |es|
  {
    if es != [] {
      assert es[0] in es && forall e :: e in es[1..] ==> e in es;
      ReplayOfNothing(reg, es[1..]);
    }
  }

  /**
   For every registry and every schedule of a switch away from a degraded account, at any moment after
   the switch: that account is flagged and the pointer is on the winner if and only if it was flagged
   to begin with and every clear that has landed was sheltered.
   */
  lemma SwitchSettlesExactlyWhen(s: Store, winner: Key, degraded: Key, es: seq<Event>)
    requires s.read.None? && StillActive(s, degraded) && HasBoth(s, winner, degraded) && winner != degraded
    requires SwitchesTo(es, winner, degraded) && Proper(false, es) && Run(s, es).read.None?
    ensures var t := Run(s, es).disk;
            t.active == Some(winner) && IsFlagged(t, degraded) <==> IsFlagged(s.disk, degraded) && Sheltered(s, es)
    ensures Sheltered(s, es) ==> Run(s, es).disk == Replay(s.disk, false, es)
  {
    if Sheltered(s, es) {
      ShelteredIsReplay(s, s.disk, es);
      ReplayOfSwitch(s.disk, false, es, winner, degraded);
    } else {
      OpenLandingUnflags(s, winner, degraded, es);
    }
  }
}
