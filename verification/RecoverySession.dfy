/**
 The recovery as it is written: each registry update is a read, an await and a write, and during
 every await the clears that accepted mints have started do whatever they get to.
 */
module RecoverySession {
  import opened AuthRecovery
  import opened Options
  import opened RecoveryRounds
  import opened RegistryRaces
  import opened Sequences

  datatype Activation = Activated | NoSuchAccount | Refused(message: string)

  class Session {
    /** What the clears do during the n-th await. */
    const script: nat -> seq<Event>
    var disk: Registry
    var clears: seq<Clear>
    var awaits: nat
    var githubToken: Option<string>
    var userName: Option<string>
    var signedInAs: Option<string>
    /** What the update under way holds in a local variable, and everything that has happened since `start`. */
    ghost var read: Option<Registry>
    ghost var history: seq<Event>
    ghost const start: Registry

    ghost function View(): Store
      reads this`disk, this`read, this`clears
    {
      Store(disk, read, clears)
    }

    ghost predicate Valid()
      reads this`disk, this`read, this`clears, this`history
    {
      && View() == Run(Start(start), history)
      && (forall n, e :: e in script(n) ==> OfClears(e))
    }

    constructor (reg: Registry, script: nat -> seq<Event>)
      requires forall n, e :: e in script(n) ==> OfClears(e)
      ensures Valid() && disk == start == reg && history == [] && read.None? && clears == []
      ensures this.script == script && githubToken.None? && userName.None? && signedInAs.None?
    {
      this.script := script;
      disk, clears, awaits := reg, [], 0;
      githubToken, userName, signedInAs := None, None, None;
      read, history, start := None, [], reg;
    }

    ghost method Record(before: Store, e: Event)
      requires before == Run(Start(start), history) && View() == Step(before, e)
      requires forall n, f :: f in script(n) ==> OfClears(f)
      modifies this`history
      ensures Valid() && history == old(history) + [e]
      ensures Own(history) == old(Own(history)) + if OfClears(e) then [] else [e]
    {
      RunSnoc(Start(start), history, e);
      OwnSnoc(history, e);
      history := history + [e];
    }

    /** One access of a clear. */
    method ClearAccess(e: Event)
      requires Valid() && OfClears(e)
      modifies this`disk, this`clears, this`history
      ensures Valid() && Own(history) == old(Own(history))
      ensures old(clears) == [] ==> disk == old(disk) && clears == []
    {
      ghost var before := View();
      var i := e.clear;
      if i < |clears| {
        match e {
          case ClearReads(_) =>
            if clears[i].Due? {
              clears := clears[i := if Cleared(disk) == disk then Done else Holding(disk)];
            }
          case ClearWrites(_) =>
            if clears[i].Holding? {
              disk := Cleared(clears[i].read);
              clears := clears[i := Done];
            }
          case ClearFails(_) => clears := clears[i := Done];
        }
      }
      Record(before, e);
    }

    method Await()
      requires Valid()
      modifies this`disk, this`clears, this`history, this`awaits
      ensures Valid() && Own(history) == old(Own(history))
      ensures old(clears) == [] ==> disk == old(disk) && clears == []
    {
      var es := script(awaits);
      awaits := awaits + 1;
      for k := 0 to |es|
        invariant Valid() && Own(history) == old(Own(history))
        invariant old(clears) == [] ==> disk == old(disk) && clears == []
      {
        assert es[k] in es;
        ClearAccess(es[k]);
      }
    }

    /** Read, then write: `readDefaultRegistry`, then `writeDefaultRegistry`. */
    method ReadModifyWrite(op: Op, works: bool)
      requires Valid() && read.None?
      modifies this`disk, this`clears, this`history, this`awaits, this`read
      ensures Valid() && read.None? && Own(history) == old(Own(history)) + Update(op, works)
      ensures old(clears) == [] ==> disk == (if works then Apply(old(disk), op) else old(disk)) && clears == []
    {
      hide Run, Own, Apply;
      Await();
      var reg := ReadRegistry();
      Await();
      WriteRegistry(reg, op, works);
      Reassociate(old(Own(history)), [Reads], [if works then Writes(op) else WriteFails]);
    }

    method ReadRegistry() returns (reg: Registry)
      requires Valid() && read.None?
      modifies this`history, this`read
      ensures Valid() && reg == disk && read == Some(reg) && Own(history) == old(Own(history)) + [Reads]
    {
      ghost var before := View();
      reg := disk;
      read := Some(reg);
      hide Run, Own;
      Record(before, Reads);
    }

    method WriteRegistry(reg: Registry, op: Op, works: bool)
      requires Valid() && read == Some(reg)
      modifies this`disk, this`history, this`read
      ensures Valid() && read.None? && disk == if works then Apply(reg, op) else old(disk)
      ensures Own(history) == old(Own(history)) + [if works then Writes(op) else WriteFails]
    {
      ghost var before := View();
      if works {
        disk := Apply(reg, op);
      }
      read := None;
      hide Run, Own, Apply;
      Record(before, if works then Writes(op) else WriteFails);
    }

    /** An accepted mint starts a clear, which nobody waits for. */
    method SetupCopilotToken(key: Key, w: World) returns (thrown: Option<string>)
      requires Valid() && read.None?
      modifies this`disk, this`clears, this`history, this`awaits
      ensures Valid() && thrown == w.mint(key)
      ensures Own(history) == old(Own(history)) + if thrown.Some? then [] else [Minted(key)]
    {
      Await();
      thrown := w.mint(key);
      if thrown.None? {
        ghost var before := View();
        clears := clears + [Due];
        Record(before, Minted(key));
      }
    }

    /** Point the session at `rec`, mint, and only then commit it. The reply is the error thrown. */
    method SwitchActiveAccountLive(key: Key, rec: Account, w: World) returns (thrown: Option<string>)
      requires Valid() && read.None?
      modifies this
      ensures Valid() && read.None?
      ensures Own(history) == old(Own(history)) + SwitchPart(key, w)
      ensures githubToken == Some(rec.token) && userName == Some(rec.login)
      ensures thrown.None? <==> w.mint(key).None? && w.commits(key)
      ensures signedInAs == if thrown.None? then Some(rec.login) else old(signedInAs)
    {
      githubToken := Some(rec.token);
      userName := Some(rec.login);
      thrown := SetupCopilotToken(key, w);
      if thrown.Some? {
        return;
      }
      ReadModifyWrite(Activate(key), w.commits(key));
      Reassociate(old(Own(history)), [Minted(key)], Update(Activate(key), w.commits(key)));
      if !w.commits(key) {
        thrown := Some("registry write failed");
        return;
      }
      signedInAs := Some(rec.login);
    }

    /** The user's own choice of account: preflight it, then switch. */
    method ActivateAccountLive(key: Key, w: World) returns (r: Activation, ghost seen: Registry)
      requires Valid() && read.None?
      modifies this
      ensures Valid() && read.None?
      ensures old(clears) == [] ==> seen == old(disk)
      ensures r.NoSuchAccount? <==> key !in seen.accounts
      ensures r.Activated? <==> key in seen.accounts && Passes(w, key)
      ensures Own(history) == old(Own(history)) +
              if key in seen.accounts && w.preflight(key).None? then SwitchPart(key, w) else []
      ensures r.Activated? ==> githubToken == Some(seen.accounts[key].token)
      ensures signedInAs == if r.Activated? then Some(seen.accounts[key].login) else old(signedInAs)
    {
      Await();
      var reg := disk;
      seen := reg;
      if key !in reg.accounts {
        return NoSuchAccount, seen;
      }
      var preErr := w.preflight(key);
      if preErr.Some? {
        return Refused(preErr.value), seen;
      }
      var thrown := SwitchActiveAccountLive(key, reg.accounts[key], w);
      r := if thrown.None? then Activated else Refused(thrown.value);
    }

    /** One candidate: whether it was switched to, and if not, whether its flag could be written. */
    method TryCandidate(cand: Key, rec: Account, w: World) returns (switched: bool, flagged: bool)
      requires Valid() && read.None?
      modifies this
      ensures Valid() && read.None? && Own(history) == old(Own(history)) + Trial(cand, w)
      ensures switched == Passes(w, cand) && flagged == w.flags(cand)
      ensures switched ==> githubToken == Some(rec.token) && signedInAs == Some(rec.login)
      ensures !switched ==> signedInAs == old(signedInAs)
    {
      flagged := w.flags(cand);
      switched := false;
      var preErr := w.preflight(cand);
      Await();
      TrialParts(cand, w);
      if preErr.None? {
        var thrown := SwitchActiveAccountLive(cand, rec, w);
        if thrown.None? {
          switched := true;
          return;
        }
        Reassociate(old(Own(history)), SwitchPart(cand, w), Update(Flag(cand), w.flags(cand)));
      }
      ReadModifyWrite(Flag(cand), w.flags(cand));
    }

    /** The sweep. `threw` is a registry write that failed while flagging a candidate. */
    method AttemptAutoRecovery(w: World) returns (recovered: bool, threw: bool, ghost seen: Registry)
      requires Valid() && read.None?
      modifies this
      ensures Valid() && read.None?
      ensures old(clears) == [] ==> seen == old(disk)
      ensures Own(history) == old(Own(history)) + Program(Candidates(seen, seen.order), w)
      ensures recovered == SweepOf(seen, w).Recovered? && threw == SweepOf(seen, w).Threw?
      ensures recovered ==>
                && SweepOf(seen, w).key in seen.accounts
                && var rec := seen.accounts[SweepOf(seen, w).key];
                   githubToken == Some(rec.token) && signedInAs == Some(rec.login)
      ensures !recovered ==> signedInAs == old(signedInAs)
      ensures !recovered && !threw ==> githubToken.None?
    {
      hide Program, SweepFrom, Trial, Run, Own;
      Await();
      var reg := disk;
      seen := reg;
      var candidates := Candidates(reg, reg.order);
      recovered, threw := false, false;
      ghost var own := Own(history);
      ghost var done: seq<Event> := [];
      ghost var at := reg;
      for i := 0 to |candidates|
        invariant Valid() && read.None? && Own(history) == own + done
        invariant Program(candidates, w) == done + Program(candidates[i..], w)
        invariant SweepSame(SweepFrom(candidates[i..], at, w), SweepOf(reg, w))
        invariant signedInAs == old(signedInAs)
      {
        var cand := candidates[i];
        assert cand in candidates;
        NextCandidate(candidates, at, w, i);
        Reassociate(own, done, Trial(cand, w));
        Reassociate(done, Trial(cand, w), Program(candidates[i + 1..], w));
        var switched, flagged := TryCandidate(cand, reg.accounts[cand], w);
        done := done + Trial(cand, w);
        if switched {
          recovered := true;
          NothingMore(done);
          return;
        }
        if !flagged {
          threw := true;
          NothingMore(done);
          return;
        }
        at := MarkNeedsReauth(at, cand);
      }
      NoCandidates(candidates, at, w);
      NothingMore(done);
      githubToken := None;
    }

    /** A degrade's flag, and then the sweep: a whole round, from a registry nothing else is updating. */
    method DegradeAndRecover(w: World) returns (recovered: bool)
      requires Valid() && history == [] && start.Valid()
      modifies this
      ensures Valid() && IsSchedule(start, w, history) && disk == After(start, Episode(w, history))
      ensures recovered == Round(start, w).Recovered?
      ensures recovered && start.active.Some? && start.active.value in start.accounts ==>
                (disk.active == Some(Round(start, w).key) && IsFlagged(disk, start.active.value) <==>
                 IsFlagged(FlagActiveIn(start, w), start.active.value) && Sheltered(Start(start), history))
    {
      var active := disk.active;
      ReadModifyWrite(FlagActive, active.Some? && w.flags(active.value));
      assert disk == FlagActiveIn(start, w);
      var threw;
      ghost var seen;
      recovered, threw, seen := AttemptAutoRecovery(w);
      assert Own(history) == [] + Update(FlagActive, active.Some? && w.flags(active.value))
                             + Program(Candidates(FlagActiveIn(start, w), start.order), w);
      WholeRound(start, w, history);
      if recovered && start.active.Some? && start.active.value in start.accounts {
        RoundSettlesExactlyWhen(start, w, history);
      }
    }
  }

  /** A switch is a mint, and, if it is accepted, an update. */
  function SwitchPart(k: Key, w: World): seq<Event> {
    if w.mint(k).Some? then [] else [Minted(k)] + Update(Activate(k), w.commits(k))
  }

  lemma TrialParts(k: Key, w: World)
    ensures Passes(w, k) ==> Trial(k, w) == SwitchPart(k, w)
    ensures !Passes(w, k) && w.preflight(k).Some? ==> Trial(k, w) == Update(Flag(k), w.flags(k))
    ensures !Passes(w, k) && w.preflight(k).None? ==> Trial(k, w) == SwitchPart(k, w) + Update(Flag(k), w.flags(k))
  {
  }

  lemma {:induction false} RunSnoc(s: Store, es: seq<Event>, e: Event)
    ensures Run(s, es + [e]) == Step(Run(s, es), e)
    decreases |es|
  {
    if es == [] {
      assert es + [e] == [e] && [e][1..] == [];
    } else {
      assert (es + [e])[1..] == es[1..] + [e];
      RunSnoc(Step(s, es[0]), es[1..], e);
    }
  }

  lemma {:induction false} OwnSnoc(es: seq<Event>, e: Event)
    ensures Own(es + [e]) == Own(es) + if OfClears(e) then [] else [e]
  {
    if es == [] {
      OwnCons(e, []);
      assert es + [e] == [e] + [];
    } else {
      var tail := es[1..];
      OwnSnoc(tail, e);
      OwnCons(es[0], tail);
      OwnCons(es[0], tail + [e]);
      hide Own;
      assert es == [es[0]] + tail && es + [e] == [es[0]] + (tail + [e]);
    }
  }

  /** The same outcome; the registries may differ. */
  predicate SweepSame(a: Sweep, b: Sweep) {
    match a
    case Recovered(k, _) => b.Recovered? && b.key == k
    case NoneWorked(_) => b.NoneWorked?
    case Threw(_) => b.Threw?
  }

  lemma NextCandidate(ks: seq<Key>, at: Registry, w: World, i: nat)
    requires i < |ks|
    ensures Program(ks[i..], w) ==
            Trial(ks[i], w) + if Passes(w, ks[i]) || !w.flags(ks[i]) then [] else Program(ks[i + 1..], w)
    ensures SweepFrom(ks[i..], at, w) ==
            if Passes(w, ks[i]) then Recovered(ks[i], ActivateAndClear(at, ks[i]))
            else if !w.flags(ks[i]) then Threw(at)
            else SweepFrom(ks[i + 1..], MarkNeedsReauth(at, ks[i]), w)
  {
    assert ks[i..][1..] == ks[i + 1..];
  }

  lemma NoCandidates(ks: seq<Key>, at: Registry, w: World)
    ensures Program(ks[|ks|..], w) == [] && SweepFrom(ks[|ks|..], at, w) == NoneWorked(at)
  {
  }

  lemma NothingMore(es: seq<Event>)
    ensures es + [] == es
  {
  }

  lemma WholeRound(reg: Registry, w: World, es: seq<Event>)
    requires Own(es) == [] + Update(FlagActive, reg.active.Some? && w.flags(reg.active.value))
                        + Program(Candidates(FlagActiveIn(reg, w), reg.order), w)
    ensures IsSchedule(reg, w, es)
  {
  }
}
