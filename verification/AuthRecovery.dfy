/**
 Recovery onto a known-good account: the stored registry, and what a sweep over its accounts does
 when nothing comes between its registry reads and its writes.
 */
module AuthRecovery {
  import opened Options

  type Key = string

  datatype Account = Account(login: string, token: string, needsReauth: bool)

  /** The stored registry. `order` is the enumeration order of the account keys. */
  datatype Registry = Registry(order: seq<Key>, accounts: map<Key, Account>, active: Option<Key>) {
    ghost predicate Valid() {
      && (forall i, j :: 0 <= i < j < |order| ==> order[i] != order[j])
      && (forall k :: k in order <==> k in accounts)
    }
  }

  /**
   What each service does for each account this time: the message of a failed preflight or
   mint, and whether the registry writes made on the account's behalf succeed.
   */
  datatype World = World(
    preflight: Key -> Option<string>,
    mint: Key -> Option<string>,
    commits: Key -> bool,
    flags: Key -> bool
  )

  // ----- registry updates -----

  function MarkNeedsReauth(reg: Registry, key: Key): Registry {
    if key !in reg.accounts then reg
    else reg.(accounts := reg.accounts[key := reg.accounts[key].(needsReauth := true)])
  }

  function ActivateAndClear(reg: Registry, key: Key): Registry {
    if key !in reg.accounts then reg
    else reg.(accounts := reg.accounts[key := reg.accounts[key].(needsReauth := false)], active := Some(key))
  }

  function Unflagged(reg: Registry): set<Key> {
    set k | k in reg.accounts && !reg.accounts[k].needsReauth
  }

  predicate IsCandidate(reg: Registry, k: Key) {
    k in reg.accounts && reg.active != Some(k) && !reg.accounts[k].needsReauth
  }

  /** `listAccounts(reg).filter(a => !a.active && !a.needsReauth)`. */
  function Candidates(reg: Registry, order: seq<Key>): (ks: seq<Key>)
    ensures forall k :: k in ks <==> k in order && IsCandidate(reg, k)
    ensures |ks| <= |order|
  {
    if order == [] then []
    else
      var rest := Candidates(reg, order[1..]);
      if IsCandidate(reg, order[0]) then [order[0]] + rest else rest
  }

  /** They are tried in the order in which the registry lists them. */
  lemma {:induction false} CandidatesInOrder(reg: Registry, a: seq<Key>, b: seq<Key>)
    ensures Candidates(reg, a + b) == Candidates(reg, a) + Candidates(reg, b)
  {
    if a == [] {
      assert a + b == b;
    } else {
      assert (a + b)[1..] == a[1..] + b;
      CandidatesInOrder(reg, a[1..], b);
    }
  }

  lemma {:induction false} CandidatesAreDistinct(reg: Registry, order: seq<Key>)
    requires forall i, j :: 0 <= i < j < |order| ==> order[i] != order[j]
    ensures forall i, j :: 0 <= i < j < |Candidates(reg, order)| ==>
              Candidates(reg, order)[i] != Candidates(reg, order)[j]
  {
    if order != [] {
      CandidatesAreDistinct(reg, order[1..]);
      var rest := Candidates(reg, order[1..]);
      forall j | 0 <= j < |rest|
        ensures rest[j] != order[0]
      {
        assert rest[j] in order[1..];
      }
    }
  }

  // ----- the sweep -----

  /** Preflight and live switch both work: the mint is accepted and the switch is committed. */
  predicate Passes(w: World, k: Key) {
    w.preflight(k).None? && w.mint(k).None? && w.commits(k)
  }

  datatype Sweep = Recovered(key: Key, reg: Registry) | NoneWorked(reg: Registry) | Threw(reg: Registry)

  function SweepFrom(ks: seq<Key>, reg: Registry, w: World): Sweep
    decreases |ks|
  {
    if ks == [] then NoneWorked(reg)
    else if Passes(w, ks[0]) then Recovered(ks[0], ActivateAndClear(reg, ks[0]))
    else if !w.flags(ks[0]) then Threw(reg)
    else SweepFrom(ks[1..], MarkNeedsReauth(reg, ks[0]), w)
  }

  function SweepOf(reg: Registry, w: World): Sweep {
    SweepFrom(Candidates(reg, reg.order), reg, w)
  }

  /** How many candidates are tried and rejected before the first that passes. */
  function Rejects(ks: seq<Key>, w: World): (n: nat)
    ensures n <= |ks|
    ensures forall i :: 0 <= i < n ==> !Passes(w, ks[i])
    ensures n < |ks| ==> Passes(w, ks[n])
  {
    if ks == [] || Passes(w, ks[0]) then 0 else 1 + Rejects(ks[1..], w)
  }

  /** The same accounts, the same credentials; only flags may differ. */
  predicate SameCredentials(a: Registry, b: Registry) {
    && a.order == b.order && a.accounts.Keys == b.accounts.Keys
    && (forall k :: k in a.accounts ==>
          a.accounts[k].login == b.accounts[k].login && a.accounts[k].token == b.accounts[k].token)
  }

  lemma {:induction false} SweepFromOutcome(ks: seq<Key>, reg: Registry, w: World)
    requires forall k :: k in ks ==> k in reg.accounts && w.flags(k)
    ensures var n := Rejects(ks, w);
            var out := SweepFrom(ks, reg, w);
            && (n < |ks| ==> out.Recovered? && out.key == ks[n] && out.reg.active == Some(ks[n]))
            && (n == |ks| ==> out.NoneWorked? && out.reg.active == reg.active)
            && SameCredentials(out.reg, reg)
    decreases |ks|
  {
    if ks != [] && !Passes(w, ks[0]) {
      SweepFromOutcome(ks[1..], MarkNeedsReauth(reg, ks[0]), w);
    }
  }

  lemma RejectedFirst(ks: seq<Key>, reg: Registry, w: World)
    requires ks != [] && !Passes(w, ks[0]) && w.flags(ks[0])
    ensures SweepFrom(ks, reg, w) == SweepFrom(ks[1..], MarkNeedsReauth(reg, ks[0]), w)
    ensures Rejects(ks, w) == 1 + Rejects(ks[1..], w)
    ensures ks[..Rejects(ks, w)] == [ks[0]] + ks[1..][..Rejects(ks[1..], w)]
  {
  }

  /** It flags exactly those it rejects. */
  lemma {:induction false} SweepFromFlags(ks: seq<Key>, reg: Registry, w: World)
    requires SetOf(ks) <= Unflagged(reg) && forall k :: k in ks ==> w.flags(k)
    requires forall i, j :: 0 <= i < j < |ks| ==> ks[i] != ks[j]
    ensures Unflagged(SweepFrom(ks, reg, w).reg) == Unflagged(reg) - SetOf(ks[..Rejects(ks, w)])
    decreases |ks|
  {
    if ks == [] || Passes(w, ks[0]) {
      assert ks[..0] == [];
    } else {
      var next := MarkNeedsReauth(reg, ks[0]);
      RejectedFirst(ks, reg, w);
      assert ks[0] in SetOf(ks) && SetOf(ks[1..]) <= SetOf(ks) - {ks[0]};
      assert Unflagged(next) == Unflagged(reg) - {ks[0]};
      SweepFromFlags(ks[1..], next, w);
    }
  }

  function SetOf(ks: seq<Key>): set<Key> {
    set k | k in ks
  }

  /**
   The sweep recovers exactly when some candidate passes both checks; it flags exactly the
   candidates tried before the winner (all of them when none works), keeps every credential,
   and moves the active pointer to the winner and nowhere else.
   */
  lemma SweepMeans(reg: Registry, w: World)
    requires reg.Valid() && forall k :: w.flags(k)
    ensures SweepOf(reg, w).Recovered? <==>
            exists k :: k in Unflagged(reg) && reg.active != Some(k)
                        && w.preflight(k).None? && w.mint(k).None? && w.commits(k)
    ensures !SweepOf(reg, w).Threw?
    ensures SameCredentials(SweepOf(reg, w).reg, reg)
    ensures var ks := Candidates(reg, reg.order);
            var n := Rejects(ks, w);
            && Unflagged(SweepOf(reg, w).reg) == Unflagged(reg) - SetOf(ks[..n])
            && (SweepOf(reg, w).Recovered? ==> n < |ks| && SweepOf(reg, w).key == ks[n])
            && (SweepOf(reg, w).NoneWorked? ==> n == |ks|)
    ensures SweepOf(reg, w).reg.active ==
            if SweepOf(reg, w).Recovered? then Some(SweepOf(reg, w).key) else reg.active
    ensures SweepOf(reg, w).Recovered? ==> w.mint(SweepOf(reg, w).key).None?
  {
    var ks := Candidates(reg, reg.order);
    CandidatesAreDistinct(reg, reg.order);
    SweepFromOutcome(ks, reg, w);
    assert SetOf(ks) <= Unflagged(reg);
    SweepFromFlags(ks, reg, w);
    var n := Rejects(ks, w);
    if n < |ks| {
      assert ks[n] in ks && IsCandidate(reg, ks[n]) && Passes(w, ks[n]);
    } else {
      forall k | IsCandidate(reg, k)
        ensures !Passes(w, k)
      {
        assert k in reg.order && k in ks;
        var i :| 0 <= i < |ks| && ks[i] == k;
      }
    }
  }
}
