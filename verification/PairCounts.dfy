/** What the Mann-Whitney statistic counts: pairs won and tied, and how often a value occurs. */
module PairCounts {
  import opened Sequences

  // ----- the definition of U: a count over pairs -----

  /** Twice the credit a pair gives the first value: 2 for a win, 1 for a tie. */
  function Credit(x: real, y: real): int {
    if x > y then 2 else if x == y then 1 else 0
  }

  function CreditAgainst(x: real, b: seq<real>): (c: int)
    ensures 0 <= c <= 2 * |b|
  {
    if b == [] then 0 else Credit(x, b[0]) + CreditAgainst(x, b[1..])
  }

  /** Twice U of `a` against `b`, by definition. */
  function PairCredit(a: seq<real>, b: seq<real>): (c: int)
    ensures 0 <= c <= 2 * (|a| * |b|)
  {
    if a == [] then 0
    else
      assert |a| * |b| == |b| + (|a| - 1) * |b|;
      CreditAgainst(a[0], b) + PairCredit(a[1..], b)
  }

  lemma {:induction false} CreditAgainstConcat(x: real, b: seq<real>, c: seq<real>)
    ensures CreditAgainst(x, b + c) == CreditAgainst(x, b) + CreditAgainst(x, c)
  {
    if b == [] {
      assert b + c == c;
    } else {
      assert (b + c)[1..] == b[1..] + c;
      CreditAgainstConcat(x, b[1..], c);
    }
  }

  lemma {:induction false} PairCreditConcatLeft(a: seq<real>, b: seq<real>, c: seq<real>)
    ensures PairCredit(a + b, c) == PairCredit(a, c) + PairCredit(b, c)
  {
    if a == [] {
      assert a + b == b;
    } else {
      assert (a + b)[1..] == a[1..] + b;
      PairCreditConcatLeft(a[1..], b, c);
    }
  }

  lemma {:induction false} PairCreditConcatRight(a: seq<real>, b: seq<real>, c: seq<real>)
    ensures PairCredit(a, b + c) == PairCredit(a, b) + PairCredit(a, c)
  {
    if a != [] {
      CreditAgainstConcat(a[0], b, c);
      PairCreditConcatRight(a[1..], b, c);
    }
  }

  lemma {:induction false} CreditOfOne(x: real, b: seq<real>)
    ensures CreditAgainst(x, b) + PairCredit(b, [x]) == 2 * |b|
  {
    if b != [] {
      CreditOfOne(x, b[1..]);
      assert [x][1..] == [];
    }
  }

  /** The two statistics share out every pair between them. */
  lemma {:induction false} PairsAreShared(a: seq<real>, b: seq<real>)
    ensures PairCredit(a, b) + PairCredit(b, a) == 2 * (|a| * |b|)
  {
    if a == [] {
      NoCredit(b);
    } else {
      PairsAreShared(a[1..], b);
      CreditOfOne(a[0], b);
      TwoParts(a, 1);
      assert a[..1] == [a[0]];
      PairCreditConcatRight(b, [a[0]], a[1..]);
      OneMoreRow(|a|, |b|);
    }
  }

  lemma OneMoreRow(n: nat, m: nat)
    requires n > 0
    ensures n * m == m + (n - 1) * m
  {
  }

  lemma {:induction false} NoCredit(a: seq<real>)
    ensures PairCredit(a, []) == 0
  {
    if a != [] {
      NoCredit(a[1..]);
    }
  }

  // ----- U does not depend on the order of a sample -----

  lemma {:induction false} CreditAgainstPermuted(x: real, b: seq<real>, c: seq<real>)
    requires multiset(b) == multiset(c)
    ensures CreditAgainst(x, b) == CreditAgainst(x, c)
    decreases |b|
  {
    if b == [] {
      SameLength(b, c);
    } else {
      var i := TakeOut(b, c);
      CreditAgainstPermuted(x, b[1..], c[..i] + c[i + 1..]);
      CreditAgainstConcat(x, c[..i], c[i + 1..]);
      CreditAgainstConcat(x, c[..i], [c[i]] + c[i + 1..]);
      assert c == c[..i] + ([c[i]] + c[i + 1..]);
    }
  }

  /** Where the head of `b` sits in its permutation `c`, and what is left without it. */
  lemma TakeOut<T>(b: seq<T>, c: seq<T>) returns (i: nat)
    requires b != [] && multiset(b) == multiset(c)
    ensures i < |c| && c[i] == b[0]
    ensures multiset(c[..i] + c[i + 1..]) == multiset(b[1..])
  {
    assert b == [b[0]] + b[1..];
    assert b[0] in multiset(b);
    assert b[0] in c;
    i :| 0 <= i < |c| && c[i] == b[0];
    assert c == c[..i] + [c[i]] + c[i + 1..];
    assert multiset(c) == multiset(c[..i] + c[i + 1..]) + multiset{c[i]};
    assert multiset(b) == multiset(b[1..]) + multiset{b[0]};
    assert multiset(c[..i] + c[i + 1..]) == multiset(c) - multiset{c[i]};
    assert multiset(b[1..]) == multiset(b) - multiset{b[0]};
  }

  lemma {:induction false} PairCreditPermutedRight(a: seq<real>, b: seq<real>, c: seq<real>)
    requires multiset(b) == multiset(c)
    ensures PairCredit(a, b) == PairCredit(a, c)
    decreases |a|
  {
    if a != [] {
      CreditAgainstPermuted(a[0], b, c);
      PairCreditPermutedRight(a[1..], b, c);
    }
  }

  lemma PairCreditPermutedLeft(a: seq<real>, c: seq<real>, b: seq<real>)
    requires multiset(a) == multiset(c)
    ensures PairCredit(a, b) == PairCredit(c, b)
  {
    PairsAreShared(a, b);
    PairsAreShared(c, b);
    PairCreditPermutedRight(b, a, c);
    SameLength(a, c);
  }

  lemma SameLength<T>(a: seq<T>, b: seq<T>)
    requires multiset(a) == multiset(b)
    ensures |a| == |b|
  {
    assert |multiset(a)| == |a| && |multiset(b)| == |b|;
  }

  // ----- the weight of ties -----

  function Cube(t: int): int {
    t * t * t - t
  }

  /** The tie correction by definition: an observation whose value occurs m times weighs m*m - 1. */
  function TieMass(s: seq<real>, pool: multiset<real>): int {
    if s == [] then 0 else Weight(pool[s[0]]) + TieMass(s[1..], pool)
  }

  function Weight(m: int): int {
    m * m - 1
  }

  lemma {:induction false} TieMassConcat(s: seq<real>, t: seq<real>, pool: multiset<real>)
    ensures TieMass(s + t, pool) == TieMass(s, pool) + TieMass(t, pool)
  {
    if s == [] {
      assert s + t == t;
    } else {
      assert (s + t)[1..] == s[1..] + t;
      TieMassConcat(s[1..], t, pool);
    }
  }

  lemma {:induction false} TieMassPermuted(s: seq<real>, t: seq<real>, pool: multiset<real>)
    requires multiset(s) == multiset(t)
    ensures TieMass(s, pool) == TieMass(t, pool)
    decreases |s|
  {
    if s == [] {
      SameLength(s, t);
    } else {
      var i := TakeOut(s, t);
      TieMassPermuted(s[1..], t[..i] + t[i + 1..], pool);
      TieMassConcat(t[..i], t[i + 1..], pool);
      TieMassConcat(t[..i], [t[i]] + t[i + 1..], pool);
      assert t == t[..i] + ([t[i]] + t[i + 1..]);
    }
  }
}
