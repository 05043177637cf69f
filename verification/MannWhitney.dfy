/**
 The Mann-Whitney U statistic with average ranks for ties.

 Samples are exact reals and ranks are doubled, so an average rank `(i + j) / 2 + 1` is the
 integer `i + j + 2` and everything up to the tie-corrected variance is exact.
 */
module MannWhitney {
  import opened NullVariance
  import opened PairCounts
  import opened Sequences

  /** One pooled observation: its value, and whether it came from the first sample. */
  datatype Tagged = Tagged(v: real, fromA: bool)

  // ----- pooling and sorting -----

  function Tag(s: seq<real>, fromA: bool): (t: seq<Tagged>)
    ensures |t| == |s| && forall i :: 0 <= i < |s| ==> t[i] == Tagged(s[i], fromA)
  {
    seq(|s|, i requires 0 <= i < |s| => Tagged(s[i], fromA))
  }

  predicate Sorted(c: seq<Tagged>) {
    forall i, j :: 0 <= i <= j < |c| ==> c[i].v <= c[j].v
  }

  /** Where a later observation goes: after every value that does not exceed its own. */
  function Slot(x: Tagged, c: seq<Tagged>): (p: nat)
    requires Sorted(c)
    ensures p <= |c|
    ensures forall k :: 0 <= k < p ==> c[k].v <= x.v
    ensures forall k :: p <= k < |c| ==> x.v < c[k].v
  {
    if c == [] || x.v < c[0].v then 0 else 1 + Slot(x, c[1..])
  }

  function Insert(x: Tagged, c: seq<Tagged>): (r: seq<Tagged>)
    requires Sorted(c)
    ensures Sorted(r) && multiset(r) == multiset{x} + multiset(c)
  {
    var p := Slot(x, c);
    InsertSorted(x, c, p);
    InsertCounts(x, c, p);
    c[..p] + [x] + c[p..]
  }

  lemma InsertSorted(x: Tagged, c: seq<Tagged>, p: nat)
    requires Sorted(c) && p <= |c|
    requires forall k :: 0 <= k < p ==> c[k].v <= x.v
    requires forall k :: p <= k < |c| ==> x.v < c[k].v
    ensures Sorted(c[..p] + [x] + c[p..])
  {
    var r := c[..p] + [x] + c[p..];
    assert forall k :: 0 <= k < p ==> r[k] == c[k];
    assert r[p] == x;
    assert forall k :: p < k < |r| ==> r[k] == c[k - 1];
  }

  lemma InsertCounts(x: Tagged, c: seq<Tagged>, p: nat)
    requires p <= |c|
    ensures multiset(c[..p] + [x] + c[p..]) == multiset{x} + multiset(c)
  {
    TwoParts(c, p);
  }

  /** The platform's stable sort by value. Nothing below depends on more than its contract. */
  function SortByValue(c: seq<Tagged>): (r: seq<Tagged>)
    ensures Sorted(r) && multiset(r) == multiset(c) && |r| == |c|
    decreases |c|
  {
    if c == [] then []
    else
      var n := |c| - 1;
      assert c == c[..n] + [c[n]];
      var r := Insert(c[n], SortByValue(c[..n]));
      assert |multiset(r)| == |r|;
      r
  }

  function Values(c: seq<Tagged>): (s: seq<real>)
    ensures |s| == |c| && forall i :: 0 <= i < |c| ==> s[i] == c[i].v
  {
    seq(|c|, i requires 0 <= i < |c| => c[i].v)
  }

  /** The values of one sample, in pooled order. */
  function Part(c: seq<Tagged>, fromA: bool): seq<real> {
    if c == [] then []
    else (if c[0].fromA == fromA then [c[0].v] else []) + Part(c[1..], fromA)
  }

  lemma PartOfCons(x: Tagged, c: seq<Tagged>, fromA: bool)
    ensures Part([x] + c, fromA) == (if x.fromA == fromA then [x.v] else []) + Part(c, fromA)
  {
    assert ([x] + c)[1..] == c;
  }

  lemma {:induction false} PartConcat(c: seq<Tagged>, d: seq<Tagged>, fromA: bool)
    ensures Part(c + d, fromA) == Part(c, fromA) + Part(d, fromA)
  {
    if c == [] {
      assert c + d == d;
    } else {
      hide Part;
      PartConcat(c[1..], d, fromA);
      PartOfCons(c[0], c[1..], fromA);
      PartOfCons(c[0], c[1..] + d, fromA);
      assert c == [c[0]] + c[1..] && c + d == [c[0]] + (c[1..] + d);
      Reassociate(if c[0].fromA == fromA then [c[0].v] else [], Part(c[1..], fromA), Part(d, fromA));
    }
  }

  lemma {:induction false} PartOfTag(s: seq<real>, tag: bool, fromA: bool)
    ensures Part(Tag(s, tag), fromA) == if tag == fromA then s else []
  {
    if s != [] {
      assert Tag(s, tag)[1..] == Tag(s[1..], tag);
      PartOfTag(s[1..], tag, fromA);
    }
  }

  /** Taking one observation out of the pool takes its value out of its part. */
  lemma PartWithout(d: seq<Tagged>, i: nat, fromA: bool)
    requires i < |d|
    ensures multiset(Part(d, fromA)) ==
            multiset(Part([d[i]], fromA)) + multiset(Part(d[..i] + d[i + 1..], fromA))
  {
    var before, after := d[..i], d[i + 1..];
    TwoParts(d, i);
    assert d[i..] == [d[i]] + after;
    PartConcat(before, after, fromA);
    PartConcat([d[i]], after, fromA);
    PartConcat(before, d[i..], fromA);
  }

  lemma {:induction false} PartPermuted(c: seq<Tagged>, d: seq<Tagged>, fromA: bool)
    requires multiset(c) == multiset(d)
    ensures multiset(Part(c, fromA)) == multiset(Part(d, fromA))
    decreases |c|
  {
    if c == [] {
      SameLength(c, d);
    } else {
      var i := TakeOut(c, d);
      PartPermuted(c[1..], d[..i] + d[i + 1..], fromA);
      PartWithout(d, i, fromA);
      PartWithout(c, 0, fromA);
      assert c[..0] + c[1..] == c[1..];
    }
  }

  /** The pooled values are the two parts, shuffled together. */
  lemma {:induction false} PartsMakeWhole(c: seq<Tagged>)
    ensures multiset(Values(c)) == multiset(Part(c, true) + Part(c, false))
  {
    if c != [] {
      assert Values(c) == [c[0].v] + Values(c[1..]);
      PartsMakeWhole(c[1..]);
    }
  }

  // ----- average ranks -----

  /** `i..j` is a whole run of equal values in a sorted pool. */
  predicate TieGroup(c: seq<Tagged>, i: nat, j: nat) {
    && i <= j < |c|
    && (forall k :: i <= k <= j ==> c[k].v == c[i].v)
    && (i > 0 ==> c[i - 1].v < c[i].v)
    && (j + 1 < |c| ==> c[i].v < c[j + 1].v)
  }

  lemma SplitValues(c: seq<Tagged>, i: nat, j: nat)
    requires i <= j < |c|
    ensures Values(c) == Values(c[..i]) + (Values(c[i..j + 1]) + Values(c[j + 1..]))
  {
  }

  lemma GroupBounds(c: seq<Tagged>, i: nat, j: nat)
    requires Sorted(c) && TieGroup(c, i, j)
    ensures forall m :: 0 <= m < i ==> c[m].v < c[i].v
    ensures forall m :: j < m < |c| ==> c[i].v < c[m].v
  {
  }

  /** What a rank means: one more than the credit against the whole pool, itself included. */
  lemma GroupCredit(c: seq<Tagged>, i: nat, j: nat)
    requires Sorted(c) && TieGroup(c, i, j)
    ensures CreditAgainst(c[i].v, Values(c)) == i + j + 1
  {
    var x := c[i].v;
    var low, mid, high := Values(c[..i]), Values(c[i..j + 1]), Values(c[j + 1..]);
    GroupBounds(c, i, j);
    UniformCredit(x, low, 2);
    UniformCredit(x, mid, 1);
    UniformCredit(x, high, 0);
    SplitValues(c, i, j);
    CreditAgainstConcat(x, low, mid + high);
    CreditAgainstConcat(x, mid, high);
  }

  lemma {:induction false} UniformCredit(x: real, b: seq<real>, each: int)
    requires forall k :: 0 <= k < |b| ==> Credit(x, b[k]) == each
    ensures CreditAgainst(x, b) == each * |b|
  {
    if b != [] {
      UniformCredit(x, b[1..], each);
    }
  }

  /** The doubled rank of every pooled observation, from the definition. */
  predicate RanksByCredit(c: seq<Tagged>, ranks2: seq<int>, upTo: nat)
    requires upTo <= |c| == |ranks2|
  {
    forall k :: 0 <= k < upTo ==> ranks2[k] == CreditAgainst(c[k].v, Values(c)) + 1
  }

  function RankSum2(c: seq<Tagged>, ranks2: seq<int>): int
    requires |c| == |ranks2|
  {
    if c == [] then 0
    else (if c[0].fromA then ranks2[0] else 0) + RankSum2(c[1..], ranks2[1..])
  }

  lemma {:induction false} RankSumSplit(c: seq<Tagged>, ranks2: seq<int>, k: nat)
    requires k < |c| == |ranks2|
    ensures RankSum2(c[..k + 1], ranks2[..k + 1]) ==
            RankSum2(c[..k], ranks2[..k]) + (if c[k].fromA then ranks2[k] else 0)
  {
    if k == 0 {
      assert c[..1][1..] == [] && c[..0] == [];
    } else {
      assert c[..k + 1][1..] == c[1..][..k] && ranks2[..k + 1][1..] == ranks2[1..][..k];
      assert c[..k][1..] == c[1..][..k - 1] && ranks2[..k][1..] == ranks2[1..][..k - 1];
      RankSumSplit(c[1..], ranks2[1..], k - 1);
    }
  }

  /** Ranks are credits, so their sum over one sample is the credit of that sample against the pool. */
  lemma {:induction false} RankSumIsCredit(c: seq<Tagged>, ranks2: seq<int>, pool: seq<real>)
    requires |c| == |ranks2|
    requires forall k :: 0 <= k < |c| ==> ranks2[k] == CreditAgainst(c[k].v, pool) + 1
    ensures RankSum2(c, ranks2) == PairCredit(Part(c, true), pool) + |Part(c, true)|
  {
    if c != [] {
      RankSumIsCredit(c[1..], ranks2[1..], pool);
      if c[0].fromA {
        assert Part(c, true)[1..] == Part(c[1..], true);
      } else {
        assert Part(c, true) == Part(c[1..], true);
      }
    }
  }

  function Pool(a: seq<real>, b: seq<real>): (c: seq<Tagged>)
    ensures Sorted(c) && |c| == |a| + |b|
  {
    SortByValue(Tag(a, true) + Tag(b, false))
  }

  lemma PoolParts(a: seq<real>, b: seq<real>)
    ensures multiset(Part(Pool(a, b), true)) == multiset(a)
    ensures multiset(Part(Pool(a, b), false)) == multiset(b)
    ensures multiset(Values(Pool(a, b))) == multiset(a + b)
  {
    hide Part, Tag, Values;
    var raw := Tag(a, true) + Tag(b, false);
    PartConcat(Tag(a, true), Tag(b, false), true);
    PartConcat(Tag(a, true), Tag(b, false), false);
    PartOfTag(a, true, true);
    PartOfTag(b, false, true);
    PartOfTag(a, true, false);
    PartOfTag(b, false, false);
    assert a + [] == a && [] + b == b;
    PartPermuted(Pool(a, b), raw, true);
    PartPermuted(Pool(a, b), raw, false);
    PartsMakeWhole(Pool(a, b));
  }

  /** The heart of it: the rank formula computes the pair count. */
  lemma RankFormulaIsPairCount(a: seq<real>, b: seq<real>, ranks2: seq<int>)
    requires |ranks2| == |a| + |b|
    requires RanksByCredit(Pool(a, b), ranks2, |ranks2|)
    ensures RankSum2(Pool(a, b), ranks2) - |a| * (|a| + 1) == PairCredit(a, b)
  {
    var c := Pool(a, b);
    PoolParts(a, b);
    RankSumIsCredit(c, ranks2, Values(c));
    var mine := Part(c, true);
    SameLength(mine, a);
    PairCreditPermutedLeft(mine, a, Values(c));
    PairCreditPermutedRight(a, Values(c), a + b);
    PairCreditConcatRight(a, a, b);
    PairsAreShared(a, a);
    assert |a| * (|a| + 1) == |a| * |a| + |a|;
  }

  // ----- the tie correction -----

  function TieSum(ties: seq<int>): int {
    if ties == [] then 0 else Cube(ties[0]) + TieSum(ties[1..])
  }

  lemma {:induction false} TieSumAppend(ties: seq<int>, t: int)
    ensures TieSum(ties + [t]) == TieSum(ties) + Cube(t)
  {
    if ties == [] {
      assert [t][1..] == [];
    } else {
      assert (ties + [t])[1..] == ties[1..] + [t];
      TieSumAppend(ties[1..], t);
    }
  }

  /** A run of t equal values, t being how often the value occurs, weighs t cubed minus t. */
  lemma {:induction false} UniformMass(s: seq<real>, x: real, pool: multiset<real>)
    requires forall k :: 0 <= k < |s| ==> s[k] == x
    ensures TieMass(s, pool) == |s| * Weight(pool[x])
    ensures multiset(s)[x] == |s|
  {
    if s != [] {
      UniformMass(s[1..], x, pool);
      assert s == [s[0]] + s[1..];
      var each := Weight(pool[x]);
      assert |s| * each == each + (|s| - 1) * each;
    }
  }

  lemma Missing(s: seq<real>, x: real)
    requires forall k :: 0 <= k < |s| ==> s[k] != x
    ensures multiset(s)[x] == 0
  {
    assert x !in s;
  }

  lemma GroupMultiplicity(c: seq<Tagged>, i: nat, j: nat)
    requires Sorted(c) && TieGroup(c, i, j)
    ensures multiset(Values(c))[c[i].v] == j - i + 1
  {
    hide Values;
    var x := c[i].v;
    var low, mid, high := Values(c[..i]), Values(c[i..j + 1]), Values(c[j + 1..]);
    GroupBounds(c, i, j);
    UniformMass(mid, x, multiset{});
    Missing(low, x);
    Missing(high, x);
    SplitValues(c, i, j);
    assert multiset(low + (mid + high)) == multiset(low) + (multiset(mid) + multiset(high));
  }

  lemma GroupMass(c: seq<Tagged>, i: nat, j: nat)
    requires Sorted(c) && TieGroup(c, i, j)
    ensures TieMass(Values(c[i..j + 1]), multiset(Values(c))) == Cube(j - i + 1)
  {
    GroupMultiplicity(c, i, j);
    UniformMass(Values(c[i..j + 1]), c[i].v, multiset(Values(c)));
    CubeOf(j - i + 1);
  }

  lemma CubeOf(t: nat)
    ensures t * (t * t - 1) == Cube(t)
  {
  }

  lemma CubeSuperadditive(m: nat, t: nat)
    ensures Cube(m) + Cube(t) + 3 * (m * t * (m + t)) == Cube(m + t)
    ensures m * t * (m + t) >= 0
    ensures m > 0 && t > 0 ==> m * t * (m + t) > 0
  {
    var p := m * t;
    assert (m + t) * (m + t) == m * m + 2 * p + t * t;
    assert (m + t) * (m + t) * (m + t) == m * m * (m + t) + 2 * (p * (m + t)) + t * t * (m + t);
    assert m * m * (m + t) == m * m * m + m * p by { assert m * m * t == m * p; }
    assert t * t * (m + t) == t * p + t * t * t by { assert t * t * m == t * p; }
    assert m * p + t * p == p * (m + t);
    if m > 0 && t > 0 {
      assert p > 0;
      assert p * (m + t) > 0;
    }
  }

  /** Two groups weigh less than one as large as both. */
  lemma CubeGap(m: nat, t: nat)
    requires t > 0
    ensures Cube(m) + Cube(t) <= Cube(m + t)
    ensures Cube(m) + Cube(t) == Cube(m + t) <==> m == 0
  {
    CubeSuperadditive(m, t);
  }

  /** The tie groups of the first `upTo` observations, up to a group boundary. */
  ghost predicate TiesSoFar(c: seq<Tagged>, ties: seq<int>, upTo: nat)
    requires upTo <= |c|
  {
    && TieSum(ties) == TieMass(Values(c[..upTo]), multiset(Values(c)))
    && TieSum(ties) <= Cube(upTo)
    && (upTo > 0 ==> (TieSum(ties) == Cube(upTo) <==> AllEqual(c[..upTo])))
  }

  predicate AllEqual(c: seq<Tagged>) {
    forall i, j :: 0 <= i < |c| && 0 <= j < |c| ==> c[i].v == c[j].v
  }

  lemma NoTiesYet(c: seq<Tagged>)
    ensures TiesSoFar(c, [], 0)
  {
    assert c[..0] == [];
  }

  /** One more group keeps the cubic bound, and keeps it tight only if it is the only group. */
  lemma NextTieGroup(c: seq<Tagged>, ties: seq<int>, i: nat, j: nat, next: seq<int>)
    requires Sorted(c) && TieGroup(c, i, j) && TiesSoFar(c, ties, i)
    requires i == 0 ==> ties == []
    requires next == if j > i then ties + [j - i + 1] else ties
    ensures TiesSoFar(c, next, j + 1)
  {
    var t := j - i + 1;
    TieSumAppend(ties, t);
    CubeGap(i, t);
    assert Cube(1) == 0;
    hide Cube;
    assert TieSum(next) == TieSum(ties) + Cube(t);
    GroupMass(c, i, j);
    TieMassConcat(Values(c[..i]), Values(c[i..j + 1]), multiset(Values(c)));
    assert Values(c[..j + 1]) == Values(c[..i]) + Values(c[i..j + 1]);
    if i > 0 {
      assert c[..j + 1][i - 1].v < c[..j + 1][i].v;
    }
  }

  // ----- the code -----

  /** U, and the tie-corrected variance under the square root, both exact. */
  datatype Statistic = Statistic(u2: int, variance: real)

  function Variance(n1: nat, n2: nat, tieSum: int): real
    requires n1 > 0 && n2 > 0
  {
    var n := n1 + n2;
    assert n * (n - 1) > 0;
    ((n1 * n2) as real / 12.0) * ((n + 1) as real - tieSum as real / (n * (n - 1)) as real)
  }

  lemma VarianceSign(n1: nat, n2: nat, tieSum: int)
    requires n1 > 0 && n2 > 0 && tieSum <= Cube(n1 + n2)
    ensures Variance(n1, n2, tieSum) >= 0.0
    ensures Variance(n1, n2, tieSum) == 0.0 <==> tieSum == Cube(n1 + n2)
  {
    var n := n1 + n2;
    var d := n * (n - 1);
    assert d > 0;
    assert Cube(n) == d * (n + 1) by {
      assert d * (n + 1) == (n * n - n) * (n + 1) == n * n * n + n * n - n * n - n;
    }
    var q := tieSum as real / d as real;
    var gap := (n + 1) as real - q;
    QuotientGap(tieSum, d, n + 1);
    var k := (n1 * n2) as real / 12.0;
    assert n1 * n2 > 0;
    assert k > 0.0;
    ScaledSign(k, gap);
  }

  /** Four times the formula, pair counts being doubled, is the mean. */
  lemma VarianceIsMean(n1: nat, n2: nat, tieSum: int, ways: int, sum: int)
    requires n1 > 0 && n2 > 0 && Averages(n1 + n2, n1, ways, sum, Cube(n1 + n2) - tieSum)
    ensures 4.0 * Variance(n1, n2, tieSum) * ways as real == sum as real
  {
    var n := n1 + n2;
    var d, k, x := n * (n - 1), n1 * n2, Cube(n) - tieSum;
    assert d > 0;
    assert Cube(n) == d * (n + 1) by {
      assert d * (n + 1) == (n * n - n) * (n + 1) == n * n * n + n * n - n * n - n;
    }
    ScaledGap(tieSum, d, n + 1, k);
    MeanFromScale(d, k, x, ways, sum, Variance(n1, n2, tieSum));
  }

  lemma ScaledGap(tieSum: int, d: int, m: int, k: int)
    requires d > 0
    ensures 12.0 * d as real * ((k as real / 12.0) * (m as real - tieSum as real / d as real)) ==
            (k * (d * m - tieSum)) as real
  {
    var q := tieSum as real / d as real;
    assert q * d as real == tieSum as real;
    var gap := m as real - q;
    assert d as real * gap == (d * m - tieSum) as real;
    assert k as real * (d * m - tieSum) as real == (k * (d * m - tieSum)) as real;
    assert 12.0 * d as real * ((k as real / 12.0) * gap) == k as real * (d as real * gap);
  }

  lemma MeanFromScale(d: int, k: int, x: int, ways: int, sum: int, v: real)
    requires d > 0 && 3 * d * sum == k * ways * x && 12.0 * d as real * v == (k * x) as real
    ensures 4.0 * v * ways as real == sum as real
  {
    assert k * ways * x == (k * x) * ways;
    assert ((k * x) * ways) as real == (k * x) as real * ways as real;
    assert 3.0 * d as real * sum as real == (12.0 * d as real * v) * ways as real;
    assert 3.0 * d as real * (4.0 * v * ways as real - sum as real) == 0.0;
  }

  lemma QuotientGap(num: int, d: int, m: int)
    requires d > 0 && num <= d * m
    ensures m as real - num as real / d as real >= 0.0
    ensures m as real - num as real / d as real == 0.0 <==> num == d * m
  {
    var q := num as real / d as real;
    assert q * d as real == num as real;
    var gap := m as real - q;
    assert gap * d as real == (d * m - num) as real;
    NonNegativeFactor(gap, d as real);
  }

  lemma NonNegativeFactor(x: real, d: real)
    requires d > 0.0 && x * d >= 0.0
    ensures x >= 0.0
  {
  }

  lemma ScaledSign(k: real, gap: real)
    requires k > 0.0 && gap >= 0.0
    ensures k * gap >= 0.0 && (k * gap == 0.0 <==> gap == 0.0)
  {
  }

  /** The last index of the tie group that begins at `i`. */
  method GroupEnd(c: seq<Tagged>, i: nat) returns (j: nat)
    requires Sorted(c) && i < |c| && (i > 0 ==> c[i - 1].v < c[i].v)
    ensures TieGroup(c, i, j) && j < |c| && (j + 1 < |c| ==> c[j].v < c[j + 1].v)
  {
    j := i;
    while j + 1 < |c| && c[j + 1].v == c[i].v
      invariant i <= j < |c|
      invariant forall k :: i <= k <= j ==> c[k].v == c[i].v
    {
      j := j + 1;
    }
  }

  /** Give one tie group its average rank. */
  method FillGroup(c: seq<Tagged>, ranks2: array<int>, i: nat, j: nat)
    requires ranks2.Length == |c| && Sorted(c) && TieGroup(c, i, j)
    requires RanksByCredit(c, ranks2[..], i)
    modifies ranks2
    ensures RanksByCredit(c, ranks2[..], j + 1)
  {
    GroupCredit(c, i, j);
    for k := i to j + 1
      invariant RanksByCredit(c, ranks2[..], k)
    {
      ranks2[k] := i + j + 2;
    }
  }

  /** A group of one is no tie. */
  method NextTies(c: seq<Tagged>, ties: seq<int>, i: nat, j: nat) returns (next: seq<int>)
    requires Sorted(c) && TieGroup(c, i, j) && TiesSoFar(c, ties, i)
    requires i == 0 ==> ties == []
    ensures TiesSoFar(c, next, j + 1)
  {
    next := if j > i then ties + [j - i + 1] else ties;
    NextTieGroup(c, ties, i, j, next);
  }

  method RankPool(c: seq<Tagged>) returns (ranks2: array<int>, ties: seq<int>)
    requires Sorted(c)
    ensures fresh(ranks2) && ranks2.Length == |c| && RanksByCredit(c, ranks2[..], |c|)
    ensures TiesSoFar(c, ties, |c|)
  {
    ranks2 := new int[|c|];
    ties := [];
    var i := 0;
    NoTiesYet(c);
    assert RanksByCredit(c, ranks2[..], i);
    hide *;
    while i < |c|
      invariant 0 <= i <= |c|
      invariant 0 < i < |c| ==> c[i - 1].v < c[i].v
      invariant RanksByCredit(c, ranks2[..], i)
      invariant TiesSoFar(c, ties, i) && (i == 0 ==> ties == [])
    {
      var j := GroupEnd(c, i);
      FillGroup(c, ranks2, i, j);
      ties := NextTies(c, ties, i, j);
      i := j + 1;
    }
  }

  /**
   The fast computation against the definition: twice U is the smaller of the two pair counts; four
   times the variance is the mean, over all choices of as many of the pooled observations for the
   first sample, of the squared deviation of the pair count; and it vanishes exactly when all values tie.
   */
  method MannWhitneyU(a: seq<real>, b: seq<real>) returns (s: Statistic)
    ensures a == [] || b == [] ==> s.u2 == 0
    ensures a != [] && b != [] ==>
              && s.u2 == (if PairCredit(a, b) <= PairCredit(b, a) then PairCredit(a, b) else PairCredit(b, a))
              && s.variance == Variance(|a|, |b|, TieMass(a + b, multiset(a + b)))
              && IsNullVariance(s.variance, a, b)
              && s.variance >= 0.0
              && (s.variance == 0.0 <==> forall x, y :: x in a + b && y in a + b ==> x == y)
    ensures 0 <= 2 * s.u2 <= 2 * (|a| * |b|)
  {
    hide TiesSoFar, IsNullVariance, TieMass, Variance, Pool, RankSum2, TieSum;
    var n1, n2 := |a|, |b|;
    if n1 == 0 || n2 == 0 {
      return Statistic(0, 0.0);
    }
    var combined := Pool(a, b);
    var ranks2, ties := RankPool(combined);
    var rankSumA2 := SumRanksOfA(combined, ranks2);
    RankFormulaIsPairCount(a, b, ranks2[..]);
    var first2 := rankSumA2 - n1 * (n1 + 1);
    var second2 := 2 * (n1 * n2) - first2;
    PairsAreShared(a, b);
    var tieSum := SumTies(ties);
    VarianceOfTies(a, b, ties);
    s := Statistic(if first2 <= second2 then first2 else second2, Variance(n1, n2, tieSum));
  }

  /** Four times `v` is the mean over all choices, pair counts being doubled. */
  ghost predicate IsNullVariance(v: real, a: seq<real>, b: seq<real>) {
    var w, ms := a + b, Choices(|a| + |b|, |a|);
    Fit(ms, |w|) && |ms| > 0 && 4.0 * v * |ms| as real == SquaredDeviations(w, ms) as real
  }

  lemma VarianceOfTies(a: seq<real>, b: seq<real>, ties: seq<int>)
    requires a != [] && b != [] && TiesSoFar(Pool(a, b), ties, |Pool(a, b)|)
    ensures TieSum(ties) == TieMass(a + b, multiset(a + b))
    ensures var v := Variance(|a|, |b|, TieSum(ties));
            && IsNullVariance(v, a, b) && v >= 0.0
            && (v == 0.0 <==> forall x, y :: x in a + b && y in a + b ==> x == y)
  {
    hide *;
    TiesOfSamples(a, b, ties);
    VarianceSign(|a|, |b|, TieSum(ties));
    NullVarianceOfTies(a, b, TieSum(ties));
  }

  lemma TiesOfSamples(a: seq<real>, b: seq<real>, ties: seq<int>)
    requires a != [] && TiesSoFar(Pool(a, b), ties, |Pool(a, b)|)
    ensures TieSum(ties) == TieMass(a + b, multiset(a + b)) && TieSum(ties) <= Cube(|a| + |b|)
    ensures TieSum(ties) == Cube(|a| + |b|) <==> forall x, y :: x in a + b && y in a + b ==> x == y
  {
    hide *;
    TiesOfAll(Pool(a, b), ties);
    PoolTiesAsSamples(a, b);
    PoolEqualAsSamples(a, b);
  }

  lemma TiesOfAll(c: seq<Tagged>, ties: seq<int>)
    requires c != [] && TiesSoFar(c, ties, |c|)
    ensures TieSum(ties) == TieMass(Values(c), multiset(Values(c))) && TieSum(ties) <= Cube(|c|)
    ensures TieSum(ties) == Cube(|c|) <==> AllEqual(c)
  {
    hide TieSum, TieMass, Cube, AllEqual, Values;
    assert c[..|c|] == c;
  }

  lemma NullVarianceOfTies(a: seq<real>, b: seq<real>, tieSum: int)
    requires a != [] && b != [] && tieSum == TieMass(a + b, multiset(a + b))
    ensures IsNullVariance(Variance(|a|, |b|, tieSum), a, b)
  {
    hide Variance, TieMass, Cube, Choices, SquaredDeviations, Fit, Averages;
    var w, ms := a + b, Choices(|a| + |b|, |a|);
    MeanSquaredDeviation(w, |a|);
    VarianceIsMean(|a|, |b|, tieSum, |ms|, SquaredDeviations(w, ms));
  }

  method SumRanksOfA(c: seq<Tagged>, ranks2: array<int>) returns (sum2: int)
    requires ranks2.Length == |c|
    ensures sum2 == RankSum2(c, ranks2[..])
  {
    sum2 := 0;
    for k := 0 to |c|
      invariant sum2 == RankSum2(c[..k], ranks2[..][..k])
    {
      RankSumSplit(c, ranks2[..], k);
      if c[k].fromA {
        sum2 := sum2 + ranks2[k];
      }
    }
    assert c[..|c|] == c && ranks2[..][..|c|] == ranks2[..];
  }

  method SumTies(ties: seq<int>) returns (acc: int)
    ensures acc == TieSum(ties)
  {
    acc := 0;
    for k := 0 to |ties|
      invariant acc == TieSum(ties[..k])
    {
      assert ties[..k + 1] == ties[..k] + [ties[k]];
      TieSumAppend(ties[..k], ties[k]);
      acc := acc + Cube(ties[k]);
    }
    assert ties[..|ties|] == ties;
  }

  lemma PoolTiesAsSamples(a: seq<real>, b: seq<real>)
    ensures TieMass(Values(Pool(a, b)), multiset(Values(Pool(a, b)))) == TieMass(a + b, multiset(a + b))
  {
    PoolParts(a, b);
    TieMassPermuted(Values(Pool(a, b)), a + b, multiset(a + b));
  }

  lemma SameMembers(s: seq<real>, t: seq<real>)
    requires multiset(s) == multiset(t)
    ensures forall x :: x in s <==> x in t
  {
    forall x
      ensures x in s <==> x in t
    {
      assert x in s <==> x in multiset(s);
      assert x in t <==> x in multiset(t);
    }
  }

  lemma AllEqualValues(c: seq<Tagged>)
    ensures AllEqual(c) <==> forall x, y :: x in Values(c) && y in Values(c) ==> x == y
  {
    if forall x, y :: x in Values(c) && y in Values(c) ==> x == y {
      forall i, j | 0 <= i < |c| && 0 <= j < |c|
        ensures c[i].v == c[j].v
      {
        assert Values(c)[i] in Values(c) && Values(c)[j] in Values(c);
      }
    }
  }

  lemma PoolEqualAsSamples(a: seq<real>, b: seq<real>)
    ensures AllEqual(Pool(a, b)) <==> forall x, y :: x in a + b && y in a + b ==> x == y
  {
    PoolParts(a, b);
    SameMembers(Values(Pool(a, b)), a + b);
    AllEqualValues(Pool(a, b));
  }

  // ----- what the statistic is good for -----

  function U2(a: seq<real>, b: seq<real>): int {
    if PairCredit(a, b) <= PairCredit(b, a) then PairCredit(a, b) else PairCredit(b, a)
  }

  /** U treats the samples alike, ignores the order they were taken in, and is at most half of all pairs. */
  lemma UIsSymmetricAndOrderFree(a: seq<real>, b: seq<real>, c: seq<real>, d: seq<real>)
    requires multiset(a) == multiset(c) && multiset(b) == multiset(d)
    ensures U2(a, b) == U2(b, a) == U2(c, d)
    ensures 0 <= 2 * U2(a, b) <= 2 * (|a| * |b|)
  {
    PairCreditPermutedLeft(a, c, b);
    PairCreditPermutedRight(c, b, d);
    PairCreditPermutedLeft(b, d, a);
    PairCreditPermutedRight(d, a, c);
    PairsAreShared(a, b);
  }
}
