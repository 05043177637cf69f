/**
 The variance of U when it does not matter which observations are in which sample: the mean, over
 every choice of the first sample among the pooled observations, of the squared deviation of its
 pair count. The tie-corrected formula is that number exactly.
 */
module NullVariance {
  import opened PairCounts
  import opened Sequences

  // ----- choices -----

  function Count(m: seq<bool>): (n: nat)
    ensures n <= |m|
  {
    if m == [] then 0 else (if m[0] then 1 else 0) + Count(m[1..])
  }

  function Prefixed(x: bool, ms: seq<seq<bool>>): (out: seq<seq<bool>>)
    ensures |out| == |ms| && forall i :: 0 <= i < |ms| ==> out[i] == [x] + ms[i]
  {
    seq(|ms|, i requires 0 <= i < |ms| => [x] + ms[i])
  }

  /** Every way of marking `k` of `n` positions. */
  function Choices(n: nat, k: int): seq<seq<bool>>
    decreases n
  {
    if n == 0 then (if k == 0 then [[]] else [])
    else Prefixed(true, Choices(n - 1, k - 1)) + Prefixed(false, Choices(n - 1, k))
  }

  lemma {:induction false} PrefixedMembers(x: bool, ms: seq<seq<bool>>, m: seq<bool>)
    ensures m in Prefixed(x, ms) <==> m != [] && m[0] == x && m[1..] in ms
  {
    var out := Prefixed(x, ms);
    if m in out {
      var i :| 0 <= i < |out| && out[i] == m;
      assert m[1..] == ms[i];
    }
    if m != [] && m[0] == x && m[1..] in ms {
      var i :| 0 <= i < |ms| && ms[i] == m[1..];
      assert out[i] == m;
    }
  }

  predicate Distinct(ms: seq<seq<bool>>) {
    forall i, j :: 0 <= i < j < |ms| ==> ms[i] != ms[j]
  }

  lemma PrefixedDistinct(x: bool, ms: seq<seq<bool>>)
    requires Distinct(ms)
    ensures Distinct(Prefixed(x, ms))
  {
    var out := Prefixed(x, ms);
    forall i, j | 0 <= i < j < |out|
      ensures out[i] != out[j]
    {
      assert out[i][1..] == ms[i] && out[j][1..] == ms[j];
    }
  }

  /** They are all the ways there are, each of them once. */
  lemma {:induction false} ChoicesAreAll(n: nat, k: int)
    ensures AreAll(Choices(n, k), n, k)
    decreases n
  {
    hide AreAll, Count;
    if n == 0 {
      NoneIsAll(k);
    } else {
      var with, without := Choices(n - 1, k - 1), Choices(n - 1, k);
      ChoicesAreAll(n - 1, k - 1);
      ChoicesAreAll(n - 1, k);
      BothAreAll(n, k, with, without);
    }
  }

  ghost predicate AreAll(ms: seq<seq<bool>>, n: int, k: int) {
    Distinct(ms) && forall m :: m in ms <==> |m| == n && Count(m) == k
  }

  lemma NoneIsAll(k: int)
    ensures AreAll(Choices(0, k), 0, k)
  {
    assert forall m: seq<bool> :: |m| == 0 ==> m == [];
  }

  lemma BothAreAll(n: nat, k: int, with: seq<seq<bool>>, without: seq<seq<bool>>)
    requires n > 0 && AreAll(with, n - 1, k - 1) && AreAll(without, n - 1, k)
    ensures AreAll(Prefixed(true, with) + Prefixed(false, without), n, k)
  {
    hide Prefixed, Choices;
    PrefixedDistinct(true, with);
    PrefixedDistinct(false, without);
    var a, b := Prefixed(true, with), Prefixed(false, without);
    forall m: seq<bool>
      ensures m in a + b <==> |m| == n && Count(m) == k
    {
      PrefixedMembers(true, with, m);
      PrefixedMembers(false, without, m);
    }
    forall i, j | 0 <= i < j < |a + b|
      ensures (a + b)[i] != (a + b)[j]
    {
      if i < |a| <= j {
        PrefixedMembers(true, with, a[i]);
        PrefixedMembers(false, without, b[j - |a|]);
      }
    }
  }

  /** How many there are; none of a negative number. */
  function Ways(n: int, k: int): nat
    decreases n
  {
    if n < 0 then 0 else if n == 0 then (if k == 0 then 1 else 0) else Ways(n - 1, k - 1) + Ways(n - 1, k)
  }

  lemma PascalRule(n: int, k: int)
    requires n > 0
    ensures Ways(n, k) == Ways(n - 1, k - 1) + Ways(n - 1, k)
  {
  }

  lemma {:induction false} ChoicesAreCounted(n: nat, k: int)
    ensures |Choices(n, k)| == Ways(n, k)
    decreases n
  {
    if n > 0 {
      ChoicesAreCounted(n - 1, k - 1);
      ChoicesAreCounted(n - 1, k);
    }
  }

  /** Choosing and then marking one of the chosen is marking one and then choosing the others. */
  lemma AbsorptionStep(n: nat, k: int)
    requires n > 1
    requires (k - 1) * Ways(n - 1, k - 1) == (n - 1) * Ways(n - 2, k - 2)
    requires k * Ways(n - 1, k) == (n - 1) * Ways(n - 2, k - 1)
    ensures k * Ways(n, k) == n * Ways(n - 1, k - 1)
  {
    PascalRule(n, k);
    PascalRule(n - 1, k - 1);
    hide Ways;
    AddUp(n, k, Ways(n - 1, k - 1), Ways(n - 1, k), Ways(n - 2, k - 2), Ways(n - 2, k - 1));
  }

  lemma AddUp(n: int, k: int, p: int, q: int, u: int, v: int)
    requires (k - 1) * p == (n - 1) * u && k * q == (n - 1) * v && p == u + v
    ensures k * (p + q) == n * p
  {
    assert (n - 1) * u + (n - 1) * v == (n - 1) * p;
    assert k * (p + q) == (k - 1) * p + p + k * q;
  }

  lemma {:induction false} Absorption(n: nat, k: int)
    requires n > 0
    ensures k * Ways(n, k) == n * Ways(n - 1, k - 1)
    decreases n
  {
    if n == 1 {
      assert Ways(1, k) == Ways(0, k - 1) + Ways(0, k);
    } else {
      Absorption(n - 1, k - 1);
      Absorption(n - 1, k);
      AbsorptionStep(n, k);
    }
  }

  // ----- sums over all choices -----

  function Dot(m: seq<bool>, r: seq<int>): int
    requires |m| == |r|
  {
    if m == [] then 0 else (if m[0] then r[0] else 0) + Dot(m[1..], r[1..])
  }

  function Sum(r: seq<int>): int {
    if r == [] then 0 else r[0] + Sum(r[1..])
  }

  function Square(x: int): int {
    x * x
  }

  function Squares(r: seq<int>): int {
    if r == [] then 0 else Square(r[0]) + Squares(r[1..])
  }

  predicate Fit(ms: seq<seq<bool>>, n: nat) {
    forall i :: 0 <= i < |ms| ==> |ms[i]| == n
  }

  function Linear(ms: seq<seq<bool>>, r: seq<int>): int
    requires Fit(ms, |r|)
  {
    if ms == [] then 0 else Dot(ms[0], r) + Linear(ms[1..], r)
  }

  function Quadratic(ms: seq<seq<bool>>, r: seq<int>): int
    requires Fit(ms, |r|)
  {
    if ms == [] then 0 else Square(Dot(ms[0], r)) + Quadratic(ms[1..], r)
  }

  lemma {:induction false} SumsConcat(a: seq<seq<bool>>, b: seq<seq<bool>>, r: seq<int>)
    requires Fit(a, |r|) && Fit(b, |r|)
    ensures Fit(a + b, |r|)
    ensures Linear(a + b, r) == Linear(a, r) + Linear(b, r)
    ensures Quadratic(a + b, r) == Quadratic(a, r) + Quadratic(b, r)
  {
    if a == [] {
      assert a + b == b;
    } else {
      assert (a + b)[1..] == a[1..] + b;
      SumsConcat(a[1..], b, r);
    }
  }

  lemma DotPrefixed(x: bool, m: seq<bool>, r: seq<int>)
    requires r != [] && |m| == |r| - 1
    ensures Dot([x] + m, r) == (if x then r[0] else 0) + Dot(m, r[1..])
  {
    assert ([x] + m)[1..] == m;
  }

  lemma Expand(h: int, d: int)
    ensures Square(h + d) == Square(h) + 2 * (h * d) + Square(d)
  {
  }

  /** The sums when the first number is added to each of `ways` choices. */
  function LeadLinear(ways: int, h: int, linear: int): int {
    ways * h + linear
  }

  function LeadSquare(ways: int, h: int, linear: int, squares: int): int {
    ways * Square(h) + 2 * (h * linear) + squares
  }

  lemma NothingLeads(ways: int, linear: int, squares: int)
    ensures LeadLinear(ways, 0, linear) == linear && LeadSquare(ways, 0, linear, squares) == squares
  {
  }

  lemma {:induction false} SumsPrefixed(x: bool, ms: seq<seq<bool>>, r: seq<int>)
    requires r != [] && Fit(ms, |r| - 1)
    ensures Fit(Prefixed(x, ms), |r|)
    ensures var h, out := if x then r[0] else 0, Prefixed(x, ms);
            && Linear(out, r) == LeadLinear(|ms|, h, Linear(ms, r[1..]))
            && Quadratic(out, r) == LeadSquare(|ms|, h, Linear(ms, r[1..]), Quadratic(ms, r[1..]))
  {
    var h, out := if x then r[0] else 0, Prefixed(x, ms);
    if ms != [] {
      SumsPrefixed(x, ms[1..], r);
      assert out[1..] == Prefixed(x, ms[1..]);
      DotPrefixed(x, ms[0], r);
      var d, l := Dot(ms[0], r[1..]), Linear(ms[1..], r[1..]);
      Expand(h, d);
      Distribute(h, d, l);
      OneMore(|ms|, h);
      OneMore(|ms|, Square(h));
    }
  }

  lemma OneMore(n: nat, h: int)
    requires n > 0
    ensures n * h == h + (n - 1) * h
  {
  }

  lemma Distribute(h: int, d: int, l: int)
    ensures h * (d + l) == h * d + h * l
  {
  }

  /** The sum and the sum of squares, over all choices, of what is chosen. */
  lemma {:induction false} SumsOverChoices(r: seq<int>, k: int)
    ensures SumsAreKnown(r, k)
    decreases |r|
  {
    hide SumsAre, Choices, Ways;
    if r != [] {
      SumsOverChoices(r[1..], k - 1);
      SumsOverChoices(r[1..], k);
      SumsOneMore(r, k);
    } else {
      SumsOfNone(k);
    }
  }

  /** The sums over `ms` are these multiples of the sum, the squares and the cross products of `r`. */
  predicate SumsAre(ms: seq<seq<bool>>, r: seq<int>, a: int, b: int) {
    && Fit(ms, |r|)
    && Linear(ms, r) == a * Sum(r)
    && Quadratic(ms, r) == a * Squares(r) + b * (Square(Sum(r)) - Squares(r))
  }

  predicate SumsAreKnown(r: seq<int>, k: int) {
    SumsAre(Choices(|r|, k), r, Ways(|r| - 1, k - 1), Ways(|r| - 2, k - 2))
  }

  lemma SumsOfNone(k: int)
    ensures SumsAreKnown([], k)
  {
    var ms := Choices(0, k);
    assert ms == [] || (ms == [[]] && ms[1..] == []);
  }

  lemma SumsOneMore(r: seq<int>, k: int)
    requires r != []
    requires SumsAre(Choices(|r| - 1, k - 1), r[1..], Ways(|r| - 2, k - 2), Ways(|r| - 3, k - 3))
    requires SumsAre(Choices(|r| - 1, k), r[1..], Ways(|r| - 2, k - 1), Ways(|r| - 3, k - 2))
    ensures SumsAre(Choices(|r|, k), r, Ways(|r| - 1, k - 1), Ways(|r| - 2, k - 2))
  {
    hide *;
    var n := |r|;
    ChoicesSplit(n, k);
    PascalsRules(r, k);
    StepOfSums(r, Choices(n - 1, k - 1), Choices(n - 1, k), Ways(n - 2, k - 2), Ways(n - 3, k - 3),
               Ways(n - 2, k - 1), Ways(n - 3, k - 2));
  }

  lemma ChoicesSplit(n: nat, k: int)
    requires n > 0
    ensures Choices(n, k) == Prefixed(true, Choices(n - 1, k - 1)) + Prefixed(false, Choices(n - 1, k))
    ensures |Choices(n - 1, k - 1)| == Ways(n - 1, k - 1)
  {
    ChoicesAreCounted(n - 1, k - 1);
  }

  /** The sums over all choices, by whether the first number is chosen. */
  lemma SumsOfBoth(r: seq<int>, with: seq<seq<bool>>, without: seq<seq<bool>>)
    requires r != [] && Fit(with, |r| - 1) && Fit(without, |r| - 1)
    ensures var h, t, all := r[0], r[1..], Prefixed(true, with) + Prefixed(false, without);
            && Fit(all, |r|)
            && Linear(all, r) == LeadLinear(|with|, h, Linear(with, t)) + Linear(without, t)
            && Quadratic(all, r) ==
               LeadSquare(|with|, h, Linear(with, t), Quadratic(with, t)) + Quadratic(without, t)
  {
    hide *;
    SumsPrefixed(true, with, r);
    SumsPrefixed(false, without, r);
    NothingLeads(|without|, Linear(without, r[1..]), Quadratic(without, r[1..]));
    SumsConcat(Prefixed(true, with), Prefixed(false, without), r);
  }

  /** Pascal's rule three times over. */
  predicate Pascals(t: seq<int>, a: int, b: int, b2: int, c: int, c2: int) {
    var s, q, d := Sum(t), Squares(t), Square(Sum(t)) - Squares(t);
    b * s + c * s == a * s && b * q + c * q == a * q && b2 * d + c2 * d == b * d
  }

  /** One more number. */
  lemma StepOfSums(r: seq<int>, with: seq<seq<bool>>, without: seq<seq<bool>>, b: int, b2: int, c: int, c2: int)
    requires r != [] && SumsAre(with, r[1..], b, b2) && SumsAre(without, r[1..], c, c2)
    requires Pascals(r[1..], |with|, b, b2, c, c2)
    ensures SumsAre(Prefixed(true, with) + Prefixed(false, without), r, |with|, b)
  {
    var h, s, q := r[0], Sum(r[1..]), Squares(r[1..]);
    SumsOfBoth(r, with, without);
    hide Square, Prefixed, Linear, Quadratic, Fit;
    Expand(h, s);
    Algebra(|with|, b, h, s, q);
  }

  lemma PascalsRules(r: seq<int>, k: int)
    requires r != []
    ensures var n := |r|;
            Pascals(r[1..], Ways(n - 1, k - 1), Ways(n - 2, k - 2), Ways(n - 3, k - 3),
                    Ways(n - 2, k - 1), Ways(n - 3, k - 2))
  {
    hide Ways, Sum, Squares, Square;
    var n, s, q := |r|, Sum(r[1..]), Squares(r[1..]);
    Pascal(r[1..], n - 1, k - 1, s, q);
    PascalTwice(r[1..], n - 2, k - 2, Square(s) - q);
  }

  lemma PascalTimes(n: int, k: int, x: int)
    requires n > 0
    ensures Ways(n - 1, k - 1) * x + Ways(n - 1, k) * x == Ways(n, k) * x
  {
    PascalRule(n, k);
    hide Ways;
  }

  lemma Pascal(t: seq<int>, n: nat, k: int, s: int, q: int)
    requires n == |t| && s == Sum(t) && q == Squares(t)
    ensures Ways(n - 1, k - 1) * s + Ways(n - 1, k) * s == Ways(n, k) * s
    ensures Ways(n - 1, k - 1) * q + Ways(n - 1, k) * q == Ways(n, k) * q
  {
    if n > 0 {
      PascalTimes(n, k, s);
      PascalTimes(n, k, q);
    }
  }

  lemma PascalTwice(t: seq<int>, n: int, k: int, d: int)
    requires n == |t| - 1 && d == Square(Sum(t)) - Squares(t)
    ensures Ways(n - 1, k - 1) * d + Ways(n - 1, k) * d == Ways(n, k) * d
  {
    if n > 0 {
      PascalTimes(n, k, d);
    } else if n == 0 {
      assert t[1..] == [] && Sum(t) == t[0] && Squares(t) == Square(t[0]);
    }
  }

  lemma Algebra(a: int, b: int, h: int, s: int, q: int)
    ensures a * h + a * s == a * (h + s)
    ensures a * Square(h) + 2 * (h * (b * s)) + (a * q + b * (Square(s) - q)) ==
            a * (Square(h) + q) + b * ((Square(h) + 2 * (h * s) + Square(s)) - (Square(h) + q))
  {
    hide Square;
    var p := h * s;
    assert h * (b * s) == b * p;
    Distribute(a, h, s);
    Distribute(a, Square(h), q);
    Distribute(b, 2 * p, Square(s) - q);
    assert b * (2 * p) == 2 * (b * p);
  }

  // ----- scores -----

  /** 1 for a win, -1 for a loss, 0 for a tie. */
  function Sign(y: real, x: real): int {
    Credit(y, x) - 1
  }

  /** Wins less losses against a whole pool. */
  function Score(y: real, w: seq<real>): int {
    CreditAgainst(y, w) - |w|
  }

  function Scores(u: seq<real>, w: seq<real>): (r: seq<int>)
    ensures |r| == |u|
  {
    if u == [] then [] else [Score(u[0], w)] + Scores(u[1..], w)
  }

  function Below(w: seq<real>, x: real): nat {
    if w == [] then 0 else (if w[0] < x then 1 else 0) + Below(w[1..], x)
  }

  function Above(w: seq<real>, x: real): nat {
    if w == [] then 0 else (if w[0] > x then 1 else 0) + Above(w[1..], x)
  }

  function Equal(w: seq<real>, x: real): nat {
    if w == [] then 0 else (if w[0] == x then 1 else 0) + Equal(w[1..], x)
  }

  lemma {:induction false} Sorts(w: seq<real>, x: real)
    ensures Below(w, x) + Equal(w, x) + Above(w, x) == |w|
    ensures Score(x, w) == Below(w, x) - Above(w, x)
    ensures multiset(w)[x] == Equal(w, x)
  {
    if w != [] {
      Sorts(w[1..], x);
      assert w == [w[0]] + w[1..];
    }
  }

  lemma ScoreGrows(y: real, x: real, w: seq<real>)
    ensures Score(y, [x] + w) == Sign(y, x) + Score(y, w)
  {
    assert ([x] + w)[1..] == w;
  }

  /** The sum of `Sign(y, x) * Score(y, w)` over `u`. */
  function Cross(u: seq<real>, x: real, w: seq<real>): int {
    if u == [] then 0 else Sign(u[0], x) * Score(u[0], w) + Cross(u[1..], x, w)
  }

  /** The sum of `Sign(y, x) * Sign(y, h)` over `u`. */
  function Mixed(u: seq<real>, x: real, h: real): int {
    if u == [] then 0 else Sign(u[0], x) * Sign(u[0], h) + Mixed(u[1..], x, h)
  }

  lemma {:induction false} CrossGrows(u: seq<real>, x: real, h: real, w: seq<real>)
    ensures Cross(u, x, [h] + w) == Cross(u, x, w) + Mixed(u, x, h)
  {
    if u != [] {
      CrossGrows(u[1..], x, h, w);
      ScoreGrows(u[0], h, w);
      Distribute(Sign(u[0], x), Score(u[0], w), Sign(u[0], h));
    }
  }

  /** What one more observation adds, by where it stands to `x`. */
  function Gap(w: seq<real>, x: real, h: real): int {
    if h < x then Equal(w, x) + 2 * Above(w, x)
    else if h > x then Equal(w, x) + 2 * Below(w, x)
    else Below(w, x) + Above(w, x)
  }

  lemma {:induction false} GapMeans(w: seq<real>, x: real, h: real)
    ensures Sign(h, x) * Score(h, w) + Mixed(w, x, h) == Gap(w, x, h)
  {
    if w != [] {
      var y, t := w[0], w[1..];
      GapMeans(t, x, h);
      assert w == [y] + t;
      ScoreGrows(h, y, t);
      Distribute(Sign(h, x), Score(h, t), Sign(h, y));
      GapGrows(w, x, h);
    }
  }

  lemma GapGrows(w: seq<real>, x: real, h: real)
    requires w != []
    ensures Sign(h, x) * Sign(h, w[0]) + Sign(w[0], x) * Sign(w[0], h) == Gap(w, x, h) - Gap(w[1..], x, h)
  {
  }

  /** The scores of the pool itself, each taken with its sign towards `x`. */
  lemma {:induction false} CrossOfPool(w: seq<real>, x: real)
    ensures Cross(w, x, w) == 2 * (Below(w, x) * Above(w, x)) + Equal(w, x) * (Below(w, x) + Above(w, x))
  {
    if w != [] {
      var h, t := w[0], w[1..];
      CrossOfPool(t, x);
      assert w == [h] + t;
      ScoreGrows(h, h, t);
      CrossGrows(t, x, h, t);
      GapMeans(t, x, h);
      assert Cross(w, x, w) == Cross(t, x, t) + Gap(t, x, h);
      GapAdds(Below(t, x), Equal(t, x), Above(t, x));
    }
  }

  lemma GapAdds(l: nat, e: nat, g: nat)
    ensures 2 * ((l + 1) * g) + e * (l + 1 + g) == 2 * (l * g) + e * (l + g) + (e + 2 * g)
    ensures 2 * (l * (g + 1)) + e * (l + g + 1) == 2 * (l * g) + e * (l + g) + (e + 2 * l)
    ensures 2 * (l * g) + (e + 1) * (l + g) == 2 * (l * g) + e * (l + g) + (l + g)
  {
  }

  lemma {:induction false} SquaresGrow(u: seq<real>, x: real, w: seq<real>)
    ensures Squares(Scores(u, [x] + w)) ==
            Squares(Scores(u, w)) + 2 * Cross(u, x, w) + Below(u, x) + Above(u, x)
  {
    if u != [] {
      SquaresGrow(u[1..], x, w);
      ScoreGrows(u[0], x, w);
      Expand(Sign(u[0], x), Score(u[0], w));
      assert Scores(u, w)[1..] == Scores(u[1..], w);
      assert Scores(u, [x] + w)[1..] == Scores(u[1..], [x] + w);
    }
  }

  /** What `e` observations gain in weight when their value occurs once more than `m` times. */
  function Growth(e: int, m: int): int {
    e * (2 * m + 1)
  }

  lemma {:induction false} MassGrows(u: seq<real>, x: real, pool: multiset<real>)
    ensures TieMass(u, pool + multiset{x}) == TieMass(u, pool) + Growth(Equal(u, x), pool[x])
  {
    if u != [] {
      MassGrows(u[1..], x, pool);
      var e, c := Equal(u[1..], x), 2 * pool[x] + 1;
      assert (e + 1) * c == e * c + c;
      assert Weight(pool[x] + 1) == Weight(pool[x]) + c;
    }
  }

  /** Scores and ties together make up the cube, however the values tie. */
  lemma {:induction false} ScoresAndTies(w: seq<real>)
    ensures 3 * Squares(Scores(w, w)) + TieMass(w, multiset(w)) == Cube(|w|)
  {
    if w != [] {
      ScoresAndTies(w[1..]);
      ScoresAndTiesAdd(w);
    }
  }

  /** What one more observation adds to the squares and to the ties, with so many below, equal and above. */
  function ScoreGain(l: int, e: int, g: int): int {
    Square(l - g) + 2 * (2 * (l * g) + e * (l + g)) + l + g
  }

  function TieGain(e: int): int {
    Weight(e + 1) + Growth(e, e)
  }

  lemma ScoresAndTiesAdd(w: seq<real>)
    requires w != []
    ensures 3 * Squares(Scores(w, w)) + TieMass(w, multiset(w)) - Cube(|w|) ==
            3 * Squares(Scores(w[1..], w[1..])) + TieMass(w[1..], multiset(w[1..])) - Cube(|w| - 1)
  {
    hide *;
    ScoresAdd(w);
    TiesAdd(w);
    Sorts(w[1..], w[0]);
    CubeAdds(Below(w[1..], w[0]), Equal(w[1..], w[0]), Above(w[1..], w[0]));
  }

  lemma ScoresAdd(w: seq<real>)
    requires w != []
    ensures var x, t := w[0], w[1..];
            var l, e, g := Below(t, x), Equal(t, x), Above(t, x);
            Squares(Scores(w, w)) == Squares(Scores(t, t)) + ScoreGain(l, e, g)
  {
    hide Squares, Scores, Below, Equal, Above, Square, Cross;
    var x, t := w[0], w[1..];
    assert w == [x] + t;
    HeadScore(w);
    SquaresGrow(t, x, t);
    CrossOfPool(t, x);
  }

  lemma HeadScore(w: seq<real>)
    requires w != []
    ensures var d := Below(w[1..], w[0]) - Above(w[1..], w[0]);
            Squares(Scores(w, w)) == Square(d) + Squares(Scores(w[1..], w))
  {
    hide *;
    var x, t := w[0], w[1..];
    assert w == [x] + t;
    OwnScore(x, t);
    Sorts(t, x);
    SquaresHead(x, t, w);
  }

  lemma OwnScore(x: real, t: seq<real>)
    ensures Score(x, [x] + t) == Score(x, t)
  {
    ScoreGrows(x, x, t);
  }

  lemma SquaresHead(x: real, u: seq<real>, w: seq<real>)
    ensures Squares(Scores([x] + u, w)) == Square(Score(x, w)) + Squares(Scores(u, w))
  {
    assert ([x] + u)[1..] == u;
    assert Scores([x] + u, w)[1..] == Scores(u, w);
    hide Score, Square;
  }

  lemma TiesAdd(w: seq<real>)
    requires w != []
    ensures var x, t := w[0], w[1..];
            var e := Equal(t, x);
            TieMass(w, multiset(w)) == TieMass(t, multiset(t)) + TieGain(e)
  {
    hide TieMass, Weight, Growth, Equal;
    var x, t := w[0], w[1..];
    TieMassHead(w, multiset(w));
    assert w == [x] + t;
    assert multiset(w) == multiset(t) + multiset{x};
    Sorts(t, x);
    MassGrows(t, x, multiset(t));
  }

  lemma TieMassHead(w: seq<real>, pool: multiset<real>)
    requires w != []
    ensures TieMass(w, pool) == Weight(pool[w[0]]) + TieMass(w[1..], pool)
  {
    hide Weight;
  }

  lemma CubeAdds(l: nat, e: nat, g: nat)
    ensures 3 * ScoreGain(l, e, g) + TieGain(e) == Cube(l + e + g + 1) - Cube(l + e + g)
  {
    var k := l + g;
    assert k * k == l * l + 2 * (l * g) + g * g;
    assert (l - g) * (l - g) == l * l - 2 * (l * g) + g * g;
    CubeNext(k + e);
    assert (k + e) * (k + e) == k * k + 2 * (e * k) + e * e;
  }

  lemma CubeNext(n: nat)
    ensures Cube(n + 1) - Cube(n) == 3 * (n * n) + 3 * n
  {
    assert (n + 1) * (n + 1) * (n + 1) == n * n * n + 3 * (n * n) + 3 * n + 1;
  }

  // ----- deviations -----

  /** What is chosen, or what is not. */
  function Chosen(w: seq<real>, m: seq<bool>, which: bool): seq<real>
    requires |m| == |w|
  {
    if w == [] then [] else (if m[0] == which then [w[0]] else []) + Chosen(w[1..], m[1..], which)
  }

  lemma {:induction false} ChosenParts(w: seq<real>, m: seq<bool>)
    requires |m| == |w|
    ensures |Chosen(w, m, true)| == Count(m) && |Chosen(w, m, false)| == |w| - Count(m)
    ensures multiset(Chosen(w, m, true) + Chosen(w, m, false)) == multiset(w)
  {
    if w != [] {
      ChosenParts(w[1..], m[1..]);
      assert w == [w[0]] + w[1..];
    }
  }

  lemma {:induction false} CreditOfChosen(w: seq<real>, m: seq<bool>, pool: seq<real>)
    requires |m| == |w|
    ensures PairCredit(Chosen(w, m, true), pool) - Count(m) * |pool| == Dot(m, Scores(w, pool))
  {
    if w != [] {
      CreditOfChosen(w[1..], m[1..], pool);
      assert Scores(w, pool)[1..] == Scores(w[1..], pool);
      var rest := Chosen(w[1..], m[1..], true);
      if m[0] {
        assert Chosen(w, m, true)[1..] == rest;
        OneMore(Count(m), |pool|);
      } else {
        assert Chosen(w, m, true) == rest;
      }
    }
  }

  /** How far the pair count of this choice is from one half of all pairs; doubled, like all pair counts. */
  function Deviation(w: seq<real>, m: seq<bool>): int
    requires |m| == |w|
  {
    PairCredit(Chosen(w, m, true), Chosen(w, m, false)) - Count(m) * (|w| - Count(m))
  }

  lemma DeviationIsScore(w: seq<real>, m: seq<bool>)
    requires |m| == |w|
    ensures Deviation(w, m) == Dot(m, Scores(w, w))
  {
    var a, b := Chosen(w, m, true), Chosen(w, m, false);
    ChosenParts(w, m);
    CreditOfChosen(w, m, w);
    PairCreditPermutedRight(a, a + b, w);
    PairCreditConcatRight(a, a, b);
    PairsAreShared(a, a);
    assert Count(m) * |w| == Count(m) * Count(m) + Count(m) * (|w| - Count(m));
  }

  function Deviations(w: seq<real>, ms: seq<seq<bool>>): int
    requires Fit(ms, |w|)
  {
    if ms == [] then 0 else Deviation(w, ms[0]) + Deviations(w, ms[1..])
  }

  function SquaredDeviations(w: seq<real>, ms: seq<seq<bool>>): int
    requires Fit(ms, |w|)
  {
    if ms == [] then 0 else Square(Deviation(w, ms[0])) + SquaredDeviations(w, ms[1..])
  }

  lemma {:induction false} DeviationsAreScores(w: seq<real>, ms: seq<seq<bool>>)
    requires Fit(ms, |w|)
    ensures Deviations(w, ms) == Linear(ms, Scores(w, w))
    ensures SquaredDeviations(w, ms) == Quadratic(ms, Scores(w, w))
  {
    if ms != [] {
      DeviationIsScore(w, ms[0]);
      DeviationsAreScores(w, ms[1..]);
    }
  }

  lemma {:induction false} SumOfScores(u: seq<real>, w: seq<real>)
    ensures Sum(Scores(u, w)) == PairCredit(u, w) - |u| * |w|
  {
    if u != [] {
      SumOfScores(u[1..], w);
      OneMore(|u|, |w|);
    }
  }

  /** Marking one of the chosen, in the two ways of counting it; and once more. */
  predicate Marks(n: nat, k: nat, ways: int, a: int, b: int) {
    ways > 0 && k * ways == n * a && (k - 1) * a == (n - 1) * b
  }

  predicate Balances(a: int, b: int, r: int, sum: int) {
    sum == a * r - b * r
  }

  /** `sum / ways`, the mean, is `k (n - k) x / (3 n (n - 1))`. */
  predicate Averages(n: nat, k: nat, ways: int, sum: int, x: int) {
    3 * (n * (n - 1)) * sum == k * (n - k) * ways * x
  }

  lemma Solve(n: nat, k: nat, ways: int, a: int, b: int, r: int, sum: int)
    requires Marks(n, k, ways, a, b) && Balances(a, b, r, sum)
    ensures Averages(n, k, ways, sum, 3 * r)
  {
    Twice(n, k, ways, a, b);
    assert sum == (a - b) * r;
  }

  lemma Twice(n: nat, k: nat, ways: int, a: int, b: int)
    requires Marks(n, k, ways, a, b)
    ensures n * (n - 1) * (a - b) == k * (n - k) * ways
  {
    assert n * (n - 1) * a == (n - 1) * (k * ways);
    assert n * ((n - 1) * b) == (k - 1) * (n * a);
  }

  lemma WaysToMark(n: nat, k: nat)
    requires 0 < k < n
    ensures |Choices(n, k)| > 0
    ensures Marks(n, k, |Choices(n, k)|, Ways(n - 1, k - 1), Ways(n - 2, k - 2))
  {
    hide Ways, Choices;
    ChoicesAreCounted(n, k);
    Absorption(n, k);
    Absorption(n - 1, k - 1);
    SomeWay(n, k);
  }

  lemma SumsBalance(r: seq<int>, k: int)
    requires SumsAreKnown(r, k) && Sum(r) == 0
    ensures Fit(Choices(|r|, k), |r|)
    ensures Balances(Ways(|r| - 1, k - 1), Ways(|r| - 2, k - 2), Squares(r), Quadratic(Choices(|r|, k), r))
  {
    hide Ways, Choices, Squares, Quadratic, Linear, Sum, Fit;
  }

  lemma NobodyIsAhead(w: seq<real>)
    ensures Sum(Scores(w, w)) == 0
  {
    hide Sum, Scores, PairCredit;
    SumOfScores(w, w);
    PairsAreShared(w, w);
  }

  /**
   The mean of the squared deviations over all choices of `k` observations as the first sample, for
   every pool, by the size of the pool and the weight of its ties.
   */
  lemma MeanSquaredDeviation(w: seq<real>, k: nat)
    requires 0 < k < |w|
    ensures Fit(Choices(|w|, k), |w|) && |Choices(|w|, k)| > 0
    ensures Averages(|w|, k, |Choices(|w|, k)|, SquaredDeviations(w, Choices(|w|, k)),
                     Cube(|w|) - TieMass(w, multiset(w)))
  {
    hide *;
    var n, ms := |w|, Choices(|w|, k);
    WaysToMark(n, k);
    DeviationsBalance(w, k);
    Solve(n, k, |ms|, Ways(n - 1, k - 1), Ways(n - 2, k - 2), Squares(Scores(w, w)), SquaredDeviations(w, ms));
    ScoresAndTies(w);
  }

  lemma DeviationsBalance(w: seq<real>, k: nat)
    ensures Fit(Choices(|w|, k), |w|)
    ensures Balances(Ways(|w| - 1, k - 1), Ways(|w| - 2, k - 2), Squares(Scores(w, w)),
                     SquaredDeviations(w, Choices(|w|, k)))
  {
    hide *;
    var r := Scores(w, w);
    NobodyIsAhead(w);
    SumsOverChoices(r, k);
    SumsBalance(r, k);
    DeviationsAreScores(w, Choices(|w|, k));
  }

  /** And what they are deviations from is the mean: over all choices they cancel. */
  lemma DeviationsCancel(w: seq<real>, k: int)
    ensures Fit(Choices(|w|, k), |w|) && Deviations(w, Choices(|w|, k)) == 0
  {
    var r := Scores(w, w);
    SumsOverChoices(r, k);
    assert SumsAreKnown(r, k);
    NobodyIsAhead(w);
    DeviationsAreScores(w, Choices(|w|, k));
  }

  lemma {:induction false} SomeWay(n: nat, k: nat)
    requires k <= n
    ensures Ways(n, k) > 0
    decreases n
  {
    if k > 0 {
      SomeWay(n - 1, k - 1);
    } else if n > 0 {
      SomeWay(n - 1, 0);
    }
  }
}
