/**
 The latency statistics of `work_fn` in arbitration_read.cc: the i-th start is paired
 with the i-th end, whichever commands they belong to.
 */
module Latency {
  import opened Arithmetic

  function Sum(s: seq<int>): int {
    if s == [] then 0 else Sum(s[..|s| - 1]) + s[|s| - 1]
  }

  function Dot(a: seq<int>, b: seq<int>): int
    requires |a| == |b|
  {
    if a == [] then 0 else Dot(a[..|a| - 1], b[..|b| - 1]) + a[|a| - 1] * b[|b| - 1]
  }

  ghost predicate Ascending(s: seq<int>) { forall i, j | 0 <= i <= j < |s| :: s[i] <= s[j] }

  /** `ends[i] - starts[i]`, for as many as there are starts. */
  function Deltas(starts: seq<int>, ends: seq<int>): (d: seq<int>)
    requires |starts| <= |ends|
    ensures |d| == |starts| && forall i | 0 <= i < |d| :: d[i] == ends[i] - starts[i]
  {
    if starts == [] then []
    else Deltas(starts[..|starts| - 1], ends) + [ends[|starts| - 1] - starts[|starts| - 1]]
  }

  /** The start times in the order in which their commands completed. */
  function Pick(s: seq<int>, order: seq<nat>): (r: seq<int>)
    requires forall k | 0 <= k < |order| :: order[k] < |s|
    ensures |r| == |order| && forall k | 0 <= k < |r| :: r[k] == s[order[k]]
  {
    if order == [] then []
    else Pick(s, order[..|order| - 1]) + [s[order[|order| - 1]]]
  }

  ghost predicate Permutes(order: seq<nat>, n: nat) {
    && |order| == n
    && (forall k | 0 <= k < n :: order[k] < n)
    && (forall i, j | 0 <= i < j < n :: order[i] != order[j])
    && (forall v: nat | v < n :: v in order)
  }

  // ---- The total of a cost over paired times

  /** The cost of pairing the i-th end with the i-th start, over all i. */
  function Total(cost: (int, int) -> int, e: seq<int>, s: seq<int>): int
    requires |e| == |s|
  {
    if e == [] then 0 else Total(cost, e[..|e| - 1], s[..|s| - 1]) + cost(e[|e| - 1], s[|s| - 1])
  }

  /** Pairing early with early and late with late costs no more than crossing over. */
  ghost predicate Monge(cost: (int, int) -> int) { forall a, b, p, q :: Uncrossed(cost, a, b, p, q) }

  ghost predicate Uncrossed(cost: (int, int) -> int, a: int, b: int, p: int, q: int) {
    a <= b && p <= q ==> cost(a, p) + cost(b, q) <= cost(a, q) + cost(b, p)
  }

  lemma {:induction false} TotalUpdate(cost: (int, int) -> int, e: seq<int>, x: seq<int>, j: nat, v: int)
    requires |e| == |x| && j < |x|
    ensures Total(cost, e, x[j := v]) == Total(cost, e, x) - cost(e[j], x[j]) + cost(e[j], v)
  {
    var n := |x| - 1;
    if j == n {
      assert x[j := v][..n] == x[..n];
    } else {
      assert x[j := v][..n] == x[..n][j := v];
      TotalUpdate(cost, e[..n], x[..n], j, v);
    }
  }

  // ---- The rearrangement argument

  /** Bring the greatest start to the end: exchange it with the one that completed last. */
  lemma Exchange(order: seq<nat>, n: nat) returns (j: nat, rest: seq<nat>)
    requires n > 0 && Permutes(order, n)
    ensures j < n && order[j] == n - 1
    ensures rest == order[j := order[n - 1]][..n - 1] && Permutes(rest, n - 1)
  {
    assert n - 1 in order;
    j :| 0 <= j < n && order[j] == n - 1;
    rest := order[j := order[n - 1]][..n - 1];
    forall v: nat | v < n - 1 ensures v in rest {
      assert v in order;
      var k :| 0 <= k < n && order[k] == v;
      assert rest[if k == n - 1 then j else k] == v;
    }
  }

  /** The exchange on the start times themselves. */
  lemma PickExchange(s: seq<int>, order: seq<nat>, j: nat, rest: seq<nat>)
    requires s != [] && Permutes(order, |s|) && j < |s| && order[j] == |s| - 1
    requires rest == order[j := order[|s| - 1]][..|s| - 1] && Permutes(rest, |s| - 1)
    ensures var n, x := |s| - 1, Pick(s, order);
            x[j] == s[n] && x[j := x[n]][..n] == Pick(s[..n], rest)
  {
    var n, x := |s| - 1, Pick(s, order);
    assert forall k | 0 <= k < n :: x[j := x[n]][k] == s[rest[k]] == s[..n][rest[k]];
  }

  /** The exchange on the total. */
  lemma ExchangeTotal(cost: (int, int) -> int, e: seq<int>, x: seq<int>, j: nat)
    requires Monge(cost) && |e| == |x| > 0 && j < |x| && Ascending(e) && x[|x| - 1] <= x[j]
    ensures var n := |x| - 1; Total(cost, e[..n], x[j := x[n]][..n]) + cost(e[n], x[j]) <= Total(cost, e, x)
  {
    var n := |x| - 1;
    TotalUpdate(cost, e, x, j, x[n]);
    assert Uncrossed(cost, e[j], e[n], x[n], x[j]);
  }

  lemma RearrangeStep(cost: (int, int) -> int, e: seq<int>, s: seq<int>, order: seq<nat>, j: nat, rest: seq<nat>)
    requires Monge(cost) && |e| == |s| > 0 && Ascending(e) && Ascending(s) && Permutes(order, |s|)
    requires j < |s| && order[j] == |s| - 1
    requires rest == order[j := order[|s| - 1]][..|s| - 1] && Permutes(rest, |s| - 1)
    requires var n := |s| - 1; Total(cost, e[..n], s[..n]) <= Total(cost, e[..n], Pick(s[..n], rest))
    ensures Total(cost, e, s) <= Total(cost, e, Pick(s, order))
  {
    var n, x := |s| - 1, Pick(s, order);
    PickExchange(s, order, j, rest);
    assert x[n] <= x[j];
    ExchangeTotal(cost, e, x, j);
  }

  /** Rearrangement: no order of completion costs less than the order of submission. */
  lemma {:induction false} Rearrangement(cost: (int, int) -> int, e: seq<int>, s: seq<int>, order: seq<nat>)
    requires Monge(cost) && |e| == |s| && Ascending(e) && Ascending(s) && Permutes(order, |s|)
    ensures Total(cost, e, s) <= Total(cost, e, Pick(s, order))
    decreases |s|
  {
    if s != [] {
      var n := |s| - 1;
      var j, rest := Exchange(order, |s|);
      Rearrangement(cost, e[..n], s[..n], rest);
      RearrangeStep(cost, e, s, order, j, rest);
    }
  }

  // ---- The costs that matter

  const SQUARE: (int, int) -> int := (e, s) => (e - s) * (e - s)
  const LATENCY: (int, int) -> int := (e, s) => e - s
  const HASTE: (int, int) -> int := (e, s) => s - e

  lemma SquareIsMonge()
    ensures Monge(SQUARE)
  {
    forall a, b, p, q ensures Uncrossed(SQUARE, a, b, p, q) {
      assert a <= b && p <= q ==> (b - a) * (q - p) >= 0;
      assert (a - q) * (a - q) + (b - p) * (b - p) - (a - p) * (a - p) - (b - q) * (b - q) == 2 * ((b - a) * (q - p));
    }
  }

  lemma {:induction false} TotalsOfDeltas(s: seq<int>, e: seq<int>)
    requires |s| == |e|
    ensures Sum(Deltas(s, e)) == Total(LATENCY, e, s) == -Total(HASTE, e, s)
    ensures Dot(Deltas(s, e), Deltas(s, e)) == Total(SQUARE, e, s)
  {
    if s != [] {
      var n := |s| - 1;
      assert Deltas(s, e)[..n] == Deltas(s[..n], e[..n]);
      TotalsOfDeltas(s[..n], e[..n]);
    }
  }

  /** The variance, scaled by the square of the count so that it stays an integer. */
  function Variance(d: seq<int>): int { |d| * Dot(d, d) - Sum(d) * Sum(d) }

  /** How far `x` is from each of them, squared. */
  function Spread(d: seq<int>, x: int): int {
    if d == [] then 0
    else
      var n := |d| - 1;
      Spread(d[..n], x) + (d[n] - x) * (d[n] - x)
  }

  /** How far they are from each other, squared, over all pairs. */
  function PairSpread(d: seq<int>): int {
    if d == [] then 0
    else
      var n := |d| - 1;
      PairSpread(d[..n]) + Spread(d[..n], d[n])
  }

  lemma {:induction false} SpreadExpands(d: seq<int>, x: int)
    ensures Spread(d, x) == Dot(d, d) - 2 * x * Sum(d) + |d| * (x * x) >= 0
  {
    if d != [] {
      var n := |d| - 1;
      SpreadExpands(d[..n], x);
      OneMore(n, Dot(d[..n], d[..n]), Sum(d[..n]), d[n], x);
    }
  }

  lemma OneMore(n: int, dot: int, sum: int, a: int, x: int)
    ensures (dot - 2 * x * sum + n * (x * x)) + (a - x) * (a - x)
            == (dot + a * a) - 2 * x * (sum + a) + (n + 1) * (x * x)
    ensures (a - x) * (a - x) >= 0
  {
    var q := x * x;
    assert (a - x) * (a - x) == a * a - 2 * x * a + q;
    assert 2 * x * (sum + a) == 2 * x * sum + 2 * x * a;
    assert (n + 1) * q == n * q + q;
    NotNegative(a - x);
  }

  lemma NotNegative(c: int)
    ensures c * c >= 0
  {
  }

  /** The variance is the spread over all pairs, whatever the mean: never negative, zero only for equal latencies. */
  lemma {:induction false} VarianceIsSpread(d: seq<int>)
    ensures Variance(d) == PairSpread(d) >= 0
  {
    if d != [] {
      var n := |d| - 1;
      var b, x := d[..n], d[n];
      VarianceIsSpread(b);
      SpreadExpands(b, x);
      Expand(n, Dot(b, b), Sum(b), x);
    }
  }

  lemma Expand(n: int, dot: int, sum: int, x: int)
    ensures (n + 1) * (dot + x * x) - (sum + x) * (sum + x)
            == (n * dot - sum * sum) + (dot - 2 * x * sum + n * (x * x))
  {
    var q := x * x;
    assert (n + 1) * (dot + q) == n * dot + n * q + dot + q;
    assert (sum + x) * (sum + x) == sum * sum + 2 * x * sum + q;
  }

  lemma VarianceOrder(a: seq<int>, b: seq<int>)
    requires |a| == |b| && Sum(a) == Sum(b) && Dot(a, a) <= Dot(b, b)
    ensures Variance(a) <= Variance(b)
  {
    ScaleUp(|a|, Dot(a, a), Dot(b, b));
  }

  /** What the statistics make of the paired times, against the true latencies of the commands. */
  ghost predicate Blind(starts: seq<int>, ends: seq<int>, order: seq<nat>)
    requires |starts| == |ends| == |order| && forall k | 0 <= k < |order| :: order[k] < |starts|
  {
    var paired, actual := Deltas(starts, ends), Deltas(Pick(starts, order), ends);
    && Sum(paired) == Sum(actual) && Dot(paired, paired) <= Dot(actual, actual)
    && Variance(paired) <= Variance(actual)
  }

  /**
   Pairing by position is blind to the order of completion: the sum, hence the mean, is
   the true one, and the squares, hence the variance, never exceed the true ones.
   */
  lemma OrderBlind(starts: seq<int>, ends: seq<int>, order: seq<nat>)
    requires |starts| == |ends| && Ascending(starts) && Ascending(ends) && Permutes(order, |starts|)
    ensures Blind(starts, ends, order)
  {
    SquareIsMonge();
    Rearrangement(SQUARE, ends, starts, order);
    Rearrangement(LATENCY, ends, starts, order);
    Rearrangement(HASTE, ends, starts, order);
    TotalsOfDeltas(starts, ends);
    TotalsOfDeltas(Pick(starts, order), ends);
    VarianceOrder(Deltas(starts, ends), Deltas(Pick(starts, order), ends));
  }

  /** The loops of `work_fn` over the recorded times; indexing `etimes` is what it demands of them. */
  method Statistics(stimes: seq<int>, etimes: seq<int>) returns (sum: int, sqSum: int)
    requires |stimes| <= |etimes|
    ensures sum == Sum(Deltas(stimes, etimes))
    ensures sqSum == Dot(Deltas(stimes, etimes), Deltas(stimes, etimes))
  {
    var deltas: seq<int> := [];
    for i := 0 to |stimes|
      invariant deltas == Deltas(stimes, etimes)[..i]
    {
      deltas := deltas + [etimes[i] - stimes[i]];
    }
    assert deltas == Deltas(stimes, etimes);
    sum, sqSum := 0, 0;
    for i := 0 to |deltas|
      invariant sum == Sum(deltas[..i])
      invariant sqSum == Dot(deltas[..i], deltas[..i])
    {
      assert deltas[..i + 1][..i] == deltas[..i];
      sum := sum + deltas[i];
      sqSum := sqSum + deltas[i] * deltas[i];
    }
    assert deltas[..|deltas|] == deltas;
  }
}
