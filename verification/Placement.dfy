/** `nvmf_schedule_spdk_thread`: placing a lightweight thread on a reactor, round robin. */
module Placement {
  import opened Options
  import opened Arithmetic

  /** The reactor probed `k` steps after the cursor; a cursor of `n` is the null pointer. */
  function Position(n: nat, cursor: nat, k: nat): (r: nat)
    requires cursor <= n && k < n
    ensures r < n
  {
    var start := if cursor == n then 0 else cursor;
    if start + k < n then start + k else start + k - n
  }

  predicate AnyEligible(cores: seq<nat>, mask: set<nat>) {
    exists r | 0 <= r < |cores| :: cores[r] in mask
  }

  /** `r` is the first reactor in circular order from the cursor whose core is in the mask. */
  ghost predicate FirstEligible(cores: seq<nat>, cursor: nat, mask: set<nat>, r: nat)
    requires |cores| > 0 && cursor <= |cores|
  {
    exists k: nat | k < |cores| ::
      && r == Position(|cores|, cursor, k)
      && cores[r] in mask
      && forall j: nat | j < k :: cores[Position(|cores|, cursor, j)] !in mask
  }

  /** Search from the `k`-th probe on. */
  function Probe(cores: seq<nat>, cursor: nat, mask: set<nat>, k: nat): (r: Option<nat>)
    requires |cores| > 0 && cursor <= |cores| && k <= |cores|
    ensures r.Some? ==> r.value < |cores| && cores[r.value] in mask
    decreases |cores| - k
  {
    if k == |cores| then None
    else if cores[Position(|cores|, cursor, k)] in mask then Some(Position(|cores|, cursor, k))
    else Probe(cores, cursor, mask, k + 1)
  }

  function Place(cores: seq<nat>, cursor: nat, mask: set<nat>): Option<nat>
    requires |cores| > 0 && cursor <= |cores|
  {
    Probe(cores, cursor, mask, 0)
  }

  /** Where the cursor is left: behind the chosen reactor, or where it was after a full round. */
  function NextCursor(n: nat, cursor: nat, chosen: Option<nat>): (c: nat)
    requires n > 0 && cursor <= n && (chosen.Some? ==> chosen.value < n)
    ensures c <= n
  {
    if chosen.Some? then chosen.value + 1 else if cursor == 0 then n else cursor
  }

  /** How far reactor `r` is from the cursor, going round. */
  function Distance(n: nat, cursor: nat, r: nat): nat
    requires n > 0 && cursor <= n && r < n
  {
    var start := if cursor == n then 0 else cursor;
    if start <= r then r - start else r + n - start
  }

  lemma DistanceIsModulo(n: nat, cursor: nat, r: nat)
    requires n > 0 && cursor <= n && r < n
    ensures Distance(n, cursor, r) == (r + n - (if cursor == n then 0 else cursor)) % n
  {
    var start := if cursor == n then 0 else cursor;
    Remainder(n, if start <= r then 1 else 0, Distance(n, cursor, r), r + n - start);
  }

  /** The `k`-th probe is `k` steps round from the cursor. */
  lemma PositionIsAt(n: nat, cursor: nat, k: nat)
    requires cursor <= n && k < n
    ensures Distance(n, cursor, Position(n, cursor, k)) == k
  {
  }

  /** One round from the cursor meets every reactor. */
  lemma RoundCovers(n: nat, cursor: nat, r: nat) returns (k: nat)
    requires n > 0 && cursor <= n && r < n
    ensures k < n && Position(n, cursor, k) == r
  {
    var start := if cursor == n then 0 else cursor;
    k := if r >= start then r - start else r + n - start;
  }

  lemma {:induction false} ProbeIsFirst(cores: seq<nat>, cursor: nat, mask: set<nat>, k: nat)
    requires |cores| > 0 && cursor <= |cores| && k <= |cores|
    requires forall j: nat | j < k :: cores[Position(|cores|, cursor, j)] !in mask
    ensures var r := Probe(cores, cursor, mask, k);
            && (r.Some? ==> FirstEligible(cores, cursor, mask, r.value))
            && (r.None? ==> !AnyEligible(cores, mask))
    decreases |cores| - k
  {
    var n := |cores|;
    if k == n {
      forall r | 0 <= r < n ensures cores[r] !in mask {
        var j := RoundCovers(n, cursor, r);
        assert cores[Position(n, cursor, j)] !in mask;
      }
    } else if cores[Position(n, cursor, k)] !in mask {
      ProbeIsFirst(cores, cursor, mask, k + 1);
    }
  }

  /** The placement is the first eligible reactor in circular order, and fails exactly when there is none. */
  lemma PlaceIsFirst(cores: seq<nat>, cursor: nat, mask: set<nat>)
    requires |cores| > 0 && cursor <= |cores|
    ensures Place(cores, cursor, mask).Some? <==> AnyEligible(cores, mask)
    ensures Place(cores, cursor, mask).Some? ==> FirstEligible(cores, cursor, mask, Place(cores, cursor, mask).value)
  {
    ProbeIsFirst(cores, cursor, mask, 0);
  }

  /**
   Of all eligible reactors the chosen one is the nearest round from the cursor; the
   cursor is left just behind it, and where it was if there is none, except that after a
   whole round it stands behind the last reactor instead of before the first.
   */
  lemma PlaceIsNearest(cores: seq<nat>, cursor: nat, mask: set<nat>)
    requires |cores| > 0 && cursor <= |cores|
    ensures var n, chosen := |cores|, Place(cores, cursor, mask);
            && (chosen.Some? ==> cores[chosen.value] in mask)
            && (forall q | 0 <= q < n && cores[q] in mask ::
                  chosen.Some? && Distance(n, cursor, chosen.value) <= Distance(n, cursor, q))
            && (chosen.Some? ==> NextCursor(n, cursor, chosen) == chosen.value + 1)
            && (chosen.None? && 0 < cursor ==> NextCursor(n, cursor, chosen) == cursor)
            && (chosen.None? && cursor == 0 ==> NextCursor(n, cursor, chosen) == n)
  {
    var n, chosen := |cores|, Place(cores, cursor, mask);
    PlaceIsFirst(cores, cursor, mask);
    forall q | 0 <= q < n && cores[q] in mask
      ensures chosen.Some? && Distance(n, cursor, chosen.value) <= Distance(n, cursor, q)
    {
      var j := RoundCovers(n, cursor, q);
      PositionIsAt(n, cursor, j);
      var k: nat :| k < n && chosen.value == Position(n, cursor, k)
        && forall i: nat | i < k :: cores[Position(n, cursor, i)] !in mask;
      PositionIsAt(n, cursor, k);
    }
  }

  /** A thread bound to one core goes to that core's reactor wherever the cursor stands. */
  lemma PinnedPlacement(cores: seq<nat>, cursor: nat, r: nat)
    requires cursor <= |cores| && r < |cores|
    requires forall i, j | 0 <= i < j < |cores| :: cores[i] != cores[j]
    ensures Place(cores, cursor, {cores[r]}) == Some(r)
  {
    PlaceIsFirst(cores, cursor, {cores[r]});
    assert cores[r] in {cores[r]};
  }

  ghost predicate Distinct(probed: seq<nat>) { forall i, j | 0 <= i < j < |probed| :: probed[i] != probed[j] }

  /** The next probe is a new one. */
  lemma NotProbed(n: nat, cursor: nat, probed: seq<nat>)
    requires cursor <= n && |probed| < n && Distinct(probed)
    requires forall j | 0 <= j < |probed| :: probed[j] == Position(n, cursor, j)
    ensures Distinct(probed + [Position(n, cursor, |probed|)])
  {
    PositionIsAt(n, cursor, |probed|);
    forall j | 0 <= j < |probed| ensures probed[j] != Position(n, cursor, |probed|) {
      PositionIsAt(n, cursor, j);
    }
  }

  class Scheduler {
    const cores: seq<nat>          // the reactors' cores, in list order
    var next: nat                  // g_next_reactor; |cores| is NULL
    var rings: seq<seq<nat>>       // one FIFO of lightweight threads per reactor

    ghost predicate Valid() reads this {
      |cores| > 0 && |rings| == |cores| && next <= |cores|
    }

    constructor (cores: seq<nat>, main: nat)
      requires |cores| > 0 && main < |cores|
      ensures Valid() && this.cores == cores && next == main
      ensures forall r | 0 <= r < |rings| :: rings[r] == []
    {
      this.cores := cores;
      next := main;
      rings := seq(|cores|, _ => []);
    }

    /**
     The loop of `nvmf_schedule_spdk_thread`, under the mutex. Exactly one ring grows
     on success, none on failure, and no reactor is probed twice.
     */
    method Schedule(thread: nat, cpumask: set<nat>) returns (rc: int, ghost probed: seq<nat>)
      requires Valid()
      modifies this`next, this`rings
      ensures Valid()
      ensures Distinct(probed)
      ensures forall i | 0 <= i < |probed| ::
                probed[i] < |cores| && (cores[probed[i]] in cpumask <==> rc == 0 && i == |probed| - 1)
      ensures rc == 0 <==> AnyEligible(cores, cpumask)
      ensures rc == 0 || rc == -1
      ensures var chosen := Place(cores, old(next), cpumask);
              && next == NextCursor(|cores|, old(next), chosen)
              && rings == if chosen.Some? then old(rings)[chosen.value := old(rings)[chosen.value] + [thread]]
                          else old(rings)
    {
      var i := 0;
      var n := |cores|;
      probed := [];
      ghost var start := next;
      PlaceIsFirst(cores, start, cpumask);
      while i < n
        invariant 0 <= i <= n && Valid() && rings == old(rings)
        invariant Place(cores, start, cpumask) == Probe(cores, start, cpumask, i)
        invariant |probed| == i && Distinct(probed)
        invariant forall j | 0 <= j < i :: probed[j] == Position(n, start, j) && cores[probed[j]] !in cpumask
        invariant i == 0 ==> next == start
        invariant i > 0 ==> next == Position(n, start, i - 1) + 1
      {
        if next == n {
          next := 0;
        }
        var reactor := next;
        next := next + 1;
        assert reactor == Position(n, start, i);
        NotProbed(n, start, probed);
        probed := probed + [reactor];
        if cores[reactor] in cpumask {
          rings := rings[reactor := rings[reactor] + [thread]];
          return 0, probed;
        }
        i := i + 1;
      }
      rc := -1;
    }
  }
}
