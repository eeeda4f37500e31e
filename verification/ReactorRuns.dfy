/** Thread conservation and poll-group rotation over every interleaving of the reactors. */
module ReactorRuns {
  import opened Arithmetic
  import opened Placement
  import opened Reactors

  // ---- Conservation

  lemma {:induction false} NothingInRings(rings: seq<seq<Tid>>, t: Tid)
    requires forall r | 0 <= r < |rings| :: rings[r] == []
    ensures RingCount(rings, t) == 0
  {
    if rings != [] {
      assert rings[0] == [];
      NothingInRings(rings[1..], t);
    }
  }

  lemma {:induction false} NothingInHands(phases: seq<Phase>, t: Tid)
    requires forall r | 0 <= r < |phases| :: phases[r] == Running
    ensures HandCount(phases, t) == 0
  {
    if phases != [] {
      assert phases[0] == Running;
      NothingInHands(phases[1..], t);
    }
  }

  lemma BootKeeps(s: Sys, t: Tid, mask: set<nat>)
    requires Init(s)
    ensures Inv(Boot(s, t, mask))
  {
    var s1 := s.(lw := map[t := Lw(mask, false, false, false)], moves := map[t := 0]);
    forall u: Tid ensures Count(s1, u) == 0 {
      NothingInRings(s1.rings, u);
      NothingInHands(s1.phases, u);
    }
    ScheduleSettles(s1, t);
  }

  lemma {:induction false} RunKeeps(states: seq<Sys>, steps: seq<Step>, i: nat)
    requires IsRun(states, steps) && i < |states|
    ensures Inv(states[i])
  {
    if i == 0 {
      var s, t, mask :| Init(s) && states[0] == Boot(s, t, mask);
      BootKeeps(s, t, mask);
    } else {
      RunKeeps(states, steps, i - 1);
      StepKeeps(states[i - 1], steps[i - 1]);
    }
  }

  /** At all times every thread is in exactly one place, and where it wants to be unless it asked to move. */
  lemma ThreadConservation(states: seq<Sys>, steps: seq<Step>, i: nat)
    requires IsRun(states, steps) && i < |states|
    ensures Conserved(states[i])
    ensures WellFormed(states[i]) && Affine(states[i])
  {
    RunKeeps(states, steps, i);
  }

  // ---- When a thread is lost

  /** Every cpumask handed to the scheduler contains some reactor's core. */
  ghost predicate MaskOk(s: Sys, step: Step) {
    && (step.Poll? && step.e.SetMask? ==> AnyEligible(s.cores, step.e.mask))
    && (step.Poll? && step.e.Spawn? ==> AnyEligible(s.cores, step.e.mask))
  }

  ghost predicate MasksOk(s: Sys) { forall t | t in s.lw :: AnyEligible(s.cores, s.lw[t].mask) }

  lemma MaskPoll(s: Sys, r: nat, e: Effect)
    requires MasksOk(s) && Enabled(s, Poll(r, e)) && MaskOk(s, Poll(r, e))
    ensures MasksOk(Do(s, Poll(r, e)))
  {
    var q := NextReactor(|s.cores|, r);
    assert AnyEligible(s.cores, {s.cores[q]}) by {
      assert s.cores[q] in {s.cores[q]};
    }
  }

  lemma MaskStep(s: Sys, step: Step)
    requires MasksOk(s) && Enabled(s, step) && MaskOk(s, step)
    ensures MasksOk(Do(s, step))
  {
    if step.Poll? {
      MaskPoll(s, step.r, step.e);
    } else if step.Release? {
      var t, s' := s.phases[step.r].t, Do(s, step);
      assert s'.lw == s.lw || s'.lw == s.lw[t := s.lw[t].(resched := false)];
    }
  }

  lemma {:induction false} MasksStayOk(states: seq<Sys>, steps: seq<Step>, i: nat)
    requires IsRun(states, steps) && MasksOk(states[0]) && i < |states|
    requires forall j | 0 <= j < |steps| :: MaskOk(states[j], steps[j])
    ensures MasksOk(states[i])
  {
    if i > 0 {
      MasksStayOk(states, steps, i - 1);
      MaskStep(states[i - 1], steps[i - 1]);
    }
  }

  /** If every mask has a reactor, no thread is ever lost. */
  lemma NoThreadLost(states: seq<Sys>, steps: seq<Step>, i: nat)
    requires IsRun(states, steps) && MasksOk(states[0]) && i < |states|
    requires forall j | 0 <= j < |steps| :: MaskOk(states[j], steps[j])
    ensures states[i].lost == {}
  {
    MasksStayOk(states, steps, i);
    RunKeeps(states, steps, i);
  }

  /** A released thread is lost exactly when it asked to move to cores no reactor runs on. */
  lemma LostExactly(s: Sys, r: nat)
    requires Inv(s) && Enabled(s, Release(r))
    ensures var t := s.phases[r].t;
            t in Do(s, Release(r)).lost <==>
            s.lw[t].resched && !(s.lw[t].exited && s.lw[t].idle) && !AnyEligible(s.cores, s.lw[t].mask)
  {
    var t := s.phases[r].t;
    LetGoLoosens(s, r, Running, Moved(s, t));
    LooseIsNowhere(s.(phases := s.phases[r := Running], moves := Moved(s, t)), t);
    PlaceIsFirst(s.cores, s.cursor, s.lw[t].mask);
  }

  /** A lost thread never runs again: no ring and no reactor ever has it. */
  lemma LostForever(states: seq<Sys>, steps: seq<Step>, i: nat, j: nat, t: Tid)
    requires IsRun(states, steps) && i <= j < |states| && t in states[i].lost
    ensures t in states[j].lost
    ensures |states[j].rings| == |states[j].phases| && forall r: nat :: !At(states[j], t, r)
  {
    RunKeeps(states, steps, j);
    LostRun(states, steps, i, j, t);
    LostIsNowhere(states[j], t);
  }

  lemma {:induction false} LostRun(states: seq<Sys>, steps: seq<Step>, i: nat, j: nat, t: Tid)
    requires |states| == |steps| + 1 && i <= j < |states| && t in states[i].lost
    requires forall k | 0 <= k < |steps| :: Enabled(states[k], steps[k]) && states[k + 1] == Do(states[k], steps[k])
    ensures t in states[j].lost
    decreases j
  {
    if i < j {
      LostRun(states, steps, i, j - 1, t);
      LostStays(states[j - 1], steps[j - 1], t);
    }
  }

  lemma LostStays(s: Sys, step: Step, t: Tid)
    requires Enabled(s, step) && t in s.lost
    ensures t in Do(s, step).lost
  {
  }

  lemma LostIsNowhere(s: Sys, t: Tid)
    requires Inv(s) && t in s.lost
    ensures forall r: nat :: !At(s, t, r)
  {
    assert Count(s, t) == One(t in s.lw);
    forall r: nat ensures !At(s, t, r) {
      if At(s, t, r) {
        PlacedCounts(s, t, r);
      }
    }
  }

  // ---- Migration is a rotation

  /** The reactor reached from `home` by `k` single steps round the ring of `n` cores. */
  function Spin(n: nat, home: nat, k: nat): (r: nat)
    requires home < n
    ensures r < n
  {
    if k == 0 then home else NextReactor(n, Spin(n, home, k - 1))
  }

  lemma {:induction false} SpinIsModulo(n: nat, home: nat, k: nat)
    requires home < n
    ensures Spin(n, home, k) == (home + k) % n
  {
    if k > 0 {
      SpinIsModulo(n, home, k - 1);
      Successor(home + k - 1, n);
    }
  }

  lemma {:induction false} SpinInjective(n: nat, h1: nat, h2: nat, k: nat)
    requires h1 < n && h2 < n && Spin(n, h1, k) == Spin(n, h2, k)
    ensures h1 == h2
  {
    if k > 0 {
      SpinInjective(n, h1, h2, k - 1);
    }
  }

  /** Poll-group threads start on their home core and are moved by the migration message only. */
  ghost predicate GroupStep(s: Sys, step: Step, homes: map<Tid, nat>) {
    step.Poll? && step.r < |s.phases| ==>
      && (step.e.SetMask? && Polling(s.phases[step.r]) ==> s.phases[step.r].t !in homes)
      && (step.e.Spawn? && step.e.t in homes ==>
            homes[step.e.t] < |s.cores| && step.e.mask == {s.cores[homes[step.e.t]]})
  }

  /** A group's reactor is its home plus the number of its moves; its mask names that core, or the next one. */
  ghost predicate Rotating(s: Sys, homes: map<Tid, nat>)
    requires WellFormed(s)
  {
    forall t: Tid, r: nat | At(s, t, r) && t in homes ::
      && t in s.lw && homes[t] < |s.cores| && r == Spin(|s.cores|, homes[t], s.moves[t])
      && s.lw[t].mask == {s.cores[if s.lw[t].resched then NextReactor(|s.cores|, r) else r]}
  }

  /** Placing a group whose mask names the core it has to be on. */
  lemma ScheduleRotates(s: Sys, t: Tid, q: nat, homes: map<Tid, nat>)
    requires Loose(s, t) && Rotating(s, homes)
    requires t in homes ==> homes[t] < |s.cores| && q == Spin(|s.cores|, homes[t], s.moves[t])
    requires t in homes ==> s.lw[t].mask == {s.cores[q]}
    ensures WellFormed(Schedule(s, t)) && Rotating(Schedule(s, t), homes)
  {
    var s' := Schedule(s, t);
    LooseIsNowhere(s, t);
    if t in homes {
      PinnedPlacement(s.cores, s.cursor, q);
    }
    forall u: Tid, p: nat | At(s', u, p) && u in homes
      ensures u in s'.lw && homes[u] < |s'.cores| && p == Spin(|s'.cores|, homes[u], s'.moves[u])
      ensures s'.lw[u].mask == {s'.cores[if s'.lw[u].resched then NextReactor(|s'.cores|, p) else p]}
    {
      if u == t {
        assert !At(s, t, p);
      } else {
        assert At(s, u, p);
      }
    }
  }

  lemma SpawnRotates(s: Sys, r: nat, e: Effect, homes: map<Tid, nat>)
    requires Inv(s) && Rotating(s, homes) && e.Spawn? && Enabled(s, Poll(r, e)) && GroupStep(s, Poll(r, e), homes)
    ensures WellFormed(Do(s, Poll(r, e))) && Rotating(Do(s, Poll(r, e)), homes)
  {
    var s1 := s.(lw := s.lw[e.t := Lw(e.mask, false, false, false)], moves := s.moves[e.t := 0]);
    SpawnLoosens(s, e.t, e.mask);
    LooseIsNowhere(s1, e.t);
    assert forall u: Tid, q: nat | At(s1, u, q) :: At(s, u, q) && u != e.t;
    ScheduleRotates(s1, e.t, if e.t in homes then homes[e.t] else 0, homes);
  }

  lemma PollRotates(s: Sys, r: nat, e: Effect, homes: map<Tid, nat>)
    requires Inv(s) && Rotating(s, homes) && !e.Spawn? && Enabled(s, Poll(r, e)) && GroupStep(s, Poll(r, e), homes)
    ensures WellFormed(Do(s, Poll(r, e))) && Rotating(Do(s, Poll(r, e)), homes)
  {
    var s' := Do(s, Poll(r, e));
    assert At(s, s.phases[r].t, r);
    assert forall t: Tid, q: nat | At(s', t, q) :: At(s, t, q);
  }

  lemma DisposeRotates(s: Sys, r: nat, t: Tid, homes: map<Tid, nat>)
    requires Loose(s, t) && Rotating(s, homes) && r < |s.cores|
    requires t in homes ==>
               && homes[t] < |s.cores|
               && var q := if s.lw[t].resched then NextReactor(|s.cores|, r) else r;
               && s.lw[t].mask == {s.cores[q]}
               && (!(s.lw[t].exited && s.lw[t].idle) ==> q == Spin(|s.cores|, homes[t], s.moves[t]))
    ensures WellFormed(Dispose(s, r, t)) && Rotating(Dispose(s, r, t), homes)
  {
    var s' := Dispose(s, r, t);
    if s.lw[t].exited && s.lw[t].idle {
      assert forall u: Tid, q: nat | At(s', u, q) :: At(s, u, q);
    } else if s.lw[t].resched {
      ScheduleRotates(s, t, NextReactor(|s.cores|, r), homes);
    } else {
      LooseIsNowhere(s, t);
      assert forall u: Tid, q: nat | At(s', u, q) && u != t :: At(s, u, q);
      assert forall q: nat | At(s', t, q) :: q == r || At(s, t, q);
    }
  }

  /** What the others keep, and what is known of the thread, when a reactor lets it go. */
  lemma LetGoRotates(s: Sys, r: nat, homes: map<Tid, nat>)
    requires Inv(s) && Rotating(s, homes) && Enabled(s, Release(r))
    ensures var t := s.phases[r].t;
            && Rotating(s.(phases := s.phases[r := Running], moves := Moved(s, t)), homes)
            && (t in homes ==> homes[t] < |s.cores| && r == Spin(|s.cores|, homes[t], s.moves[t])
                               && s.lw[t].mask == {s.cores[if s.lw[t].resched then NextReactor(|s.cores|, r) else r]})
  {
    var t := s.phases[r].t;
    var s1 := s.(phases := s.phases[r := Running], moves := Moved(s, t));
    LetGoLoosens(s, r, Running, Moved(s, t));
    LooseIsNowhere(s1, t);
    assert At(s, t, r);
    assert forall u: Tid, q: nat | At(s1, u, q) :: At(s, u, q) && u != t;
  }

  lemma ReleaseRotates(s: Sys, r: nat, homes: map<Tid, nat>)
    requires Inv(s) && Rotating(s, homes) && Enabled(s, Release(r))
    ensures WellFormed(Do(s, Release(r))) && Rotating(Do(s, Release(r)), homes)
  {
    var t := s.phases[r].t;
    LetGoLoosens(s, r, Running, Moved(s, t));
    LetGoRotates(s, r, homes);
    DisposeRotates(s.(phases := s.phases[r := Running], moves := Moved(s, t)), r, t, homes);
  }

  lemma StepRotates(s: Sys, step: Step, homes: map<Tid, nat>)
    requires Inv(s) && Rotating(s, homes) && Enabled(s, step) && GroupStep(s, step, homes)
    ensures WellFormed(Do(s, step)) && Rotating(Do(s, step), homes)
  {
    var s' := Do(s, step);
    if step.Poll? {
      if step.e.Spawn? {
        SpawnRotates(s, step.r, step.e, homes);
      } else {
        PollRotates(s, step.r, step.e, homes);
      }
    } else if step.Release? {
      ReleaseRotates(s, step.r, homes);
    } else {
      assert forall t: Tid, q: nat | At(s', t, q) :: At(s, t, q);
    }
  }

  ghost predicate GroupRun(states: seq<Sys>, steps: seq<Step>, homes: map<Tid, nat>) {
    && IsRun(states, steps)
    && (forall t | t in states[0].lw :: t !in homes)
    && forall j | 0 <= j < |steps| :: GroupStep(states[j], steps[j], homes)
  }

  lemma {:induction false} RunRotates(states: seq<Sys>, steps: seq<Step>, homes: map<Tid, nat>, i: nat)
    requires GroupRun(states, steps, homes) && i < |states|
    ensures WellFormed(states[i]) && Rotating(states[i], homes)
  {
    RunKeeps(states, steps, i);
    if i > 0 {
      RunKeeps(states, steps, i - 1);
      RunRotates(states, steps, homes, i - 1);
      StepRotates(states[i - 1], steps[i - 1], homes);
    }
  }

  /** Wherever and whenever a group is found, it is exactly its number of moves past its home; a full round is home. */
  lemma MigrationIsRotation(states: seq<Sys>, steps: seq<Step>, homes: map<Tid, nat>, i: nat, t: Tid, r: nat)
    requires GroupRun(states, steps, homes) && i < |states| && t in homes
    requires |states[i].rings| == |states[i].phases| && At(states[i], t, r)
    ensures var s := states[i];
            && t in s.moves && |s.cores| > 0 && r == (homes[t] + s.moves[t]) % |s.cores|
            && (s.moves[t] == |s.cores| ==> r == homes[t])
  {
    RunRotates(states, steps, homes, i);
    var s := states[i];
    var n := |s.cores|;
    SpinIsModulo(n, homes[t], s.moves[t]);
    if s.moves[t] == n {
      Remainder(n, 1, homes[t], homes[t] + n);
    }
  }

  /** Groups that have moved equally often are on different cores. */
  lemma GroupsStayApart(states: seq<Sys>, steps: seq<Step>, homes: map<Tid, nat>, i: nat, t: Tid, u: Tid, r: nat,
      q: nat)
    requires GroupRun(states, steps, homes) && i < |states| && t in homes && u in homes && homes[t] != homes[u]
    requires |states[i].rings| == |states[i].phases| && At(states[i], t, r) && At(states[i], u, q)
    requires t in states[i].moves && u in states[i].moves && states[i].moves[t] == states[i].moves[u]
    ensures r != q
  {
    RunRotates(states, steps, homes, i);
    if r == q {
      SpinInjective(|states[i].cores|, homes[t], homes[u], states[i].moves[t]);
    }
  }
}
