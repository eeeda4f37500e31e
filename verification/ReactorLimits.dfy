/** Threads that end neither destroyed nor running: lost ones, and those left with a finished reactor. */
module ReactorLimits {
  import opened Options
  import opened Trails
  import opened Placement
  import opened Reactors
  import opened ReactorRuns
  import opened ReactorPaths

  // ---- Lost

  /** The first thread on its core's reactor. */
  lemma Booting(s: Sys, t: Tid) returns (h: History)
    requires Init(s)
    ensures IsHistory(h) && h == Begin(Boot(s, t, {s.cores[0]})) && WellFormed(h.s)
    ensures h.s.rings == s.rings[0 := [t]] && h.s.lw == map[t := Lw({s.cores[0]}, false, false, false)]
    ensures h.s.phases == s.phases && h.s.cores == s.cores && !h.s.stop && h.s.lost == {} && h.s.destroyed == {}
  {
    PinnedPlacement(s.cores, s.cursor, 0);
    h := Begin(Boot(s, t, {s.cores[0]}));
    assert s.rings[0] + [t] == [t];
    BootKeeps(s, t, {s.cores[0]});
  }

  /** On any machine a thread that asks for no core at all is lost. */
  lemma AskingForNothingLoses(s: Sys, t: Tid) returns (states: seq<Sys>, steps: seq<Step>)
    requires Init(s)
    ensures IsRun(states, steps) && states[|steps|].lost == {t}
  {
    var h := Booting(s, t);
    h := Move(h, Take(0));
    assert h.s.phases[0] == Hold(t);
    h := Move(h, Poll(0, SetMask({})));
    PlaceIsFirst(h.s.cores, h.s.cursor, {});
    h := Move(h, Release(0));
    states, steps := HistoryIsRun(h);
  }

  // ---- Left with a finished reactor

  /** The scheduler is given thread `t`, by the main loop or by a poll, and finds reactor `r` first. */
  ghost predicate PlacesOn(s: Sys, step: Step, r: nat, t: Tid)
    requires Enabled(s, step)
  {
    match step
    case Release(q) =>
      && t == s.phases[q].t && s.lw[t].resched && !(s.lw[t].exited && s.lw[t].idle)
      && Place(s.cores, s.cursor, s.lw[t].mask) == Some(r)
    case Poll(_, Spawn(u, mask)) => t == u && Place(s.cores, s.cursor, mask) == Some(r)
    case _ => false
  }

  /** A reactor that has finished stays so, and its ring gains exactly the thread that is placed on it. */
  lemma FinishedStays(s: Sys, step: Step, r: nat)
    requires Enabled(s, step) && r < |s.phases| && s.phases[r] == Finished
    ensures var s' := Do(s, step);
            && |s'.phases| == |s.phases| && |s'.rings| == |s.rings| && s'.phases[r] == Finished
            && s.rings[r] <= s'.rings[r]
            && (forall t: Tid :: t in s'.rings[r] <==> t in s.rings[r] || PlacesOn(s, step, r, t))
  {
    if step.Release? {
      ReleasedOnFinished(s, step.r, r);
    } else if step.Poll? && step.e.Spawn? {
      SpawnedOnFinished(s, step.r, step.e, r);
    }
  }

  lemma ScheduledOn(s: Sys, t: Tid, r: nat)
    requires |s.cores| > 0 && |s.rings| == |s.cores| && s.cursor <= |s.cores| && t in s.lw && r < |s.rings|
    ensures var s', here := Schedule(s, t), Place(s.cores, s.cursor, s.lw[t].mask) == Some(r);
            && s'.phases == s.phases && |s'.rings| == |s.rings|
            && s'.rings[r] == if here then s.rings[r] + [t] else s.rings[r]
  {
  }

  lemma ReleasedOnFinished(s: Sys, q: nat, r: nat)
    requires Enabled(s, Release(q)) && r < |s.phases| && s.phases[r] == Finished
    ensures var s' := Do(s, Release(q));
            && |s'.phases| == |s.phases| && |s'.rings| == |s.rings| && s'.phases[r] == Finished
            && s.rings[r] <= s'.rings[r]
            && (forall t: Tid :: t in s'.rings[r] <==> t in s.rings[r] || PlacesOn(s, Release(q), r, t))
  {
    var t := s.phases[q].t;
    ScheduledOn(s.(phases := s.phases[q := Running], moves := Moved(s, t)), t, r);
  }

  lemma SpawnedOnFinished(s: Sys, q: nat, e: Effect, r: nat)
    requires e.Spawn? && Enabled(s, Poll(q, e)) && r < |s.phases| && s.phases[r] == Finished
    ensures var s' := Do(s, Poll(q, e));
            && |s'.phases| == |s.phases| && |s'.rings| == |s.rings| && s'.phases[r] == Finished
            && s.rings[r] <= s'.rings[r]
            && (forall t: Tid :: t in s'.rings[r] <==> t in s.rings[r] || PlacesOn(s, Poll(q, e), r, t))
  {
    ScheduledOn(s.(lw := s.lw[e.t := Lw(e.mask, false, false, false)], moves := s.moves[e.t := 0]), e.t, r);
  }

  lemma Finishes(s: Sys, step: Step, r: nat)
    requires Enabled(s, step) && r < |s.phases| && s.phases[r] != Finished && Do(s, step).phases[r] == Finished
    ensures step == Finish(r) && Do(s, step).rings[r] == []
  {
  }

  /** Step `i` places thread `t` on reactor `r`, which has finished. */
  ghost predicate Strands(states: seq<Sys>, steps: seq<Step>, i: nat, r: nat, t: Tid)
    requires IsRun(states, steps) && i < |steps|
  {
    r < |states[i].phases| && states[i].phases[r] == Finished && PlacesOn(states[i], steps[i], r, t)
  }

  ghost predicate StrandedBefore(states: seq<Sys>, steps: seq<Step>, k: nat, r: nat, t: Tid)
    requires IsRun(states, steps) && k <= |steps|
  {
    exists i: nat :: i < k && Strands(states, steps, i, r, t)
  }

  lemma StrandedLater(states: seq<Sys>, steps: seq<Step>, k: nat, r: nat, t: Tid)
    requires IsRun(states, steps) && k < |steps|
    ensures StrandedBefore(states, steps, k + 1, r, t)
            <==> StrandedBefore(states, steps, k, r, t) || Strands(states, steps, k, r, t)
  {
    if StrandedBefore(states, steps, k, r, t) {
      var i: nat :| i < k && Strands(states, steps, i, r, t);
    }
  }

  lemma SameReactors(s: Sys, step: Step)
    requires Enabled(s, step)
    ensures |Do(s, step).phases| == |s.phases| && |Do(s, step).rings| == |s.rings|
  {
  }

  /** The ring of a finished reactor holds `t` exactly if `t` has been placed there; before, nothing has. */
  ghost predicate RingAccounted(states: seq<Sys>, steps: seq<Step>, k: nat, r: nat, t: Tid)
    requires IsRun(states, steps) && k <= |steps|
  {
    var s := states[k];
    && r < |s.phases| && r < |s.rings|
    && if s.phases[r] == Finished then t in s.rings[r] <==> StrandedBefore(states, steps, k, r, t)
       else !StrandedBefore(states, steps, k, r, t)
  }

  /**
   In every run, the ring of a reactor that has finished holds exactly the threads that
   the scheduler has placed there since.
   */
  lemma {:induction false} FinishedRing(states: seq<Sys>, steps: seq<Step>, k: nat, r: nat, t: Tid)
    requires IsRun(states, steps) && k < |states| && r < |states[k].phases|
    ensures RingAccounted(states, steps, k, r, t)
    decreases k, 1
  {
    RunKeeps(states, steps, k);
    if k == 0 {
      BootsRunning(states[0]);
    } else {
      FinishedNext(states, steps, k - 1, r, t);
    }
  }

  lemma {:induction false} FinishedNext(states: seq<Sys>, steps: seq<Step>, i: nat, r: nat, t: Tid)
    requires IsRun(states, steps) && i < |steps| && r < |states[i + 1].phases|
    ensures RingAccounted(states, steps, i + 1, r, t)
    decreases i + 1, 0
  {
    var s := states[i];
    SameReactors(s, steps[i]);
    FinishedRing(states, steps, i, r, t);
    StrandedLater(states, steps, i, r, t);
    if s.phases[r] == Finished {
      FinishedStays(s, steps[i], r);
    } else if states[i + 1].phases[r] == Finished {
      Finishes(s, steps[i], r);
    }
  }

  /** A reactor that has finished did so in one step, with an empty ring. */
  lemma {:induction false} FinishedOnce(states: seq<Sys>, steps: seq<Step>, k: nat, r: nat) returns (j: nat)
    requires IsRun(states, steps) && k < |states| && r < |states[k].phases| && states[k].phases[r] == Finished
    ensures j < k && steps[j] == Finish(r) && r < |states[j + 1].rings| && states[j + 1].rings[r] == []
    decreases k
  {
    if k == 0 {
      BootsRunning(states[0]);
    } else {
      var i := k - 1;
      NextSize(states, steps, i);
      if states[i].phases[r] == Finished {
        j := FinishedOnce(states, steps, i, r);
      } else {
        SameReactors(states[i], steps[i]);
        Finishes(states[i], steps[i], r);
        j := i;
      }
    }
  }

  lemma BootsRunning(s: Sys)
    requires Booted(s)
    ensures forall r | 0 <= r < |s.phases| :: s.phases[r] == Running
  {
    var s0, t, mask :| Init(s0) && s == Boot(s0, t, mask);
  }

  ghost predicate AllFinished(s: Sys) { forall r | 0 <= r < |s.phases| :: s.phases[r] == Finished }

  /** When every reactor has finished, each thread is destroyed, lost, or in the ring of a finished reactor. */
  lemma EndOfThreads(states: seq<Sys>, steps: seq<Step>, k: nat, t: Tid)
    requires IsRun(states, steps) && k < |states| && AllFinished(states[k]) && t in states[k].lw
    ensures var s := states[k]; t in s.destroyed || t in s.lost || exists r :: 0 <= r < |s.rings| && t in s.rings[r]
  {
    var s := states[k];
    RunKeeps(states, steps, k);
    NoHands(s.phases, t);
    assert Count(s, t) == 1;
    if t !in s.destroyed && t !in s.lost {
      var r := SomeRing(s.rings, t);
    }
  }

  ghost predicate Gone(s: Sys, t: Tid) { t in s.destroyed || t in s.lost }

  lemma RingedIsNotGone(s: Sys, t: Tid, r: nat)
    requires Inv(s) && r < |s.rings| && t in s.rings[r]
    ensures t in s.lw && !Gone(s, t)
  {
    assert At(s, t, r);
    PlacedCounts(s, t, r);
    assert Count(s, t) == One(t in s.lw);
  }

  /**
   When every reactor has finished, all threads are destroyed or lost if and only if no
   step of the run has placed a thread on a reactor that had finished.
   */
  lemma AllGoneExactly(states: seq<Sys>, steps: seq<Step>)
    requires IsRun(states, steps) && AllFinished(states[|steps|])
    ensures (forall t | t in states[|steps|].lw :: Gone(states[|steps|], t))
            <==> (forall i: nat, r: nat, t: Tid | i < |steps| :: !Strands(states, steps, i, r, t))
  {
    var k := |steps|;
    var s := states[k];
    RunKeeps(states, steps, k);
    if i: nat, r: nat, t: Tid :| i < k && Strands(states, steps, i, r, t) {
      SameSize(states, steps, i, k);
      FinishedRing(states, steps, k, r, t);
      RingedIsNotGone(s, t, r);
    } else {
      forall t | t in s.lw ensures Gone(s, t) {
        EndOfThreads(states, steps, k, t);
        if !Gone(s, t) {
          var r: nat :| r < |s.rings| && t in s.rings[r];
          FinishedRing(states, steps, k, r, t);
        }
      }
    }
  }

  lemma NextSize(states: seq<Sys>, steps: seq<Step>, i: nat)
    requires IsRun(states, steps) && i < |steps|
    ensures |states[i + 1].phases| == |states[i].phases|
  {
    SameReactors(states[i], steps[i]);
  }

  lemma {:induction false} SameSize(states: seq<Sys>, steps: seq<Step>, i: nat, k: nat)
    requires IsRun(states, steps) && i <= k < |states|
    ensures |states[k].phases| == |states[i].phases|
    decreases k
  {
    if i < k {
      var j := k - 1;
      SameSize(states, steps, i, j);
      NextSize(states, steps, j);
      assert |states[j + 1].phases| == |states[j].phases|;
    }
  }

  lemma {:induction false} NoHands(phases: seq<Phase>, t: Tid)
    requires forall r | 0 <= r < |phases| :: phases[r] == Finished
    ensures HandCount(phases, t) == 0
  {
    if phases != [] {
      NoHands(phases[1..], t);
    }
  }

  lemma {:induction false} SomeRing(rings: seq<seq<Tid>>, t: Tid) returns (r: nat)
    requires RingCount(rings, t) > 0
    ensures r < |rings| && t in rings[r]
  {
    if multiset(rings[0])[t] > 0 {
      r := 0;
    } else {
      r := SomeRing(rings[1..], t);
      r := r + 1;
    }
  }

  /** On two cores: a thread moves to a reactor that has finished, and everything ends with it there. */
  lemma LeftBehind(s: Sys, t: Tid) returns (states: seq<Sys>, steps: seq<Step>)
    requires Init(s) && |s.cores| == 2
    ensures IsRun(states, steps) && AllFinished(states[|steps|])
    ensures var e := states[|steps|]; |e.rings| == 2 && e.rings[1] == [t] && t !in e.destroyed && t !in e.lost
  {
    var h := Booting(s, t);
    BothRun(s, h.s, t);
    h := Journey(h, t);
    states, steps := HistoryIsRun(h);
    assert states[|steps|].phases == [Finished, Finished];
  }

  lemma BothRun(s: Sys, s': Sys, t: Tid)
    requires Init(s) && |s.cores| == 2 && WellFormed(s') && s'.cores == s.cores && s'.phases == s.phases
    requires s'.rings == s.rings[0 := [t]] && s'.lw == map[t := Lw({s.cores[0]}, false, false, false)]
    requires s'.destroyed == {} && s'.lost == {}
    ensures Pair(s', t) && s'.phases[0] == s'.phases[1] == Running && s'.rings[0] == [t] && s'.rings[1] == []
  {
  }

  lemma Journey(h0: History, t: Tid) returns (h: History)
    requires IsHistory(h0) && Pair(h0.s, t) && h0.s.phases[0] == h0.s.phases[1] == Running
    requires h0.s.rings[0] == [t] && h0.s.rings[1] == []
    ensures IsHistory(h) && Pair(h.s, t) && h.s.phases == [Finished, Finished] && h.s.rings[1] == [t]
  {
    var h1 := OneFinishes(h0, t);
    var h2 := TakenAndAsking(h1, t);
    var h3 := MovesOver(h2, t);
    var h4 := LastDrains(h3, t);
    h := LastFinishes(h4, t);
  }

  lemma LastDrains(h0: History, t: Tid) returns (h: History)
    requires IsHistory(h0) && Pair(h0.s, t) && h0.s.phases[0] == Running && h0.s.phases[1] == Finished && h0.s.stop
    requires h0.s.rings[0] == [] && h0.s.rings[1] == [t]
    ensures IsHistory(h) && Pair(h.s, t) && h.s.phases[0] == Draining && h.s.phases[1] == Finished
    ensures h.s.rings[0] == [] && h.s.rings[1] == [t]
  {
    PhaseMoves(h0.s, EnterDrain(0), Draining);
    h := Move(h0, EnterDrain(0));
  }

  lemma LastFinishes(h0: History, t: Tid) returns (h: History)
    requires IsHistory(h0) && Pair(h0.s, t) && h0.s.phases[0] == Draining && h0.s.phases[1] == Finished
    requires h0.s.rings[0] == [] && h0.s.rings[1] == [t]
    ensures IsHistory(h) && Pair(h.s, t) && h.s.phases == [Finished, Finished] && h.s.rings[1] == [t]
  {
    PhaseMoves(h0.s, Finish(0), Finished);
    h := Move(h0, Finish(0));
    assert h.s == h0.s.(phases := h0.s.phases[0 := Finished]);
  }

  lemma PhaseMoves(s: Sys, step: Step, p: Phase)
    requires Enabled(s, step) && ((step.EnterDrain? && p == Draining) || (step.Finish? && p == Finished))
    ensures Do(s, step) == s.(phases := s.phases[step.r := p])
  {
  }

  /** Two reactors, one thread, neither destroyed nor lost. */
  ghost predicate Pair(s: Sys, t: Tid) {
    && WellFormed(s) && |s.cores| == 2 && s.lw.Keys == {t} && s.destroyed == {} && s.lost == {}
    && !s.lw[t].exited
  }

  lemma OneFinishes(h0: History, t: Tid) returns (h: History)
    requires IsHistory(h0) && Pair(h0.s, t) && h0.s.phases[0] == h0.s.phases[1] == Running
    requires h0.s.rings[0] == [t] && h0.s.rings[1] == []
    ensures IsHistory(h) && Pair(h.s, t) && h.s.phases[0] == Running && h.s.phases[1] == Finished && h.s.stop
    ensures h.s.rings[0] == [t] && h.s.rings[1] == []
  {
    h := Move(h0, Stop(1));
    h := Move(h, EnterDrain(1));
    h := Move(h, Finish(1));
  }

  lemma TakenAndAsking(h0: History, t: Tid) returns (h: History)
    requires IsHistory(h0) && Pair(h0.s, t) && h0.s.phases[0] == Running && h0.s.phases[1] == Finished && h0.s.stop
    requires h0.s.rings[0] == [t] && h0.s.rings[1] == []
    ensures IsHistory(h) && Pair(h.s, t) && h.s.phases[0] == Hold(t) && h.s.phases[1] == Finished && h.s.stop
    ensures h.s.rings[0] == [] && h.s.rings[1] == [] && h.s.lw[t].resched && h.s.lw[t].mask == {h.s.cores[1]}
  {
    h := Move(h0, Take(0));
    h := Move(h, Poll(0, SetMask({h0.s.cores[1]})));
  }

  lemma MovesOver(h0: History, t: Tid) returns (h: History)
    requires IsHistory(h0) && Pair(h0.s, t) && h0.s.phases[0] == Hold(t) && h0.s.phases[1] == Finished && h0.s.stop
    requires h0.s.rings[0] == [] && h0.s.rings[1] == [] && h0.s.lw[t].resched && h0.s.lw[t].mask == {h0.s.cores[1]}
    ensures IsHistory(h) && Pair(h.s, t) && h.s.phases[0] == Running && h.s.phases[1] == Finished && h.s.stop
    ensures h.s.rings[0] == [] && h.s.rings[1] == [t]
  {
    PinnedPlacement(h0.s.cores, h0.s.cursor, 1);
    h := Move(h0, Release(0));
  }
}
