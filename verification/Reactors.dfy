/**
 The reactors of nvmf.cc running side by side: every dequeue, poll effect, placement,
 re-enqueue and drain step of `nvmf_reactor_run` is one atomic step of one reactor,
 and the steps of different reactors interleave freely.
 */
module Reactors {
  import opened Options
  import opened Placement

  type Tid = nat

  datatype Lw = Lw(mask: set<nat>, resched: bool, exited: bool, idle: bool)

  datatype Phase =
    | Running                // in the main loop, between two threads
    | Hold(t: Tid)           // polling a dequeued thread in the main loop
    | Draining               // in the final loop, between two threads
    | DrainHold(t: Tid)      // exiting and polling a dequeued thread in the final loop
    | Finished

  datatype Sys = Sys(
    cores: seq<nat>,
    cursor: nat,
    rings: seq<seq<Tid>>,
    phases: seq<Phase>,
    lw: map<Tid, Lw>,        // every lightweight thread ever created
    destroyed: set<Tid>,
    lost: set<Tid>,          // threads the scheduler found no reactor for
    stop: bool,              // g_reactors_exit
    moves: map<Tid, nat>)    // how often the main loop has rescheduled a thread

  /** What the poll of a thread may do to the scheduler's state. */
  datatype Effect =
    | SetMask(mask: set<nat>)               // spdk_thread_set_cpumask on itself
    | Migrate                               // migrate_poll_group_by_rr
    | Flags(exited: bool, idle: bool)
    | Spawn(t: Tid, mask: set<nat>)         // spdk_thread_create

  datatype Step =
    | Take(r: nat) | Poll(r: nat, e: Effect) | Release(r: nat)
    | EnterDrain(r: nat) | DrainTake(r: nat) | DrainRelease(r: nat) | Finish(r: nat)
    | Stop(r: nat)

  ghost predicate WellFormed(s: Sys) {
    && |s.cores| > 0 && |s.rings| == |s.phases| == |s.cores| && s.cursor <= |s.cores|
    && (forall i, j | 0 <= i < j < |s.cores| :: s.cores[i] != s.cores[j])
    && s.moves.Keys == s.lw.Keys
  }

  predicate Holds(p: Phase, t: Tid) { (p.Hold? || p.DrainHold?) && p.t == t }

  predicate Polling(p: Phase) { p.Hold? || p.DrainHold? }

  // ---- Steps

  /** The placement of an existing thread: its context is zeroed, its ring found from the cursor. */
  function Schedule(s: Sys, t: Tid): Sys
    requires |s.cores| > 0 && |s.rings| == |s.cores| && s.cursor <= |s.cores| && t in s.lw
  {
    var chosen := Place(s.cores, s.cursor, s.lw[t].mask);
    var s1 := s.(lw := s.lw[t := s.lw[t].(resched := false)], cursor := NextCursor(|s.cores|, s.cursor, chosen));
    if chosen.Some? then s1.(rings := s.rings[chosen.value := s.rings[chosen.value] + [t]])
    else s1.(lost := s.lost + {t})
  }

  function NextReactor(n: nat, r: nat): (q: nat)
    requires r < n
    ensures q < n
  {
    if r + 1 < n then r + 1 else 0
  }

  function Moved(s: Sys, t: Tid): map<Tid, nat>
    requires t in s.lw && t in s.moves
  {
    if s.lw[t].resched && !(s.lw[t].exited && s.lw[t].idle) then s.moves[t := s.moves[t] + 1] else s.moves
  }

  /** What the main loop does with a thread it has polled: destroy, reschedule or re-enqueue. */
  function Dispose(s: Sys, r: nat, t: Tid): Sys
    requires |s.cores| > 0 && |s.rings| == |s.cores| && s.cursor <= |s.cores| && r < |s.cores|
    requires t in s.lw
  {
    if s.lw[t].exited && s.lw[t].idle then s.(destroyed := s.destroyed + {t})
    else if s.lw[t].resched then Schedule(s, t)
    else s.(rings := s.rings[r := s.rings[r] + [t]])
  }

  function Apply(s: Sys, r: nat, t: Tid, e: Effect): Sys
    requires |s.cores| > 0 && |s.rings| == |s.cores| && s.cursor <= |s.cores| && r < |s.cores| && t in s.lw
  {
    match e
    case SetMask(m) => s.(lw := s.lw[t := s.lw[t].(mask := m, resched := true)])
    case Migrate => s.(lw := s.lw[t := s.lw[t].(mask := {s.cores[NextReactor(|s.cores|, r)]}, resched := true)])
    case Flags(x, i) => s.(lw := s.lw[t := s.lw[t].(exited := x, idle := i)])
    case Spawn(u, m) => Schedule(s.(lw := s.lw[u := Lw(m, false, false, false)], moves := s.moves[u := 0]), u)
  }

  ghost predicate Enabled(s: Sys, step: Step) {
    && WellFormed(s) && step.r < |s.cores|
    && var p := s.phases[step.r];
    match step
    case Take(r) => p.Running? && s.rings[r] != []
    case Poll(r, e) => Polling(p) && p.t in s.lw && (e.Spawn? ==> e.t !in s.lw)
    case Release(r) => p.Hold? && p.t in s.lw
    case EnterDrain(r) => p.Running? && s.stop
    case DrainTake(r) => p.Draining? && s.rings[r] != [] && s.rings[r][0] in s.lw
    case DrainRelease(r) => p.DrainHold?
    case Finish(r) => p.Draining? && s.rings[r] == []
    case Stop(r) => true
  }

  ghost function Do(s: Sys, step: Step): Sys
    requires Enabled(s, step)
  {
    var r := step.r;
    var p := s.phases[r];
    match step
    case Take(_) => s.(rings := s.rings[r := s.rings[r][1..]], phases := s.phases[r := Hold(s.rings[r][0])])
    case Poll(_, e) => Apply(s, r, p.t, e)
    case Release(_) => Dispose(s.(phases := s.phases[r := Running], moves := Moved(s, p.t)), r, p.t)
    case EnterDrain(_) => s.(phases := s.phases[r := Draining])
    case DrainTake(_) =>
      var t := s.rings[r][0];
      var s1 := s.(rings := s.rings[r := s.rings[r][1..]]);
      if s.lw[t].exited then s1.(destroyed := s.destroyed + {t})
      else s1.(phases := s.phases[r := DrainHold(t)])
    case DrainRelease(_) => s.(rings := s.rings[r := s.rings[r] + [p.t]], phases := s.phases[r := Draining])
    case Finish(_) => s.(phases := s.phases[r := Finished])
    case Stop(_) => s.(stop := true)
  }

  ghost predicate Init(s: Sys) {
    && WellFormed(s) && s.lw == map[] && s.destroyed == {} && s.lost == {} && !s.stop
    && (forall r | 0 <= r < |s.rings| :: s.rings[r] == [] && s.phases[r] == Running)
  }

  /** main creates the application's first thread before any reactor holds one. */
  ghost function Boot(s: Sys, t: Tid, mask: set<nat>): Sys
    requires Init(s)
  {
    Schedule(s.(lw := map[t := Lw(mask, false, false, false)], moves := map[t := 0]), t)
  }

  ghost predicate Booted(s: Sys) { exists s0, t, mask :: Init(s0) && s == Boot(s0, t, mask) }

  ghost predicate IsRun(states: seq<Sys>, steps: seq<Step>) {
    && |states| == |steps| + 1 && Booted(states[0])
    && forall i | 0 <= i < |steps| :: Enabled(states[i], steps[i]) && states[i + 1] == Do(states[i], steps[i])
  }

  // ---- Where the threads are

  function One(b: bool): nat { if b then 1 else 0 }

  ghost function RingCount(rings: seq<seq<Tid>>, t: Tid): nat {
    if rings == [] then 0 else multiset(rings[0])[t] + RingCount(rings[1..], t)
  }

  ghost function HandCount(phases: seq<Phase>, t: Tid): nat {
    if phases == [] then 0 else One(Holds(phases[0], t)) + HandCount(phases[1..], t)
  }

  /** How many places a thread is in: ring slots, reactors polling it, destroyed, lost. */
  ghost function Count(s: Sys, t: Tid): nat {
    RingCount(s.rings, t) + HandCount(s.phases, t) + One(t in s.destroyed) + One(t in s.lost)
  }

  /** Every thread is in exactly one place. */
  ghost predicate Conserved(s: Sys) { forall t: Tid :: Count(s, t) == One(t in s.lw) }

  ghost predicate At(s: Sys, t: Tid, r: nat)
    requires |s.rings| == |s.phases|
  {
    r < |s.rings| && (t in s.rings[r] || Holds(s.phases[r], t))
  }

  /** A thread that has not asked to be moved is on a core of its mask. */
  ghost predicate Affine(s: Sys)
    requires WellFormed(s)
  {
    forall t: Tid, r: nat | At(s, t, r) :: t in s.lw && (!s.lw[t].resched ==> s.cores[r] in s.lw[t].mask)
  }

  /** A lost thread is one whose mask has no reactor. */
  ghost predicate LostForCause(s: Sys) {
    forall t | t in s.lost :: t in s.lw && !AnyEligible(s.cores, s.lw[t].mask)
  }

  ghost predicate Inv(s: Sys) {
    WellFormed(s) && Conserved(s) && Affine(s) && LostForCause(s)
  }

  // ---- Counting

  lemma {:induction false} RingsUpdate(rings: seq<seq<Tid>>, r: nat, ring: seq<Tid>, t: Tid)
    requires r < |rings|
    ensures RingCount(rings[r := ring], t) + multiset(rings[r])[t] == RingCount(rings, t) + multiset(ring)[t]
  {
    if r == 0 {
      assert rings[r := ring][1..] == rings[1..];
    } else {
      assert rings[r := ring][1..] == rings[1..][r - 1 := ring];
      RingsUpdate(rings[1..], r - 1, ring, t);
    }
  }

  lemma {:induction false} HandsUpdate(phases: seq<Phase>, r: nat, p: Phase, t: Tid)
    requires r < |phases|
    ensures HandCount(phases[r := p], t) + One(Holds(phases[r], t)) == HandCount(phases, t) + One(Holds(p, t))
  {
    if r == 0 {
      assert phases[r := p][1..] == phases[1..];
    } else {
      assert phases[r := p][1..] == phases[1..][r - 1 := p];
      HandsUpdate(phases[1..], r - 1, p, t);
    }
  }

  lemma Dequeued(ring: seq<Tid>, t: Tid)
    requires ring != []
    ensures multiset(ring)[t] == multiset(ring[1..])[t] + One(t == ring[0])
  {
    assert ring == [ring[0]] + ring[1..];
  }

  lemma {:induction false} RingCounts(rings: seq<seq<Tid>>, r: nat, t: Tid)
    requires r < |rings| && t in rings[r]
    ensures RingCount(rings, t) > 0
  {
    if r > 0 {
      RingCounts(rings[1..], r - 1, t);
    } else {
      assert t in multiset(rings[0]);
    }
  }

  lemma {:induction false} HandCounts(phases: seq<Phase>, r: nat, t: Tid)
    requires r < |phases| && Holds(phases[r], t)
    ensures HandCount(phases, t) > 0
  {
    if r > 0 {
      HandCounts(phases[1..], r - 1, t);
    }
  }

  lemma PlacedCounts(s: Sys, t: Tid, r: nat)
    requires |s.rings| == |s.phases| && At(s, t, r)
    ensures RingCount(s.rings, t) + HandCount(s.phases, t) > 0
  {
    if t in s.rings[r] {
      RingCounts(s.rings, r, t);
    } else {
      HandCounts(s.phases, r, t);
    }
  }

  // ---- Every step keeps every thread in exactly one place

  /** `t` has been taken out of its place and not yet put into another. */
  ghost predicate Loose(s: Sys, t: Tid) {
    && WellFormed(s) && t in s.lw && Affine(s) && LostForCause(s)
    && (forall u: Tid :: Count(s, u) == One(u in s.lw && u != t))
  }

  lemma LooseIsNowhere(s: Sys, t: Tid)
    requires Loose(s, t)
    ensures t !in s.destroyed && t !in s.lost && forall r: nat :: !At(s, t, r)
  {
    assert Count(s, t) == 0;
    forall r: nat ensures !At(s, t, r) {
      if At(s, t, r) {
        PlacedCounts(s, t, r);
      }
    }
  }

  lemma ScheduleSettles(s: Sys, t: Tid)
    requires Loose(s, t)
    ensures Inv(Schedule(s, t))
    ensures t in Schedule(s, t).lost <==> !AnyEligible(s.cores, s.lw[t].mask)
  {
    var s' := Schedule(s, t);
    var chosen := Place(s.cores, s.cursor, s.lw[t].mask);
    LooseIsNowhere(s, t);
    PlaceIsFirst(s.cores, s.cursor, s.lw[t].mask);
    forall u: Tid ensures Count(s', u) == One(u in s'.lw) {
      if chosen.Some? {
        RingsUpdate(s.rings, chosen.value, s.rings[chosen.value] + [t], u);
      }
      assert Count(s, u) == One(u in s.lw && u != t);
    }
    forall u: Tid, r: nat | At(s', u, r)
      ensures u in s'.lw && (!s'.lw[u].resched ==> s'.cores[r] in s'.lw[u].mask)
    {
      if u == t {
        assert !At(s, t, r);
        assert chosen == Some(r);
      } else {
        assert At(s, u, r);
      }
    }
  }

  lemma DestroySettles(s: Sys, t: Tid)
    requires Loose(s, t)
    ensures Inv(s.(destroyed := s.destroyed + {t}))
  {
    LooseIsNowhere(s, t);
    var s' := s.(destroyed := s.destroyed + {t});
    forall u: Tid ensures Count(s', u) == One(u in s'.lw) {
      assert Count(s, u) == One(u in s.lw && u != t);
    }
    assert forall u: Tid, r: nat | At(s', u, r) :: At(s, u, r);
  }

  lemma EnqueueSettles(s: Sys, t: Tid, r: nat)
    requires Loose(s, t) && r < |s.rings|
    requires !s.lw[t].resched ==> s.cores[r] in s.lw[t].mask
    ensures Inv(s.(rings := s.rings[r := s.rings[r] + [t]]))
  {
    var s' := s.(rings := s.rings[r := s.rings[r] + [t]]);
    forall u: Tid ensures Count(s', u) == One(u in s'.lw) {
      RingsUpdate(s.rings, r, s.rings[r] + [t], u);
      assert Count(s, u) == One(u in s.lw && u != t);
    }
    forall u: Tid, q: nat | At(s', u, q)
      ensures u in s'.lw && (!s'.lw[u].resched ==> s'.cores[q] in s'.lw[u].mask)
    {
      if u != t || q != r {
        assert At(s, u, q);
      }
    }
  }

  lemma HoldSettles(s: Sys, t: Tid, r: nat, p: Phase)
    requires Loose(s, t) && r < |s.rings| && Holds(p, t) && !Polling(s.phases[r])
    requires !s.lw[t].resched ==> s.cores[r] in s.lw[t].mask
    ensures Inv(s.(phases := s.phases[r := p]))
  {
    var s' := s.(phases := s.phases[r := p]);
    forall u: Tid ensures Count(s', u) == One(u in s'.lw) {
      HandsUpdate(s.phases, r, p, u);
      assert Count(s, u) == One(u in s.lw && u != t);
    }
    forall u: Tid, q: nat | At(s', u, q)
      ensures u in s'.lw && (!s'.lw[u].resched ==> s'.cores[q] in s'.lw[u].mask)
    {
      if u != t || q != r {
        assert At(s, u, q);
      }
    }
  }

  lemma DequeueLoosens(s: Sys, r: nat)
    requires Inv(s) && r < |s.rings| && s.rings[r] != []
    ensures Loose(s.(rings := s.rings[r := s.rings[r][1..]]), s.rings[r][0])
    ensures var t := s.rings[r][0]; !s.lw[t].resched ==> s.cores[r] in s.lw[t].mask
  {
    var s', t := s.(rings := s.rings[r := s.rings[r][1..]]), s.rings[r][0];
    forall u: Tid ensures Count(s', u) == One(u in s'.lw && u != t) {
      RingsUpdate(s.rings, r, s.rings[r][1..], u);
      Dequeued(s.rings[r], u);
      assert Count(s, u) == One(u in s.lw);
    }
    assert At(s, t, r);
    assert forall u: Tid, q: nat | At(s', u, q) :: At(s, u, q);
  }

  lemma LetGoLoosens(s: Sys, r: nat, p: Phase, moves: map<Tid, nat>)
    requires Inv(s) && r < |s.rings| && Polling(s.phases[r]) && !Polling(p) && moves.Keys == s.lw.Keys
    ensures Loose(s.(phases := s.phases[r := p], moves := moves), s.phases[r].t)
    ensures var t := s.phases[r].t; !s.lw[t].resched ==> s.cores[r] in s.lw[t].mask
  {
    var s', t := s.(phases := s.phases[r := p], moves := moves), s.phases[r].t;
    forall u: Tid ensures Count(s', u) == One(u in s'.lw && u != t) {
      HandsUpdate(s.phases, r, p, u);
      assert Count(s, u) == One(u in s.lw);
    }
    assert At(s, t, r);
    assert forall u: Tid, q: nat | At(s', u, q) :: At(s, u, q);
  }

  lemma IdleStepKeeps(s: Sys, r: nat, p: Phase)
    requires Inv(s) && r < |s.rings| && !Polling(s.phases[r]) && !Polling(p)
    ensures Inv(s.(phases := s.phases[r := p]))
  {
    var s' := s.(phases := s.phases[r := p]);
    forall u: Tid ensures Count(s', u) == One(u in s'.lw) {
      HandsUpdate(s.phases, r, p, u);
      assert Count(s, u) == One(u in s.lw);
    }
    assert forall u: Tid, q: nat | At(s', u, q) :: At(s, u, q);
  }

  lemma PollKeeps(s: Sys, r: nat, e: Effect)
    requires Inv(s) && Enabled(s, Poll(r, e))
    ensures Inv(Do(s, Poll(r, e)))
  {
    var s', t := Do(s, Poll(r, e)), s.phases[r].t;
    assert At(s, t, r);
    PlacedCounts(s, t, r);
    assert t !in s.lost by {
      assert Count(s, t) == One(t in s.lw);
    }
    if e.Spawn? {
      SpawnLoosens(s, e.t, e.mask);
      ScheduleSettles(s.(lw := s.lw[e.t := Lw(e.mask, false, false, false)], moves := s.moves[e.t := 0]), e.t);
    } else {
      assert forall u: Tid :: Count(s', u) == Count(s, u);
      assert forall u: Tid, q: nat | At(s', u, q) :: At(s, u, q);
    }
  }

  lemma SpawnLoosens(s: Sys, t: Tid, mask: set<nat>)
    requires Inv(s) && t !in s.lw
    ensures Loose(s.(lw := s.lw[t := Lw(mask, false, false, false)], moves := s.moves[t := 0]), t)
  {
    var s' := s.(lw := s.lw[t := Lw(mask, false, false, false)], moves := s.moves[t := 0]);
    forall u: Tid, q: nat | At(s', u, q) ensures u in s.lw && (!s'.lw[u].resched ==> s.cores[q] in s'.lw[u].mask) {
      assert At(s, u, q);
    }
    assert forall u: Tid :: Count(s', u) == Count(s, u) == One(u in s.lw);
  }

  lemma DisposeSettles(s: Sys, r: nat, t: Tid)
    requires Loose(s, t) && r < |s.rings|
    requires !s.lw[t].resched ==> s.cores[r] in s.lw[t].mask
    ensures Inv(Dispose(s, r, t))
  {
    if s.lw[t].exited && s.lw[t].idle {
      DestroySettles(s, t);
    } else if s.lw[t].resched {
      ScheduleSettles(s, t);
    } else {
      EnqueueSettles(s, t, r);
    }
  }

  lemma StepKeeps(s: Sys, step: Step)
    requires Inv(s) && Enabled(s, step)
    ensures Inv(Do(s, step))
  {
    var r := step.r;
    match step
    case Take(_) =>
      DequeueLoosens(s, r);
      HoldSettles(s.(rings := s.rings[r := s.rings[r][1..]]), s.rings[r][0], r, Hold(s.rings[r][0]));
    case Poll(_, e) => PollKeeps(s, r, e);
    case Release(_) =>
      var moves := Moved(s, s.phases[r].t);
      LetGoLoosens(s, r, Running, moves);
      DisposeSettles(s.(phases := s.phases[r := Running], moves := moves), r, s.phases[r].t);
    case EnterDrain(_) => IdleStepKeeps(s, r, Draining);
    case DrainTake(_) =>
      var t, s1 := s.rings[r][0], s.(rings := s.rings[r := s.rings[r][1..]]);
      DequeueLoosens(s, r);
      if s.lw[t].exited {
        DestroySettles(s1, t);
      } else {
        HoldSettles(s1, t, r, DrainHold(t));
      }
    case DrainRelease(_) =>
      LetGoLoosens(s, r, Draining, s.moves);
      EnqueueSettles(s.(phases := s.phases[r := Draining]), s.phases[r].t, r);
    case Finish(_) => IdleStepKeeps(s, r, Finished);
    case Stop(_) =>
      assert forall u: Tid :: Count(Do(s, step), u) == Count(s, u);
      assert forall u: Tid, q: nat | At(Do(s, step), u, q) :: At(s, u, q);
  }
}
