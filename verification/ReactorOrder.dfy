/** What becomes of a thread in one step, and in what order threads are polled. */
module ReactorOrder {
  import opened Options
  import opened Arithmetic
  import opened Placement
  import opened Reactors
  import opened ReactorRuns

  // ---- First in, first out

  /** The head of ring `r` is polled, or destroyed if it had exited and the loop is the final one. */
  ghost predicate HeadTaken(s: Sys, step: Step, s': Sys, r: nat)
    requires r < |s.rings| && r < |s'.rings| && r < |s'.phases|
  {
    && s.rings[r] != [] && s'.rings[r] == s.rings[r][1..]
    && var t := s.rings[r][0];
    || (step == Take(r) && s'.phases[r] == Hold(t))
    || (step == DrainTake(r) && t in s.lw && if s.lw[t].exited then t in s'.destroyed else s'.phases[r] == DrainHold(t))
  }

  ghost predicate TailGrown(s: Sys, s': Sys, r: nat)
    requires r < |s.rings| && r < |s'.rings|
  {
    exists t: Tid :: s'.rings[r] == s.rings[r] + [t]
  }

  /** In one step a ring loses its head to its reactor, gains a tail, or stays as it is. */
  lemma RingStep(s: Sys, step: Step, r: nat)
    requires Enabled(s, step) && r < |s.rings|
    ensures var s' := Do(s, step);
            && r < |s'.rings| && r < |s'.phases|
            && (s'.rings[r] == s.rings[r] || HeadTaken(s, step, s', r) || TailGrown(s, s', r))
            && (step == Take(r) || step == DrainTake(r) ==> HeadTaken(s, step, s', r))
  {
    if step.Release? {
      var t := s.phases[step.r].t;
      ScheduledRing(s.(phases := s.phases[step.r := Running], moves := Moved(s, t)), t, r);
    } else if step.Poll? && step.e.Spawn? {
      var e := step.e;
      ScheduledRing(s.(lw := s.lw[e.t := Lw(e.mask, false, false, false)], moves := s.moves[e.t := 0]), e.t, r);
    }
  }

  lemma ScheduledRing(s: Sys, t: Tid, r: nat)
    requires |s.cores| > 0 && |s.rings| == |s.cores| && s.cursor <= |s.cores| && t in s.lw && r < |s.rings|
    ensures var s' := Schedule(s, t);
            && s'.phases == s.phases && |s'.rings| == |s.rings|
            && (s'.rings[r] == s.rings[r] || s'.rings[r] == s.rings[r] + [t])
  {
  }

  ghost predicate Ahead(s: Sys, r: nat, t: Tid, u: Tid) {
    exists a, b :: r < |s.rings| && 0 <= a < b < |s.rings[r]| && s.rings[r][a] == t && s.rings[r][b] == u
  }

  /** No thread is in a ring twice. */
  lemma InRingOnce(s: Sys, r: nat, a: nat, b: nat)
    requires Inv(s) && r < |s.rings| && a < b < |s.rings[r]|
    ensures s.rings[r][a] != s.rings[r][b]
  {
    var ring, t := s.rings[r], s.rings[r][a];
    assert Count(s, t) == One(t in s.lw);
    RingHas(s.rings, r, t);
    if ring[b] == t {
      Twice(ring, a, b);
    }
  }

  lemma Twice(ring: seq<Tid>, a: nat, b: nat)
    requires a < b < |ring| && ring[a] == ring[b]
    ensures multiset(ring)[ring[a]] >= 2
  {
    assert ring == ring[..b] + [ring[b]] + ring[b + 1..];
    assert ring[..b][a] == ring[a];
    assert ring[a] in multiset(ring[..b]);
  }

  lemma {:induction false} RingHas(rings: seq<seq<Tid>>, r: nat, t: Tid)
    requires r < |rings|
    ensures multiset(rings[r])[t] <= RingCount(rings, t)
  {
    if r > 0 {
      RingHas(rings[1..], r - 1, t);
    }
  }

  /** Over every run, of two threads in a ring the one behind stays as long as the one ahead does. */
  lemma NoOvertaking(states: seq<Sys>, steps: seq<Step>, i: nat, r: nat, t: Tid, u: Tid)
    requires IsRun(states, steps) && i < |steps| && Ahead(states[i], r, t, u)
    ensures r < |states[i + 1].rings|
    ensures Ahead(states[i + 1], r, t, u) || (t !in states[i + 1].rings[r] && u in states[i + 1].rings[r])
  {
    RunKeeps(states, steps, i);
    RingStep(states[i], steps[i], r);
    StillAhead(states[i], states[i + 1].rings, steps[i], r, t, u);
  }

  lemma StillAhead(s: Sys, rings: seq<seq<Tid>>, step: Step, r: nat, t: Tid, u: Tid)
    requires Inv(s) && Ahead(s, r, t, u) && r < |rings|
    requires rings[r] == s.rings[r] || (s.rings[r] != [] && rings[r] == s.rings[r][1..])
             || exists v: Tid :: rings[r] == s.rings[r] + [v]
    ensures (exists a, b :: 0 <= a < b < |rings[r]| && rings[r][a] == t && rings[r][b] == u)
            || (t !in rings[r] && u in rings[r])
  {
    var a, b :| 0 <= a < b < |s.rings[r]| && s.rings[r][a] == t && s.rings[r][b] == u;
    if s.rings[r] != [] && rings[r] == s.rings[r][1..] && rings[r] != s.rings[r] {
      assert rings[r][b - 1] == u;
      if a == 0 {
        forall c | 0 <= c < |rings[r]| ensures rings[r][c] != t {
          InRingOnce(s, r, 0, c + 1);
        }
      } else {
        assert rings[r][a - 1] == t;
      }
    } else {
      assert rings[r][a] == t && rings[r][b] == u;
    }
  }

  // ---- The poll

  lemma NextIsRound(n: nat, r: nat)
    requires r < n
    ensures NextReactor(n, r) == (r + 1) % n
  {
    if r + 1 == n {
      Remainder(n, 1, 0, n);
    }
  }

  /** What a poll does to the scheduler's state of the polled thread; migration names the next core round. */
  lemma PollDoes(s: Sys, r: nat, e: Effect)
    requires Enabled(s, Poll(r, e)) && !e.Spawn?
    ensures var t, s' := s.phases[r].t, Do(s, Poll(r, e));
            && s' == s.(lw := s'.lw) && s'.lw.Keys == s.lw.Keys
            && (forall u | u in s.lw && u != t :: s'.lw[u] == s.lw[u])
            && var old', new' := s.lw[t], s'.lw[t];
            match e
            case SetMask(m) => new'.mask == m && new'.resched && new'.exited == old'.exited && new'.idle == old'.idle
            case Migrate =>
              && new'.mask == {s.cores[(r + 1) % |s.cores|]} && new'.resched
              && new'.exited == old'.exited && new'.idle == old'.idle
            case Flags(x, i) =>
              new'.exited == x && new'.idle == i && new'.mask == old'.mask && new'.resched == old'.resched
            case Spawn(_, _) => true
  {
    NextIsRound(|s.cores|, r);
  }

  // ---- The release

  /** Reactor `q` is the nearest round from the cursor among those the mask allows. */
  ghost predicate Nearest(s: Sys, mask: set<nat>, q: nat)
    requires |s.cores| > 0 && s.cursor <= |s.cores|
  {
    && q < |s.cores| && s.cores[q] in mask
    && forall p | 0 <= p < |s.cores| && s.cores[p] in mask ::
         Distance(|s.cores|, s.cursor, q) <= Distance(|s.cores|, s.cursor, p)
  }

  ghost predicate PlacedAt(s: Sys, mask: set<nat>, q: nat, rings: seq<seq<Tid>>, t: Tid)
    requires |s.cores| > 0 && |s.rings| == |s.cores| && s.cursor <= |s.cores|
  {
    Nearest(s, mask, q) && rings == s.rings[q := s.rings[q] + [t]]
  }

  /**
   The polled thread is destroyed if it has exited and is idle; else it goes to the end of
   this reactor's ring if it has not asked to move; else to the end of the ring of the
   nearest reactor it may run on, its request cleared; else it is lost.
   */
  lemma ReleaseDoes(s: Sys, r: nat)
    requires Enabled(s, Release(r))
    ensures var t, s' := s.phases[r].t, Do(s, Release(r));
            var lw := s.lw[t];
            && s'.phases == s.phases[r := Running]
            && if lw.exited && lw.idle then
                 s'.destroyed == s.destroyed + {t} && s'.rings == s.rings && s'.lost == s.lost
               else if !lw.resched then
                 s'.rings == s.rings[r := s.rings[r] + [t]] && s'.destroyed == s.destroyed && s'.lost == s.lost
               else
                 && s'.destroyed == s.destroyed && s'.lw == s.lw[t := lw.(resched := false)]
                 && if AnyEligible(s.cores, lw.mask) then
                      s'.lost == s.lost && exists q: nat :: PlacedAt(s, lw.mask, q, s'.rings, t)
                    else s'.rings == s.rings && s'.lost == s.lost + {t}
  {
    var t := s.phases[r].t;
    var s1 := s.(phases := s.phases[r := Running], moves := Moved(s, t));
    ScheduleDoes(s1, t);
    if s.lw[t].resched && AnyEligible(s.cores, s.lw[t].mask) {
      var q: nat :| PlacedAt(s1, s.lw[t].mask, q, Schedule(s1, t).rings, t);
      SameNearest(s, s1, s.lw[t].mask, q);
      assert PlacedAt(s, s.lw[t].mask, q, Schedule(s1, t).rings, t);
    }
  }

  lemma SameNearest(s: Sys, s1: Sys, mask: set<nat>, q: nat)
    requires |s.cores| > 0 && s.cursor <= |s.cores| && s1.cores == s.cores && s1.cursor == s.cursor
    ensures Nearest(s1, mask, q) <==> Nearest(s, mask, q)
  {
  }

  lemma ScheduleDoes(s: Sys, t: Tid)
    requires |s.cores| > 0 && |s.rings| == |s.cores| && s.cursor <= |s.cores| && t in s.lw
    ensures var s' := Schedule(s, t);
            && s'.phases == s.phases && s'.destroyed == s.destroyed && s'.lw == s.lw[t := s.lw[t].(resched := false)]
            && if AnyEligible(s.cores, s.lw[t].mask) then
                 s'.lost == s.lost && exists q: nat :: PlacedAt(s, s.lw[t].mask, q, s'.rings, t)
               else s'.rings == s.rings && s'.lost == s.lost + {t}
  {
    var mask := s.lw[t].mask;
    PlaceIsFirst(s.cores, s.cursor, mask);
    if AnyEligible(s.cores, mask) {
      var q := Place(s.cores, s.cursor, mask).value;
      PlaceIsNearest(s.cores, s.cursor, mask);
      assert PlacedAt(s, mask, q, Schedule(s, t).rings, t);
    }
  }

  /** A migration message followed by the release moves the thread exactly one position round the ring of cores. */
  lemma MigratesOne(s: Sys, r: nat)
    requires Inv(s) && Enabled(s, Poll(r, Migrate)) && s.phases[r].Hold?
    ensures var t, s1 := s.phases[r].t, Do(s, Poll(r, Migrate));
            && Enabled(s1, Release(r))
            && var s2, q := Do(s1, Release(r)), (r + 1) % |s.cores|;
            && q < |s.rings|
            && (!(s.lw[t].exited && s.lw[t].idle) ==>
                  && s2.rings == s.rings[q := s.rings[q] + [t]] && t in s2.lw
                  && s2.lw[t].mask == {s.cores[q]} && !s2.lw[t].resched)
  {
    PollDoes(s, r, Migrate);
    NextIsRound(|s.cores|, r);
    PinnedPlacement(s.cores, s.cursor, NextReactor(|s.cores|, r));
  }

  // ---- The end of the main loop

  ghost predicate InFinalLoop(p: Phase) { p.Draining? || p.DrainHold? || p.Finished? }

  /** No reactor leaves its main loop before it has been told to. */
  lemma {:induction false} DrainsOnlyWhenStopped(states: seq<Sys>, steps: seq<Step>, k: nat)
    requires IsRun(states, steps) && k < |states|
    ensures forall r | 0 <= r < |states[k].phases| && InFinalLoop(states[k].phases[r]) :: states[k].stop
  {
    if k == 0 {
      var s0, t, mask :| Init(s0) && states[0] == Boot(s0, t, mask);
    } else {
      var i := k - 1;
      DrainsOnlyWhenStopped(states, steps, i);
      StopsStep(states[i], steps[i]);
    }
  }

  lemma StopsStep(s: Sys, step: Step)
    requires Enabled(s, step) && forall r | 0 <= r < |s.phases| && InFinalLoop(s.phases[r]) :: s.stop
    ensures forall r | 0 <= r < |Do(s, step).phases| && InFinalLoop(Do(s, step).phases[r]) :: Do(s, step).stop
  {
  }
}
