/**
 The body of `nvmf_reactor_run`'s loops as code. Whatever one reactor does between two
 looks at its ring is a sequence of the atomic steps the interleavings are made of, so
 the program's history is one of the runs that conservation and rotation are proved of.
 */
module ReactorLoop {
  import opened Placement
  import opened Reactors
  import opened ReactorRuns
  import opened Trails
  import opened ReactorPaths
  import opened ReactorOrder

  /** Where a history has led, threads that are queued or held are known ones. */
  lemma PlacedIsKnown(h: History, r: nat, t: Tid)
    requires IsHistory(h)
    ensures WellFormed(h.s) && (At(h.s, t, r) ==> t in h.s.lw)
  {
    var states, steps := HistoryIsRun(h);
    RunKeeps(states, steps, |steps|);
  }

  class ReactorHost {
    const scheduler: Scheduler
    var phases: seq<Phase>
    var lw: map<Tid, Lw>
    var destroyed: set<Tid>
    var stop: bool
    ghost var lost: set<Tid>
    ghost var moves: map<Tid, nat>
    ghost var history: History

    ghost function Model(): Sys reads this, scheduler {
      Sys(scheduler.cores, scheduler.next, scheduler.rings, phases, lw, destroyed, lost, stop, moves)
    }

    ghost predicate Valid() reads this, scheduler {
      IsHistory(history) && history.s == Model()
    }

    /** The reactors with the application's first thread placed on one of them. */
    constructor (scheduler: Scheduler, t: Tid, mask: set<nat>)
      requires scheduler.Valid()
      requires forall i, j | 0 <= i < j < |scheduler.cores| :: scheduler.cores[i] != scheduler.cores[j]
      requires forall r | 0 <= r < |scheduler.rings| :: scheduler.rings[r] == []
      modifies scheduler
      ensures this.scheduler == scheduler && Valid() && history.Begin?
    {
      this.scheduler := scheduler;
      phases := seq(|scheduler.cores|, _ => Running);
      lw, moves := map[t := Lw(mask, false, false, false)], map[t := 0];
      destroyed, stop, lost := {}, false, {};
      new;
      ghost var s := Model().(lw := map[], moves := map[]);
      assert Init(s);
      Place(t);
      assert Model() == Boot(s, t, mask);
      history := Begin(Model());
    }

    /** `nvmf_schedule_spdk_thread`: the thread's context is zeroed before it is placed. */
    method Place(t: Tid)
      requires WellFormed(Model()) && t in lw
      modifies this`lw, this`lost, scheduler
      ensures Model() == Reactors.Schedule(old(Model()), t)
    {
      lw := lw[t := lw[t].(resched := false)];
      var rc, _ := scheduler.Schedule(t, lw[t].mask);
      if rc != 0 {
        lost := lost + {t};
      }
      PlaceIsFirst(scheduler.cores, old(scheduler.next), lw[t].mask);
    }

    ghost method Record(step: Step)
      requires IsHistory(history) && Enabled(history.s, step) && Model() == Do(history.s, step)
      modifies this`history
      ensures Valid() && history == Then(old(history), step, Model())
    {
      history := Then(history, step, Model());
    }

    /** `spdk_ring_dequeue` in the main loop. */
    method Dequeue(r: nat) returns (t: Tid)
      requires Valid() && Enabled(Model(), Step.Take(r))
      modifies this, scheduler
      ensures Valid() && history == Then(old(history), Step.Take(r), Model())
      ensures r < |phases| && phases[r] == Hold(t) && r < |scheduler.rings|
      ensures [t] + scheduler.rings[r] == old(scheduler.rings[r])
    {
      t := scheduler.rings[r][0];
      scheduler.rings := scheduler.rings[r := scheduler.rings[r][1..]];
      phases := phases[r := Hold(t)];
      Record(Step.Take(r));
    }

    /** One thing the poll of thread `t` does. */
    method PollEffect(r: nat, t: Tid, e: Effect)
      requires Valid() && Enabled(Model(), Poll(r, e)) && phases[r].t == t
      modifies this, scheduler
      ensures Valid() && history == Then(old(history), Poll(r, e), Model()) && phases == old(phases)
      ensures e.SetMask? ==> lw == old(lw)[t := old(lw[t]).(mask := e.mask, resched := true)]
      ensures e.Migrate? ==> |scheduler.cores| > 0
      ensures e.Migrate? ==>
                lw == old(lw)[t := old(lw[t]).(mask := {scheduler.cores[(r + 1) % |scheduler.cores|]}, resched := true)]
      ensures e.Flags? ==> lw == old(lw)[t := old(lw[t]).(exited := e.exited, idle := e.idle)]
    {
      NextIsRound(|scheduler.cores|, r);
      match e {
        case SetMask(m) => lw := lw[t := lw[t].(mask := m, resched := true)];
        case Migrate => MigrateByRr(r, t);
        case Flags(x, i) => lw := lw[t := lw[t].(exited := x, idle := i)];
        case Spawn(u, m) =>
          lw := lw[u := Lw(m, false, false, false)];
          moves := moves[u := 0];
          Place(u);
      }
      Record(Poll(r, e));
    }

    /** `migrate_poll_group_by_rr` on reactor `r`'s core. */
    method MigrateByRr(r: nat, t: Tid)
      requires r < |scheduler.cores| && t in lw
      modifies this`lw
      ensures lw == old(lw)[t := old(lw)[t].(mask := {scheduler.cores[NextReactor(|scheduler.cores|, r)]},
              resched := true)]
    {
      var next := r + 1;
      if next == |scheduler.cores| {
        next := 0;
      }
      lw := lw[t := lw[t].(mask := {scheduler.cores[next]}, resched := true)];
    }

    /** What the main loop does with the thread it has polled. */
    method PutBack(r: nat, t: Tid)
      requires Valid() && r < |phases| && phases[r] == Hold(t)
      modifies this, scheduler
      ensures Valid() && history == Then(old(history), Release(r), Model()) && phases == old(phases)[r := Running]
    {
      PlacedIsKnown(history, r, t);
      moves := Moved(Model(), t);
      phases := phases[r := Running];
      if lw[t].exited && lw[t].idle {
        destroyed := destroyed + {t};
      } else if lw[t].resched {
        Place(t);
      } else {
        scheduler.rings := scheduler.rings[r := scheduler.rings[r] + [t]];
      }
      Record(Release(r));
    }

    /** A poll of thread `t`: any effects, in order. */
    method PollThread(r: nat, t: Tid, effects: seq<Effect>)
      requires Valid() && r < |phases| && Holds(phases[r], t)
      modifies this, scheduler
      ensures Valid() && phases == old(phases) && Continues(old(history), history, r)
    {
      for i := 0 to |effects|
        invariant Valid() && phases == old(phases) && Continues(old(history), history, r)
      {
        PlacedIsKnown(history, r, t);
        if !effects[i].Spawn? || effects[i].t !in lw {
          PollEffect(r, t, effects[i]);
        }
      }
    }

    /** One round of the main loop: take, poll, put back; nothing if the ring is empty. */
    method Round(r: nat, effects: seq<Effect>)
      requires Valid() && r < |phases| && phases[r] == Running && r < |scheduler.rings|
      modifies this, scheduler
      ensures Valid() && phases == old(phases) && Continues(old(history), history, r)
      ensures if old(scheduler.rings[r]) == [] then history == old(history)
              else history.Then? && history.step == Release(r)
    {
      if scheduler.rings[r] != [] {
        PlacedIsKnown(history, r, 0);
        var t := Dequeue(r);
        ghost var taken := history;
        PollThread(r, t, effects);
        Joined(old(history), taken, history, r);
        PutBack(r, t);
        assert phases == old(phases);
      }
    }

    /** One round of the final loop: an exited thread is destroyed, any other is polled and queued again. */
    method DrainRound(r: nat, effects: seq<Effect>)
      requires Valid() && r < |phases| && phases[r] == Draining && r < |scheduler.rings| && scheduler.rings[r] != []
      modifies this, scheduler
      ensures Valid() && phases == old(phases) && Continues(old(history), history, r) && r < |scheduler.rings|
      ensures var t := old(scheduler.rings[r][0]);
              && t in old(lw) && history.Then?
              && if old(lw)[t].exited then history.step == DrainTake(r) && t in destroyed
                 else history.step == DrainRelease(r) && scheduler.rings[r] != []
                      && scheduler.rings[r][|scheduler.rings[r]| - 1] == t
    {
      var t := scheduler.rings[r][0];
      var exited := DrainDequeue(r, t);
      if !exited {
        ghost var taken := history;
        PollThread(r, t, effects);
        Joined(old(history), taken, history, r);
        DrainPutBack(r, t);
        assert phases == old(phases);
      }
    }

    method DrainDequeue(r: nat, t: Tid) returns (exited: bool)
      requires Valid() && r < |phases| && phases[r] == Draining && r < |scheduler.rings|
      requires scheduler.rings[r] != [] && scheduler.rings[r][0] == t
      modifies this, scheduler
      ensures t in old(lw) && Valid() && history == Then(old(history), DrainTake(r), Model())
      ensures exited == old(lw)[t].exited
      ensures exited ==> t in destroyed
      ensures phases == if exited then old(phases) else old(phases)[r := DrainHold(t)]
    {
      PlacedIsKnown(history, r, t);
      scheduler.rings := scheduler.rings[r := scheduler.rings[r][1..]];
      exited := lw[t].exited;
      if exited {
        destroyed := destroyed + {t};
      } else {
        phases := phases[r := DrainHold(t)];
      }
      Record(DrainTake(r));
    }

    method DrainPutBack(r: nat, t: Tid)
      requires Valid() && r < |phases| && phases[r] == DrainHold(t)
      modifies this, scheduler
      ensures Valid() && history == Then(old(history), DrainRelease(r), Model()) && phases == old(phases)[r := Draining]
    {
      PlacedIsKnown(history, r, t);
      scheduler.rings := scheduler.rings[r := scheduler.rings[r] + [t]];
      phases := phases[r := Draining];
      Record(DrainRelease(r));
    }
  }
}
