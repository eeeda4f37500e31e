/** Runs that show where read-back verification ends: refused reads and high zones. */
module VerifyLimits {
  import opened ReadBack
  import opened VerifyModel
  import opened VerifyRuns
  import opened VerifyZones

  /** A run so far. */
  datatype Run = Run(states: seq<State>, steps: seq<Step>)

  ghost predicate Runs(cfg: Config, run: Run, s: State) {
    && IsRun(cfg, run.states, run.steps) && run.states[|run.steps|] == s
    && Alone(run.steps) && run.states[0].media == map[]
  }

  lemma Move(cfg: Config, run: Run, s: State, step: Step) returns (run': Run, s': State)
    requires Runs(cfg, run, s) && Enabled(cfg, s, step) && !step.Refuse? && !step.Spoil? && !step.Foreign?
    ensures s' == Do(cfg, s, step) && Runs(cfg, run', s')
  {
    s' := Do(cfg, s, step);
    run' := Run(run.states + [s'], run.steps + [step]);
  }

  /** A namespace with an empty zone, a queue of one, and a task for it. */
  ghost predicate Fresh(cfg: Config, s: State) {
    Sane(cfg) && cfg.queueDepth == 1 && cfg.blocks <= 0x80000 && Init(cfg, s) && s.media == map[] && s.ctx.free > 0
  }

  /** The first append is accepted and placed. */
  lemma Appended(cfg: Config, s0: State) returns (run: Run, s: State)
    requires Fresh(cfg, s0)
    ensures Runs(cfg, run, s) && s.owed == 0
    ensures s.ctx == s0.ctx.(count := 1, depth := 1, free := s0.ctx.free - 1, issued := 1,
                             appending := map[0 := Append(Pattern(0), Done(Cdw0(ZoneStart(cfg.zone))))])
  {
    run, s := Move(cfg, Run([s0], []), s0, Begin(true));
    assert s.ctx == s0.ctx.(count := 1, depth := 1, free := s0.ctx.free - 1, issued := 1,
                            appending := map[0 := Append(Pattern(0), Waiting)]);
    run, s := Move(cfg, run, s, Place(0, ZoneStart(cfg.zone)));
  }

  /** Its read is refused, and the pair forgotten. */
  lemma RefusedReadIsDropped(cfg: Config, s0: State) returns (run: Run, s: State)
    requires Fresh(cfg, s0)
    ensures Runs(cfg, run, s) && s.ctx.dropped == 1 && s.ctx.writesDone == 1 && s.ctx.readsDone == 0 && s.ctx.depth == 0
  {
    run, s := Appended(cfg, s0);
    var c := s.ctx;
    assert Settle(c, 0).pending == [Pair(Cdw0(ZoneStart(cfg.zone)), Pattern(0))];
    run, s := Move(cfg, run, s, Complete(0, false));
  }

  /** Its read is accepted, served and compared. */
  lemma OneReadBack(cfg: Config, s0: State) returns (run: Run, s: State)
    requires Fresh(cfg, s0)
    ensures Runs(cfg, run, s) && s.ctx.readsDone == 1
  {
    run, s := Appended(cfg, s0);
    var c, p := s.ctx, Pair(Cdw0(ZoneStart(cfg.zone)), Pattern(0));
    assert Settle(c, 0).pending == [p];
    run, s := Move(cfg, run, s, Complete(0, true));
    assert s.ctx.reading == map[1 := Fetch(p, Waiting)] && s.ctx.appending == map[];
    assert s.ctx.depth == 1 && s.ctx.readsDone == 0;
    run, s := Move(cfg, run, s, Serve(1));
    run, s := Move(cfg, run, s, Complete(1, false));
  }

  /** In a high zone the one read of that run fails. */
  lemma HighZoneFails(cfg: Config, s0: State) returns (run: Run, s: State)
    requires Fresh(cfg, s0) && IoSize(cfg) > 50 && cfg.zone >= 8192
    ensures Runs(cfg, run, s) && s.ctx.readsDone == 1 && s.ctx.failed == 1
  {
    run, s := OneReadBack(cfg, s0);
    PassesExactlyInLowZones(cfg, run.states, run.steps, |run.steps|);
  }
}
