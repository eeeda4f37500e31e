/**
 What happens in the zones whose addresses do not fit 32 bits: nothing is found where
 the truncated addresses point, and every verification fails.
 */
module VerifyZones {
  import opened ReadBack
  import opened VerifyModel
  import opened VerifyRuns

  const LIMIT: nat := 0x1_0000_0000

  ghost predicate High(media: Media) { forall b | b in media :: b >= LIMIT }

  ghost predicate Low(p: Pair) { p.lba < LIMIT && p.expected != [] }

  ghost predicate LowAppend(a: Append) { a.text != [] && (a.cdw0.Done? ==> a.cdw0.value < LIMIT) }

  ghost predicate LowRead(f: Fetch) { Low(f.pair) && (f.found.Done? ==> f.found.value == []) }

  ghost predicate Astray(c: Ctx) {
    && c.passed == 0
    && (forall id | id in c.appending :: LowAppend(c.appending[id]))
    && (forall i | 0 <= i < |c.pending| :: Low(c.pending[i]))
    && (forall id | id in c.reading :: LowRead(c.reading[id]))
  }

  /** The device holds nothing but what this program appends, and no command fails. */
  ghost predicate Alone(steps: seq<Step>) {
    forall i | 0 <= i < |steps| :: !steps[i].Refuse? && !steps[i].Spoil? && !steps[i].Foreign?
  }

  lemma {:induction false} WrittenHigh(media: Media, lba: nat, sectors: seq<string>)
    requires High(media) && lba >= LIMIT
    ensures High(Written(media, lba, sectors))
    decreases |sectors|
  {
    if sectors != [] {
      WrittenHigh(media[lba := sectors[0]], lba + 1, sectors[1..]);
    }
  }

  lemma NothingThere(cfg: Config, media: Media, lba: nat)
    requires Sane(cfg) && High(media) && lba < LIMIT
    ensures CString(Join(ReadSectors(media, lba, cfg.blocks, cfg.sectorSize))) == []
  {
    var sectors := ReadSectors(media, lba, cfg.blocks, cfg.sectorSize);
    assert sectors[0] == Zeros(cfg.sectorSize);
    assert Join(sectors)[0] == NUL;
  }

  lemma SettleAstray(c: Ctx, id: nat)
    requires Astray(c) && Completable(c, id)
    ensures Astray(Settle(c, id))
  {
    if id !in c.appending {
      assert LowRead(c.reading[id]);
    } else {
      assert LowAppend(c.appending[id]);
    }
  }

  lemma AppendAstray(c: Ctx, ok: bool)
    requires Astray(c)
    ensures Astray(SubmitAppend(c, ok))
  {
  }

  lemma ReplaceAstray(c: Ctx, queueDepth: nat, ok: bool)
    requires Astray(c)
    ensures Astray(Replace(c, queueDepth, ok))
  {
    AppendAstray(c, ok);
    if c.pending != [] {
      assert Low(c.pending[0]);
      assert LowRead(Fetch(c.pending[0], Waiting));
    }
  }

  lemma StepAstray(cfg: Config, s: State, step: Step)
    requires Sane(cfg) && cfg.zone >= 8192 && Astray(s.ctx) && High(s.media)
    requires Enabled(cfg, s, step) && !step.Refuse? && !step.Spoil? && !step.Foreign?
    ensures var s' := Do(cfg, s, step); Astray(s'.ctx) && High(s'.media)
  {
    match step
    case Begin(ok) => AppendAstray(s.ctx, ok);
    case Place(id, lba) => WrittenHigh(s.media, lba, Payload(cfg, s.ctx.appending[id].text));
    case Serve(id) => NothingThere(cfg, s.media, s.ctx.reading[id].pair.lba);
    case Complete(id, ok) =>
      SettleAstray(s.ctx, id);
      ReplaceAstray(Settle(s.ctx, id), cfg.queueDepth, ok);
    case Drain =>
  }

  lemma {:induction false} RunAstray(cfg: Config, states: seq<State>, steps: seq<Step>, k: nat)
    requires IsRun(cfg, states, steps) && Alone(steps) && states[0].media == map[] && cfg.zone >= 8192 && k < |states|
    ensures Astray(states[k].ctx) && High(states[k].media)
  {
    if k > 0 {
      RunAstray(cfg, states, steps, k - 1);
      StepAstray(cfg, states[k - 1], steps[k - 1]);
    }
  }

  /**
   On a device that holds nothing else, with room for the compared characters: if any
   read has completed, then all have passed when the zone is one of the first 8192, and
   none has otherwise.
   */
  lemma PassesExactlyInLowZones(cfg: Config, states: seq<State>, steps: seq<Step>, k: nat)
    requires IsRun(cfg, states, steps) && Alone(steps) && states[0].media == map[] && IoSize(cfg) > 50 && k < |states|
    requires states[k].ctx.readsDone > 0
    ensures states[k].ctx.passed == states[k].ctx.readsDone <==> cfg.zone < 8192
    ensures states[k].ctx.failed == states[k].ctx.readsDone <==> cfg.zone >= 8192
  {
    AccountingHolds(cfg, states, steps, k);
    if cfg.zone < 8192 {
      EveryReadPasses(cfg, states, steps, k);
    } else {
      RunAstray(cfg, states, steps, k);
    }
  }
}
