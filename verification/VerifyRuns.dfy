/** Every run of verification.cc against a zoned device that serves commands in any order. */
module VerifyRuns {
  import opened ReadBack
  import opened VerifyModel
  import IoEngine

  datatype Config = Config(zone: nat, queueDepth: nat, blocks: nat, sectorSize: nat)

  ghost predicate Sane(cfg: Config) { cfg.blocks > 0 && cfg.sectorSize > 0 }

  function IoSize(cfg: Config): nat { Bytes(cfg.blocks, cfg.sectorSize) }

  lemma IoSizePositive(cfg: Config)
    requires Sane(cfg)
    ensures IoSize(cfg) > 0
  {
  }

  /** A namespace without metadata that `register_ns` accepts is transferred in I/Os of the configured size. */
  lemma RegisteredIoSize(cfg: Config, sectors: nat, ioSize: nat)
    requires cfg.sectorSize > 0
    requires var r := IoEngine.RegisterNs(sectors, cfg.sectorSize, cfg.sectorSize, ioSize);
             r.Some? && cfg.blocks == r.value.ioSizeBlocks
    ensures Sane(cfg) && IoSize(cfg) == ioSize
  {
    BytesIsProduct(cfg.blocks, cfg.sectorSize);
  }

  type Media = map<nat, string>

  datatype State = State(ctx: Ctx, media: Media, owed: nat)

  datatype Step =
    | Begin(ok: bool)                            // one round of submit_io
    | Place(id: nat, lba: nat)                   // the device appends
    | Refuse(id: nat, cdw0: nat)                 // ... or fails to, which nobody looks at
    | Serve(id: nat)                             // the device reads
    | Spoil(id: nat, found: string)              // ... or fails to
    | Complete(id: nat, ok: bool)                // io_complete, with its replacement
    | Drain                                      // drain_io sets is_draining
    | Foreign(lba: nat, sectors: seq<string>)    // somebody else appends

  // ---- The device

  ghost predicate Vacant(media: Media, lba: nat, n: nat) { forall b | lba <= b < lba + n :: b !in media }

  /** A zone append lands anywhere in its zone that is vacant. */
  ghost predicate MayPlace(cfg: Config, media: Media, lba: nat) {
    ZoneStart(cfg.zone) <= lba && lba + cfg.blocks <= ZoneStart(cfg.zone + 1) && Vacant(media, lba, cfg.blocks)
  }

  ghost function Written(media: Media, lba: nat, sectors: seq<string>): Media
    decreases |sectors|
  {
    if sectors == [] then media else Written(media[lba := sectors[0]], lba + 1, sectors[1..])
  }

  /** Blocks nobody has written read as zeros. */
  ghost function ReadSectors(media: Media, lba: nat, n: nat, sectorSize: nat): seq<string>
    decreases n
  {
    if n == 0 then []
    else [if lba in media then media[lba] else Zeros(sectorSize)] + ReadSectors(media, lba + 1, n - 1, sectorSize)
  }

  function Payload(cfg: Config, text: string): seq<string> {
    if IoSize(cfg) > 0 && cfg.sectorSize > 0 then Split(Buffer(text, IoSize(cfg)), cfg.sectorSize) else []
  }

  ghost predicate Enabled(cfg: Config, s: State, step: Step) {
    var c := s.ctx;
    && !c.exited
    && match step
       case Begin(_) => s.owed > 0
       case Place(id, lba) => id in c.appending && c.appending[id].cdw0.Waiting? && MayPlace(cfg, s.media, lba)
       case Refuse(id, cdw0) => id in c.appending && c.appending[id].cdw0.Waiting?
       case Serve(id) => id in c.reading && c.reading[id].found.Waiting?
       case Spoil(id, _) => id in c.reading && c.reading[id].found.Waiting?
       case Complete(id, _) => s.owed == 0 && Completable(c, id)
       case Drain => s.owed == 0
       case Foreign(lba, sectors) => Vacant(s.media, lba, |sectors|)
  }

  ghost function Placed(c: Ctx, id: nat, cdw0: nat): Ctx
    requires id in c.appending
  {
    c.(appending := c.appending[id := c.appending[id].(cdw0 := Done(cdw0))])
  }

  ghost function Served(c: Ctx, id: nat, found: string): Ctx
    requires id in c.reading
  {
    c.(reading := c.reading[id := c.reading[id].(found := Done(found))])
  }

  ghost function Do(cfg: Config, s: State, step: Step): State
    requires Enabled(cfg, s, step)
  {
    var c := s.ctx;
    match step
    case Begin(ok) => s.(ctx := SubmitAppend(c, ok), owed := s.owed - 1)
    case Place(id, lba) =>
      s.(ctx := Placed(c, id, Cdw0(lba)), media := Written(s.media, lba, Payload(cfg, c.appending[id].text)))
    case Refuse(id, cdw0) => s.(ctx := Placed(c, id, cdw0))
    case Serve(id) =>
      s.(ctx := Served(c, id, CString(Join(ReadSectors(s.media, c.reading[id].pair.lba, cfg.blocks, cfg.sectorSize)))))
    case Spoil(id, found) => s.(ctx := Served(c, id, found))
    case Complete(id, ok) => s.(ctx := TaskComplete(c, id, cfg.queueDepth, ok))
    case Drain => s.(ctx := c.(draining := true))
    case Foreign(lba, sectors) => s.(media := Written(s.media, lba, sectors))
  }

  ghost predicate Init(cfg: Config, s: State) {
    && s.owed == cfg.queueDepth
    && s.ctx == Ctx(0, 0, 0, false, 0, 0, 0, 0, [], 0, map[], map[], 0, s.ctx.free, false)
  }

  ghost predicate IsRun(cfg: Config, states: seq<State>, steps: seq<Step>) {
    && Sane(cfg) && |states| == |steps| + 1 && Init(cfg, states[0])
    && forall i | 0 <= i < |steps| :: Enabled(cfg, states[i], steps[i]) && states[i + 1] == Do(cfg, states[i], steps[i])
  }

  // ---- Accounting

  lemma PlacedAccounted(c: Ctx, id: nat, cdw0: nat, queueDepth: nat, pool: nat, owed: nat)
    requires Accounted(c, queueDepth, pool, owed) && id in c.appending
    ensures Accounted(Placed(c, id, cdw0), queueDepth, pool, owed)
  {
    Added(c.appending, id, c.appending[id].(cdw0 := Done(cdw0)));
  }

  lemma ServedAccounted(c: Ctx, id: nat, found: string, queueDepth: nat, pool: nat, owed: nat)
    requires Accounted(c, queueDepth, pool, owed) && id in c.reading
    ensures Accounted(Served(c, id, found), queueDepth, pool, owed)
  {
    Added(c.reading, id, c.reading[id].(found := Done(found)));
  }

  lemma StepAccounted(cfg: Config, s: State, step: Step, pool: nat)
    requires Accounted(s.ctx, cfg.queueDepth, pool, s.owed) && Enabled(cfg, s, step)
    ensures var s' := Do(cfg, s, step); Accounted(s'.ctx, cfg.queueDepth, pool, s'.owed)
    ensures cfg.queueDepth <= pool ==> !Do(cfg, s, step).ctx.exited
  {
    match step
    case Begin(ok) => AppendAccounted(s.ctx, ok, cfg.queueDepth, pool, s.owed);
    case Place(id, lba) => PlacedAccounted(s.ctx, id, Cdw0(lba), cfg.queueDepth, pool, s.owed);
    case Refuse(id, cdw0) => PlacedAccounted(s.ctx, id, cdw0, cfg.queueDepth, pool, s.owed);
    case Serve(id) =>
      ServedAccounted(s.ctx, id, Do(cfg, s, step).ctx.reading[id].found.value, cfg.queueDepth, pool, s.owed);
    case Spoil(id, found) => ServedAccounted(s.ctx, id, found, cfg.queueDepth, pool, s.owed);
    case Complete(id, ok) => CompleteAccounted(s.ctx, id, cfg.queueDepth, pool, s.owed, ok);
    case Drain =>
    case Foreign(lba, sectors) =>
  }

  /**
   In every run, whatever the device does: completed appends are the completed reads, the
   reads in flight, the queued pairs and the dropped ones; passed and failed reads are the
   completed ones; the tasks in flight are the counted ones and the rest of the pool is
   free; nothing is queued before draining, and never more than the queue depth.
   */
  lemma {:induction false} AccountingHolds(cfg: Config, states: seq<State>, steps: seq<Step>, k: nat)
    requires IsRun(cfg, states, steps) && k < |states|
    ensures Accounted(states[k].ctx, cfg.queueDepth, states[0].ctx.free, states[k].owed)
    ensures cfg.queueDepth <= states[0].ctx.free ==> !states[k].ctx.exited
  {
    if k > 0 {
      AccountingHolds(cfg, states, steps, k - 1);
      StepAccounted(cfg, states[k - 1], steps[k - 1], states[0].ctx.free);
    }
  }

  /** Once drained, each append has been read back, is still queued, or was dropped. */
  lemma DrainedAccounts(cfg: Config, states: seq<State>, steps: seq<Step>, k: nat)
    requires IsRun(cfg, states, steps) && k < |states| && states[k].ctx.depth == 0
    ensures var c := states[k].ctx;
            && c.writesDone == c.passed + c.failed + |c.pending| + c.dropped && |c.pending| <= cfg.queueDepth
            && c.free == states[0].ctx.free
  {
    AccountingHolds(cfg, states, steps, k);
  }

  // ---- Forgotten pairs

  /** An append completes while the run lasts, and the device refuses the read that is to take its place. */
  ghost predicate ForgetsPair(s: State, step: Step) {
    step.Complete? && !step.ok && step.id in s.ctx.appending && !s.ctx.draining
  }

  lemma ReplaceForgets(c: Ctx, queueDepth: nat, pool: nat, owed: nat, ok: bool)
    requires Vacated(c, queueDepth, pool, owed)
    ensures Replace(c, queueDepth, ok).dropped == c.dropped + if !c.draining && c.pending != [] && !ok then 1 else 0
  {
  }

  /** A step forgets a pair exactly then. */
  lemma StepForgets(cfg: Config, s: State, step: Step, pool: nat)
    requires Accounted(s.ctx, cfg.queueDepth, pool, s.owed) && Enabled(cfg, s, step)
    ensures Do(cfg, s, step).ctx.dropped == s.ctx.dropped + if ForgetsPair(s, step) then 1 else 0
  {
    if step.Complete? {
      SettleAccounted(s.ctx, step.id, cfg.queueDepth, pool, s.owed);
      ReplaceForgets(Settle(s.ctx, step.id), cfg.queueDepth, pool, s.owed, step.ok);
    }
  }

  ghost function Forgotten(states: seq<State>, steps: seq<Step>, k: nat): nat
    requires k <= |steps| && k <= |states|
  {
    if k == 0 then 0
    else Forgotten(states, steps, k - 1) + if ForgetsPair(states[k - 1], steps[k - 1]) then 1 else 0
  }

  lemma {:induction false} NoneForgotten(states: seq<State>, steps: seq<Step>, k: nat)
    requires k <= |steps| && k <= |states|
    ensures Forgotten(states, steps, k) == 0 <==> forall i | 0 <= i < k :: !ForgetsPair(states[i], steps[i])
  {
    if k > 0 {
      NoneForgotten(states, steps, k - 1);
    }
  }

  lemma {:induction false} RunForgets(cfg: Config, states: seq<State>, steps: seq<Step>, k: nat)
    requires IsRun(cfg, states, steps) && k < |states|
    ensures states[k].ctx.dropped == Forgotten(states, steps, k)
  {
    if k > 0 {
      var i := k - 1;
      RunForgets(cfg, states, steps, i);
      AccountingHolds(cfg, states, steps, i);
      StepForgets(cfg, states[i], steps[i], states[0].ctx.free);
    }
  }

  /** Over every run each forgotten pair is one such step, so none is forgotten exactly if there is none. */
  lemma ForgottenExactly(cfg: Config, states: seq<State>, steps: seq<Step>, k: nat)
    requires IsRun(cfg, states, steps) && k < |states|
    ensures states[k].ctx.dropped == Forgotten(states, steps, k)
    ensures states[k].ctx.dropped == 0 <==> forall i | 0 <= i < k :: !ForgetsPair(states[i], steps[i])
  {
    RunForgets(cfg, states, steps, k);
    NoneForgotten(states, steps, k);
  }

  // ---- Reading back

  ghost predicate Holds(media: Media, lba: nat, sectors: seq<string>) {
    forall b | lba <= b < lba + |sectors| :: b in media && media[b] == sectors[b - lba]
  }

  lemma {:induction false} ReadBackSectors(media: Media, lba: nat, sectors: seq<string>, sectorSize: nat)
    requires Holds(media, lba, sectors)
    ensures ReadSectors(media, lba, |sectors|, sectorSize) == sectors
    decreases |sectors|
  {
    if sectors != [] {
      ReadBackSectors(media, lba + 1, sectors[1..], sectorSize);
      assert sectors == [sectors[0]] + sectors[1..];
    }
  }

  lemma {:induction false} WrittenAt(media: Media, lba: nat, sectors: seq<string>, b: nat)
    ensures var media' := Written(media, lba, sectors);
            && (lba <= b < lba + |sectors| ==> b in media' && media'[b] == sectors[b - lba])
            && (!(lba <= b < lba + |sectors|) && b in media ==> b in media' && media'[b] == media[b])
    decreases |sectors|
  {
    if sectors != [] {
      WrittenAt(media[lba := sectors[0]], lba + 1, sectors[1..], b);
    }
  }

  lemma WrittenHolds(media: Media, lba: nat, sectors: seq<string>)
    ensures Holds(Written(media, lba, sectors), lba, sectors)
  {
    var media' := Written(media, lba, sectors);
    forall b | lba <= b < lba + |sectors| ensures b in media' && media'[b] == sectors[b - lba] {
      WrittenAt(media, lba, sectors, b);
    }
  }

  lemma HoldsOn(media: Media, lba: nat, sectors: seq<string>, at: nat, more: seq<string>)
    requires Holds(media, lba, sectors) && Vacant(media, at, |more|)
    ensures Holds(Written(media, at, more), lba, sectors)
  {
    var media' := Written(media, at, more);
    forall b | lba <= b < lba + |sectors| ensures b in media' && media'[b] == sectors[b - lba] {
      assert b in media && media[b] == sectors[b - lba];
      assert !(at <= b < at + |more|);
      WrittenAt(media, at, more, b);
    }
  }

  lemma PayloadText(cfg: Config, text: string)
    requires Sane(cfg)
    ensures IoSize(cfg) > 0 && |Payload(cfg, text)| == cfg.blocks
    ensures Join(Payload(cfg, text)) == Buffer(text, IoSize(cfg))
  {
    IoSizePositive(cfg);
    SplitJoin(Buffer(text, IoSize(cfg)), cfg.sectorSize, cfg.blocks);
  }

  ghost predicate Stored(cfg: Config, media: Media, p: Pair) {
    Printable(p.expected) && Holds(media, p.lba, Payload(cfg, p.expected))
  }

  ghost predicate AppendsFaithful(cfg: Config, c: Ctx, media: Media) {
    forall id | id in c.appending ::
      && Printable(c.appending[id].text)
      && (c.appending[id].cdw0.Done? ==> Stored(cfg, media, Pair(c.appending[id].cdw0.value, c.appending[id].text)))
  }

  ghost predicate PairsFaithful(cfg: Config, c: Ctx, media: Media) {
    forall i | 0 <= i < |c.pending| :: Stored(cfg, media, c.pending[i])
  }

  ghost predicate ReadFaithful(cfg: Config, f: Fetch, media: Media) {
    && Stored(cfg, media, f.pair)
    && (f.found.Done? ==> IoSize(cfg) > 0 && f.found.value == CString(Buffer(f.pair.expected, IoSize(cfg))))
  }

  ghost predicate ReadsFaithful(cfg: Config, c: Ctx, media: Media) {
    forall id | id in c.reading :: ReadFaithful(cfg, c.reading[id], media)
  }

  ghost predicate Faithful(cfg: Config, c: Ctx, media: Media) {
    AppendsFaithful(cfg, c, media) && PairsFaithful(cfg, c, media) && ReadsFaithful(cfg, c, media)
  }

  lemma ServedText(cfg: Config, media: Media, p: Pair)
    requires Sane(cfg) && Stored(cfg, media, p)
    ensures IoSize(cfg) > 0
    ensures CString(Join(ReadSectors(media, p.lba, cfg.blocks, cfg.sectorSize))) == CString(Buffer(p.expected,
            IoSize(cfg)))
  {
    PayloadText(cfg, p.expected);
    ReadBackSectors(media, p.lba, Payload(cfg, p.expected), cfg.sectorSize);
  }

  lemma PlaceExact(cfg: Config, media: Media, lba: nat)
    requires Sane(cfg) && cfg.zone < 8192 && MayPlace(cfg, media, lba)
    ensures Cdw0(lba) == lba
  {
    AddressExact(cfg.zone, lba);
  }

  lemma MediaGrows(cfg: Config, c: Ctx, media: Media, lba: nat, sectors: seq<string>)
    requires Faithful(cfg, c, media) && Vacant(media, lba, |sectors|)
    ensures Faithful(cfg, c, Written(media, lba, sectors))
  {
    forall p: Pair | Stored(cfg, media, p) ensures Stored(cfg, Written(media, lba, sectors), p) {
      HoldsOn(media, p.lba, Payload(cfg, p.expected), lba, sectors);
    }
  }

  lemma PlaceFaithful(cfg: Config, s: State, id: nat, lba: nat)
    requires Sane(cfg) && cfg.zone < 8192 && Faithful(cfg, s.ctx, s.media) && Enabled(cfg, s, Place(id, lba))
    ensures var s' := Do(cfg, s, Place(id, lba)); Faithful(cfg, s'.ctx, s'.media)
  {
    var sectors := Payload(cfg, s.ctx.appending[id].text);
    PlaceExact(cfg, s.media, lba);
    PayloadText(cfg, s.ctx.appending[id].text);
    MediaGrows(cfg, s.ctx, s.media, lba, sectors);
    WrittenHolds(s.media, lba, sectors);
  }

  lemma SettleFaithful(cfg: Config, c: Ctx, media: Media, id: nat)
    requires Faithful(cfg, c, media) && Completable(c, id)
    ensures Faithful(cfg, Settle(c, id), media)
  {
  }

  lemma AppendFaithful(cfg: Config, c: Ctx, media: Media, ok: bool)
    requires Faithful(cfg, c, media)
    ensures Faithful(cfg, SubmitAppend(c, ok), media)
  {
    PatternPrintable(c.count);
  }

  lemma SubmitReadFaithful(cfg: Config, c: Ctx, media: Media, p: Pair, ok: bool)
    requires Faithful(cfg, c, media) && Stored(cfg, media, p)
    ensures Faithful(cfg, SubmitRead(c, p, ok), media)
  {
  }

  lemma ReplaceFaithful(cfg: Config, c: Ctx, media: Media, ok: bool)
    requires Faithful(cfg, c, media)
    ensures Faithful(cfg, Replace(c, cfg.queueDepth, ok), media)
  {
    AppendFaithful(cfg, c, media, ok);
    if c.pending != [] {
      var c1 := c.(pending := c.pending[1..]);
      assert Faithful(cfg, c1, media);
      SubmitReadFaithful(cfg, c1, media, c.pending[0], ok);
    }
  }

  /** No command fails on the device. */
  ghost predicate Clean(steps: seq<Step>) {
    forall i | 0 <= i < |steps| :: !steps[i].Refuse? && !steps[i].Spoil?
  }

  lemma StepFaithful(cfg: Config, s: State, step: Step)
    requires Sane(cfg) && cfg.zone < 8192 && Faithful(cfg, s.ctx, s.media)
    requires Enabled(cfg, s, step) && !step.Refuse? && !step.Spoil?
    ensures var s' := Do(cfg, s, step); Faithful(cfg, s'.ctx, s'.media)
  {
    match step
    case Begin(ok) => AppendFaithful(cfg, s.ctx, s.media, ok);
    case Place(id, lba) => PlaceFaithful(cfg, s, id, lba);
    case Serve(id) => ServedText(cfg, s.media, s.ctx.reading[id].pair);
    case Complete(id, ok) =>
      SettleFaithful(cfg, s.ctx, s.media, id);
      ReplaceFaithful(cfg, Settle(s.ctx, id), s.media, ok);
    case Drain =>
    case Foreign(lba, sectors) => MediaGrows(cfg, s.ctx, s.media, lba, sectors);
  }

  lemma {:induction false} RunFaithful(cfg: Config, states: seq<State>, steps: seq<Step>, k: nat)
    requires IsRun(cfg, states, steps) && Clean(steps) && cfg.zone < 8192 && k < |states|
    ensures Faithful(cfg, states[k].ctx, states[k].media)
  {
    if k > 0 {
      RunFaithful(cfg, states, steps, k - 1);
      StepFaithful(cfg, states[k - 1], steps[k - 1]);
    }
  }

  /** A read passes exactly when the compared part of its text fits the buffer. */
  lemma ReadPassesExactly(cfg: Config, states: seq<State>, steps: seq<Step>, k: nat)
    requires IsRun(cfg, states, steps) && Clean(steps) && cfg.zone < 8192 && k < |steps|
    requires steps[k].Complete? && steps[k].id in states[k].ctx.reading
    ensures var expected := states[k].ctx.reading[steps[k].id].pair.expected;
            && (CompareLength(expected) < IoSize(cfg) <==> states[k + 1].ctx.passed == states[k].ctx.passed + 1)
            && (CompareLength(expected) >= IoSize(cfg) <==> states[k + 1].ctx.failed == states[k].ctx.failed + 1)
  {
    RunFaithful(cfg, states, steps, k);
    AccountingHolds(cfg, states, steps, k);
    OwnRead(cfg, states[k].ctx, states[k].media, steps[k].id);
    ReplaceCounts(Settle(states[k].ctx, steps[k].id), cfg.queueDepth, steps[k].ok);
  }

  lemma OwnRead(cfg: Config, c: Ctx, media: Media, id: nat)
    requires Faithful(cfg, c, media) && Numbered(c) && Completable(c, id) && id in c.reading
    ensures IoSize(cfg) > 0
    ensures var fits := CompareLength(c.reading[id].pair.expected) < IoSize(cfg);
            && Settle(c, id).passed == c.passed + (if fits then 1 else 0)
            && Settle(c, id).failed == c.failed + (if fits then 0 else 1)
  {
    var f := c.reading[id];
    assert ReadFaithful(cfg, f, media);
    OwnPatternMatches(f.pair.expected, IoSize(cfg));
  }

  lemma ReplaceCounts(c: Ctx, queueDepth: nat, ok: bool)
    ensures var c' := Replace(c, queueDepth, ok); c'.passed == c.passed && c'.failed == c.failed
  {
  }

  lemma StepPasses(cfg: Config, s: State, step: Step)
    requires Faithful(cfg, s.ctx, s.media) && Numbered(s.ctx) && IoSize(cfg) > 50 && Enabled(cfg, s, step)
    ensures Do(cfg, s, step).ctx.failed == s.ctx.failed
  {
    if step.Complete? {
      if step.id in s.ctx.reading {
        OwnRead(cfg, s.ctx, s.media, step.id);
      }
      ReplaceCounts(Settle(s.ctx, step.id), cfg.queueDepth, step.ok);
    }
  }

  lemma NextPasses(cfg: Config, states: seq<State>, steps: seq<Step>, k: nat)
    requires IsRun(cfg, states, steps) && Clean(steps) && cfg.zone < 8192 && IoSize(cfg) > 50 && k < |steps|
    ensures states[k + 1].ctx.failed == states[k].ctx.failed
  {
    assert Faithful(cfg, states[k].ctx, states[k].media) by {
      RunFaithful(cfg, states, steps, k);
    }
    assert Numbered(states[k].ctx) by {
      AccountingHolds(cfg, states, steps, k);
    }
    StepPasses(cfg, states[k], steps[k]);
  }

  lemma {:induction false} NoneFails(cfg: Config, states: seq<State>, steps: seq<Step>, k: nat)
    requires IsRun(cfg, states, steps) && Clean(steps) && cfg.zone < 8192 && IoSize(cfg) > 50 && k < |states|
    ensures states[k].ctx.failed == 0
  {
    if k > 0 {
      NoneFails(cfg, states, steps, k - 1);
      NextPasses(cfg, states, steps, k - 1);
    }
  }

  /** With room for the 50 compared characters, no verification ever fails, in any order of completion. */
  lemma EveryReadPasses(cfg: Config, states: seq<State>, steps: seq<Step>, k: nat)
    requires IsRun(cfg, states, steps) && Clean(steps) && cfg.zone < 8192 && IoSize(cfg) > 50 && k < |states|
    ensures states[k].ctx.failed == 0 && states[k].ctx.passed == states[k].ctx.readsDone
  {
    NoneFails(cfg, states, steps, k);
    AccountingHolds(cfg, states, steps, k);
  }
}
