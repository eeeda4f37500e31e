/**
 On a medium that holds nothing but this program's writes, whatever addresses failed
 appends may have come back with: a verification read passes exactly when its address
 held its own text.
 */
module VerifyOwn {
  import opened Decimal
  import opened ReadBack
  import opened VerifyModel
  import opened VerifyRuns

  // ---- Where the texts begin

  /** A text begins with a letter that comes nowhere else in it. */
  lemma OnlyHeadBegins(count: nat, i: nat)
    requires 0 < i < |Pattern(count)|
    ensures Pattern(count)[0] == 'z' && Pattern(count)[i] != 'z'
  {
    var h, n, m, x := HEAD, ToString(count), MIDDLE, ToString(Scrambled(count));
    assert Pattern(count) == h + n + m + x;
    if i >= |h| {
      assert Pattern(count)[i] in n || Pattern(count)[i] in m || Pattern(count)[i] in x;
    }
  }

  lemma BufferBegins(count: nat, size: nat, i: nat)
    requires 0 < i < size
    ensures Buffer(Pattern(count), size)[i] != 'z'
  {
    if i < |Pattern(count)| {
      OnlyHeadBegins(count, i);
    }
  }

  lemma {:induction false} SectorBegins(b: string, sectorSize: nat, k: nat)
    requires sectorSize > 0 && k < |Split(b, sectorSize)|
    ensures |Split(b, sectorSize)[k]| == sectorSize && Bytes(k, sectorSize) < |b|
    ensures Split(b, sectorSize)[k][0] == b[Bytes(k, sectorSize)]
  {
    if k > 0 {
      SectorBegins(b[sectorSize..], sectorSize, k - 1);
    }
  }

  // ---- The medium

  /** Block `b` is part of a write of this program that begins at block `p`. */
  ghost predicate PartOf(cfg: Config, media: Media, b: nat, p: nat, count: nat) {
    count < WORD && p <= b < p + cfg.blocks && Holds(media, p, Payload(cfg, Pattern(count)))
  }

  ghost predicate Part(cfg: Config, media: Media, b: nat) { exists p, count :: PartOf(cfg, media, b, p, count) }

  ghost predicate OwnMedia(cfg: Config, media: Media) { forall b | b in media :: Part(cfg, media, b) }

  ghost predicate OwnText(text: string) { exists count: nat :: count < WORD && text == Pattern(count) }

  lemma OwnWrite(cfg: Config, media: Media, lba: nat, text: string)
    requires Sane(cfg) && OwnMedia(cfg, media) && OwnText(text) && Vacant(media, lba, cfg.blocks)
    ensures OwnMedia(cfg, Written(media, lba, Payload(cfg, text)))
  {
    var media' := Written(media, lba, Payload(cfg, text));
    var count: nat :| count < WORD && text == Pattern(count);
    PayloadText(cfg, text);
    WrittenHolds(media, lba, Payload(cfg, text));
    forall b | b in media' ensures Part(cfg, media', b) {
      if lba <= b < lba + cfg.blocks {
        assert PartOf(cfg, media', b, lba, count);
      } else {
        WrittenElsewhere(media, lba, Payload(cfg, text), b);
        var p, n :| PartOf(cfg, media, b, p, n);
        HoldsOn(media, p, Payload(cfg, Pattern(n)), lba, Payload(cfg, text));
        assert PartOf(cfg, media', b, p, n);
      }
    }
  }

  lemma {:induction false} WrittenElsewhere(media: Media, lba: nat, sectors: seq<string>, b: nat)
    requires !(lba <= b < lba + |sectors|)
    ensures b in Written(media, lba, sectors) <==> b in media
    decreases |sectors|
  {
    if sectors != [] {
      WrittenElsewhere(media[lba := sectors[0]], lba + 1, sectors[1..], b);
    }
  }

  // ---- What a read finds

  ghost function Found(cfg: Config, media: Media, lba: nat): string {
    CString(Join(ReadSectors(media, lba, cfg.blocks, cfg.sectorSize)))
  }

  /** Nothing is found where nothing was written. */
  lemma FindsNothing(cfg: Config, media: Media, lba: nat)
    requires Sane(cfg) && lba !in media
    ensures Found(cfg, media, lba) == []
  {
    var sectors := ReadSectors(media, lba, cfg.blocks, cfg.sectorSize);
    assert sectors[0] == Zeros(cfg.sectorSize);
    assert Join(sectors)[0] == NUL;
  }

  /** From inside a write, what is found does not begin as a text does. */
  lemma FindsMiddle(cfg: Config, media: Media, lba: nat, p: nat, count: nat)
    requires Sane(cfg) && lba in media && PartOf(cfg, media, lba, p, count) && p < lba
    ensures Found(cfg, media, lba) == [] || Found(cfg, media, lba)[0] != 'z'
  {
    var text, k := Pattern(count), lba - p;
    PayloadText(cfg, text);
    SectorBegins(Buffer(text, IoSize(cfg)), cfg.sectorSize, k);
    BytesPositive(k, cfg.sectorSize);
    BufferBegins(count, IoSize(cfg), Bytes(k, cfg.sectorSize));
    var sectors := ReadSectors(media, lba, cfg.blocks, cfg.sectorSize);
    assert sectors[0] == Payload(cfg, text)[k];
    assert Join(sectors)[0] == sectors[0][0];
  }

  lemma BytesPositive(k: nat, sectorSize: nat)
    requires k > 0 && sectorSize > 0
    ensures Bytes(k, sectorSize) > 0
  {
  }

  lemma FindsWhole(cfg: Config, media: Media, lba: nat, count: nat)
    requires Sane(cfg) && Holds(media, lba, Payload(cfg, Pattern(count)))
    ensures IoSize(cfg) > 0 && Found(cfg, media, lba) == CString(Buffer(Pattern(count), IoSize(cfg)))
  {
    PayloadText(cfg, Pattern(count));
    ReadBackSectors(media, lba, Payload(cfg, Pattern(count)), cfg.sectorSize);
  }

  /** What a match begins with. */
  lemma MatchBegins(read: string, count: nat)
    requires Matches(read, Pattern(count))
    ensures read != [] && read[0] == 'z'
  {
    PatternParts(count);
    var n := CompareLength(Pattern(count));
    OnlyHeadBegins(count, 1);
    assert Substr(read, n)[0] == Substr(Pattern(count), n)[0];
  }

  /** On such a medium a read passes exactly when its address holds its own text, and the compared part fits. */
  lemma PassesExactlyOnOwn(cfg: Config, media: Media, lba: nat, count: nat)
    requires Sane(cfg) && OwnMedia(cfg, media) && count < WORD
    ensures Matches(Found(cfg, media, lba), Pattern(count))
            <==> Holds(media, lba, Payload(cfg, Pattern(count))) && CompareLength(Pattern(count)) < IoSize(cfg)
  {
    PayloadText(cfg, Pattern(count));
    if Holds(media, lba, Payload(cfg, Pattern(count))) {
      FindsWhole(cfg, media, lba, count);
      MatchesExactly(count, count, IoSize(cfg));
    } else if Matches(Found(cfg, media, lba), Pattern(count)) {
      MatchBegins(Found(cfg, media, lba), count);
      MatchIsWhole(cfg, media, lba, count);
    }
  }

  /** Whatever begins as a text does is a whole write. */
  lemma BeginsAtWrite(cfg: Config, media: Media, lba: nat) returns (n: nat)
    requires Sane(cfg) && OwnMedia(cfg, media) && Found(cfg, media, lba) != [] && Found(cfg, media, lba)[0] == 'z'
    ensures n < WORD && Holds(media, lba, Payload(cfg, Pattern(n)))
  {
    if lba !in media {
      FindsNothing(cfg, media, lba);
    }
    assert Part(cfg, media, lba);
    var p: nat, count: nat :| PartOf(cfg, media, lba, p, count);
    n := count;
    if p < lba {
      FindsMiddle(cfg, media, lba, p, n);
    }
  }

  lemma MatchIsWhole(cfg: Config, media: Media, lba: nat, count: nat)
    requires Sane(cfg) && OwnMedia(cfg, media) && count < WORD && Matches(Found(cfg, media, lba), Pattern(count))
    requires Found(cfg, media, lba) != [] && Found(cfg, media, lba)[0] == 'z'
    ensures Holds(media, lba, Payload(cfg, Pattern(count)))
  {
    var n := BeginsAtWrite(cfg, media, lba);
    FindsWhole(cfg, media, lba, n);
    MatchesExactly(n, count, IoSize(cfg));
  }

  // ---- Over runs

  /** Every write on the medium and every text on its way is this program's own. */
  ghost predicate Own(cfg: Config, s: State) {
    && OwnMedia(cfg, s.media) && s.ctx.count < WORD
    && (forall id | id in s.ctx.appending :: OwnText(s.ctx.appending[id].text))
    && (forall i | 0 <= i < |s.ctx.pending| :: OwnText(s.ctx.pending[i].expected))
    && (forall id | id in s.ctx.reading :: OwnText(s.ctx.reading[id].pair.expected))
  }

  lemma AppendOwn(c: Ctx, ok: bool, media: Media, cfg: Config, owed: nat)
    requires Own(cfg, State(c, media, owed))
    ensures forall n: nat :: Own(cfg, State(SubmitAppend(c, ok), media, n))
  {
    assert OwnText(Pattern(c.count));
  }

  lemma SettleOwn(c: Ctx, id: nat, media: Media, cfg: Config, owed: nat)
    requires Own(cfg, State(c, media, owed)) && Completable(c, id)
    ensures Own(cfg, State(Settle(c, id), media, owed))
  {
  }

  lemma ReplaceOwn(c: Ctx, queueDepth: nat, ok: bool, media: Media, cfg: Config, owed: nat)
    requires Own(cfg, State(c, media, owed))
    ensures Own(cfg, State(Replace(c, queueDepth, ok), media, owed))
  {
    AppendOwn(c, ok, media, cfg, owed);
    if c.pending != [] {
      assert OwnText(c.pending[0].expected);
    }
  }

  /** Nobody else writes, and reads do not fail; appends may. */
  ghost predicate Private(steps: seq<Step>) {
    forall i | 0 <= i < |steps| :: !steps[i].Spoil? && !steps[i].Foreign?
  }

  lemma StepOwn(cfg: Config, s: State, step: Step)
    requires Sane(cfg) && Own(cfg, s) && Enabled(cfg, s, step) && !step.Spoil? && !step.Foreign?
    ensures Own(cfg, Do(cfg, s, step))
  {
    match step
    case Begin(ok) => AppendOwn(s.ctx, ok, s.media, cfg, s.owed);
    case Place(id, lba) => OwnWrite(cfg, s.media, lba, s.ctx.appending[id].text);
    case Complete(id, ok) =>
      SettleOwn(s.ctx, id, s.media, cfg, s.owed);
      ReplaceOwn(Settle(s.ctx, id), cfg.queueDepth, ok, s.media, cfg, s.owed);
    case _ =>
  }

  lemma {:induction false} RunOwn(cfg: Config, states: seq<State>, steps: seq<Step>, k: nat)
    requires IsRun(cfg, states, steps) && Private(steps) && states[0].media == map[] && k < |states|
    ensures Own(cfg, states[k])
  {
    if k > 0 {
      RunOwn(cfg, states, steps, k - 1);
      StepOwn(cfg, states[k - 1], steps[k - 1]);
    }
  }

  /** The read `id` was served in step `j`, and `f` is what it found. */
  ghost predicate ServedIn(cfg: Config, states: seq<State>, steps: seq<Step>, j: nat, id: nat, f: Fetch) {
    && j < |steps| && j < |states| && steps[j] == Serve(id)
    && f.found == Done(Found(cfg, states[j].media, f.pair.lba))
  }

  lemma SubmittedWaits(c: Ctx, queueDepth: nat, ok: bool, id: nat)
    ensures var c' := Replace(c, queueDepth, ok);
            id in c'.reading ==> (id in c.reading && c'.reading[id] == c.reading[id]) || c'.reading[id].found.Waiting?
  {
  }

  lemma StepServes(cfg: Config, s: State, step: Step, id: nat)
    requires Enabled(cfg, s, step) && !step.Spoil?
    requires id in Do(cfg, s, step).ctx.reading && Do(cfg, s, step).ctx.reading[id].found.Done?
    ensures var f := Do(cfg, s, step).ctx.reading[id];
            || (id in s.ctx.reading && f == s.ctx.reading[id])
            || (step == Serve(id) && f.found == Done(Found(cfg, s.media, f.pair.lba)))
  {
    if step.Complete? {
      SubmittedWaits(Settle(s.ctx, step.id), cfg.queueDepth, step.ok, id);
    }
  }

  lemma {:induction false} WasServed(cfg: Config, states: seq<State>, steps: seq<Step>, k: nat, id: nat)
    returns (j: nat)
    requires IsRun(cfg, states, steps) && Private(steps) && k < |states|
    requires id in states[k].ctx.reading && states[k].ctx.reading[id].found.Done?
    ensures j < k && ServedIn(cfg, states, steps, j, id, states[k].ctx.reading[id])
    decreases k
  {
    var i := k - 1;
    StepServes(cfg, states[i], steps[i], id);
    if id in states[i].ctx.reading && states[k].ctx.reading[id] == states[i].ctx.reading[id] {
      j := WasServed(cfg, states, steps, i, id);
    } else {
      j := i;
    }
  }

  /**
   Over every run in which nobody else writes and reads do not fail, whatever appends
   may: a verification read passes exactly when, at the time it was served, its address
   held the text of its own write, and the compared part of it fits the buffer.
   */
  lemma PassesOwnExactly(cfg: Config, states: seq<State>, steps: seq<Step>, k: nat) returns (j: nat)
    requires IsRun(cfg, states, steps) && Private(steps) && states[0].media == map[] && k < |steps|
    requires steps[k].Complete? && steps[k].id in states[k].ctx.reading
    ensures j < k && steps[j] == Serve(steps[k].id)
    ensures var p := states[k].ctx.reading[steps[k].id].pair;
            var own := Stored(cfg, states[j].media, p) && CompareLength(p.expected) < IoSize(cfg);
            && states[k + 1].ctx.passed == states[k].ctx.passed + (if own then 1 else 0)
            && states[k + 1].ctx.failed == states[k].ctx.failed + (if own then 0 else 1)
  {
    var id := steps[k].id;
    var c := states[k].ctx;
    AccountingHolds(cfg, states, steps, k);
    j := WasServed(cfg, states, steps, k, id);
    RunOwn(cfg, states, steps, j);
    RunOwn(cfg, states, steps, k);
    OwnReadCounts(cfg, c, states[j].media, id);
    ReplaceCounts(Settle(c, id), cfg.queueDepth, steps[k].ok);
  }

  lemma OwnReadCounts(cfg: Config, c: Ctx, media: Media, id: nat)
    requires Sane(cfg) && OwnMedia(cfg, media) && Numbered(c) && Completable(c, id) && id in c.reading
    requires OwnText(c.reading[id].pair.expected)
    requires c.reading[id].found == Done(Found(cfg, media, c.reading[id].pair.lba))
    ensures var p := c.reading[id].pair;
            var own := Stored(cfg, media, p) && CompareLength(p.expected) < IoSize(cfg);
            && Settle(c, id).passed == c.passed + (if own then 1 else 0)
            && Settle(c, id).failed == c.failed + (if own then 0 else 1)
  {
    var p := c.reading[id].pair;
    var count: nat :| count < WORD && p.expected == Pattern(count);
    PatternPrintable(count);
    PassesExactlyOnOwn(cfg, media, p.lba, count);
  }
}
