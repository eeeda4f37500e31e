/**
 The append-then-read-back engine of verification.cc: each completed append queues its
 address and text, and while the run lasts the freed place in the queue goes to the
 oldest queued read, or else to a new append.
 */
module VerifyModel {
  import opened ReadBack

  /** What a completed append leaves to be read back. */
  datatype Pair = Pair(lba: nat, expected: string)

  /** A task in flight: an append of `text`, with the address once the device has placed it. */
  datatype Append = Append(text: string, cdw0: Result<nat>)

  /** ... or a verification read, with the string it found once the device has served it. */
  datatype Fetch = Fetch(pair: Pair, found: Result<string>)

  datatype Result<+T> = Waiting | Done(value: T)

  datatype Ctx = Ctx(
    count: nat,
    depth: nat,                      // current_queue_depth
    ioCompleted: nat,
    draining: bool,
    writesDone: nat,                     // write_completed
    readsDone: nat,                      // read_completed
    passed: nat,                     // verification_passed
    failed: nat,                     // verification_failed
    pending: seq<Pair>,              // pending_reads
    // the queue pair
    issued: nat,
    appending: map<nat, Append>,
    reading: map<nat, Fetch>,
    dropped: nat,                    // pairs whose read was refused
    free: nat,                       // the task pool
    exited: bool)

  /** A new append; a refused one gives its task back, but its number is used up. */
  function SubmitAppend(c: Ctx, ok: bool): Ctx {
    if c.free == 0 then c.(exited := true)
    else
      var c1 := c.(count := (c.count + 1) % WORD);
      if ok then
        c1.(depth := c.depth + 1, free := c.free - 1, issued := c.issued + 1,
            appending := c.appending[c.issued := Append(Pattern(c.count), Waiting)])
      else c1
  }

  /** A verification read; a refused one gives its task back, but the pair is forgotten. */
  function SubmitRead(c: Ctx, p: Pair, ok: bool): Ctx {
    if c.free == 0 then c.(exited := true)
    else if ok then
      c.(depth := c.depth + 1, free := c.free - 1, issued := c.issued + 1,
         reading := c.reading[c.issued := Fetch(p, Waiting)])
    else c.(dropped := c.dropped + 1)
  }

  /** The end of `task_complete`: what takes the freed place. */
  function Replace(c: Ctx, queueDepth: nat, ok: bool): Ctx {
    if c.draining then c
    else if c.pending != [] && c.depth < queueDepth then
      SubmitRead(c.(pending := c.pending[1..]), c.pending[0], ok)
    else SubmitAppend(c, ok)
  }

  predicate Completable(c: Ctx, id: nat) {
    && c.depth > 0
    && (id in c.appending ==> c.appending[id].cdw0.Done?)
    && (id !in c.appending ==> id in c.reading && c.reading[id].found.Done?)
  }

  /** A completed append: its address and text are queued. */
  function SettleAppend(c: Ctx, id: nat): Ctx
    requires c.depth > 0 && id in c.appending && c.appending[id].cdw0.Done?
  {
    c.(depth := c.depth - 1, ioCompleted := c.ioCompleted + 1, free := c.free + 1, writesDone := c.writesDone + 1,
       pending := c.pending + [Pair(c.appending[id].cdw0.value, c.appending[id].text)], appending := c.appending - {id})
  }

  /** A completed verification read. */
  function SettleRead(c: Ctx, id: nat): Ctx
    requires c.depth > 0 && id in c.reading && c.reading[id].found.Done?
  {
    var ok := Matches(c.reading[id].found.value, c.reading[id].pair.expected);
    c.(depth := c.depth - 1, ioCompleted := c.ioCompleted + 1, free := c.free + 1, readsDone := c.readsDone + 1,
       passed := c.passed + (if ok then 1 else 0), failed := c.failed + (if ok then 0 else 1),
           reading := c.reading - {id})
  }

  /** `io_complete` and `task_complete` up to the replacement. */
  function Settle(c: Ctx, id: nat): Ctx
    requires Completable(c, id)
  {
    if id in c.appending then SettleAppend(c, id) else SettleRead(c, id)
  }

  function TaskComplete(c: Ctx, id: nat, queueDepth: nat, ok: bool): Ctx
    requires Completable(c, id)
  {
    Replace(Settle(c, id), queueDepth, ok)
  }

  // ---- The counters

  ghost predicate Books(c: Ctx, pool: nat) {
    && c.writesDone == c.readsDone + |c.reading| + |c.pending| + c.dropped
    && c.passed + c.failed == c.readsDone && c.ioCompleted == c.writesDone + c.readsDone
    && c.depth == |c.appending| + |c.reading| && c.free + c.depth == pool
  }

  /** Between callbacks; `owed` initial appends are still to come. */
  ghost predicate Accounted(c: Ctx, queueDepth: nat, pool: nat, owed: nat) {
    && Books(c, pool) && Numbered(c)
    && c.depth + |c.pending| + owed <= queueDepth
    && (!c.draining ==> c.pending == [])
  }

  /** Inside `task_complete`, once the task has been given back. */
  ghost predicate Vacated(c: Ctx, queueDepth: nat, pool: nat, owed: nat) {
    && Books(c, pool) && Numbered(c) && c.free > 0
    && c.depth + 1 + owed <= queueDepth && c.depth + |c.pending| + owed <= queueDepth
    && (!c.draining ==> |c.pending| <= 1)
  }

  /** Task numbers are used once. */
  ghost predicate Numbered(c: Ctx) {
    && (forall id | id in c.appending :: id < c.issued && id !in c.reading)
    && (forall id | id in c.reading :: id < c.issued)
  }

  lemma AppendAccounted(c: Ctx, ok: bool, queueDepth: nat, pool: nat, owed: nat)
    requires Accounted(c, queueDepth, pool, owed) && owed > 0
    ensures Accounted(SubmitAppend(c, ok), queueDepth, pool, owed - 1)
  {
    if c.free > 0 && ok {
      var a := Append(Pattern(c.count), Waiting);
      Added(c.appending, c.issued, a);
    }
  }

  lemma Added<T>(m: map<nat, T>, id: nat, v: T)
    ensures |m[id := v]| == |m| + (if id in m then 0 else 1)
  {
    if id in m {
      assert m[id := v].Keys == m.Keys;
    } else {
      assert m[id := v].Keys == m.Keys + {id};
      assert |m.Keys + {id}| == |m.Keys| + 1;
    }
    assert |m| == |m.Keys| && |m[id := v]| == |m[id := v].Keys|;
  }

  lemma Removed<T>(m: map<nat, T>, id: nat)
    requires id in m
    ensures |m - {id}| == |m| - 1
  {
    assert (m - {id}).Keys == m.Keys - {id};
    assert |m| == |m.Keys| && |m - {id}| == |(m - {id}).Keys|;
  }

  lemma SettleAccounted(c: Ctx, id: nat, queueDepth: nat, pool: nat, owed: nat)
    requires Accounted(c, queueDepth, pool, owed) && Completable(c, id)
    ensures Vacated(Settle(c, id), queueDepth, pool, owed)
  {
    if id in c.appending {
      Removed(c.appending, id);
    } else {
      Removed(c.reading, id);
    }
  }

  lemma ReplaceAccounted(c: Ctx, queueDepth: nat, pool: nat, owed: nat, ok: bool)
    requires Vacated(c, queueDepth, pool, owed)
    ensures Accounted(Replace(c, queueDepth, ok), queueDepth, pool, owed)
    ensures Replace(c, queueDepth, ok).exited == c.exited
  {
    if c.pending != [] {
      Added(c.reading, c.issued, Fetch(c.pending[0], Waiting));
    }
    Added(c.appending, c.issued, Append(Pattern(c.count), Waiting));
  }

  /**
   A completion keeps the books, whatever it was and whether or not its replacement is
   accepted, and always finds a task for the replacement.
   */
  lemma CompleteAccounted(c: Ctx, id: nat, queueDepth: nat, pool: nat, owed: nat, ok: bool)
    requires Accounted(c, queueDepth, pool, owed) && Completable(c, id)
    ensures Accounted(TaskComplete(c, id, queueDepth, ok), queueDepth, pool, owed)
    ensures TaskComplete(c, id, queueDepth, ok).exited == c.exited
  {
    SettleAccounted(c, id, queueDepth, pool, owed);
    ReplaceAccounted(Settle(c, id), queueDepth, pool, owed, ok);
  }
}
