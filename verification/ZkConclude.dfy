/** A waiter with hope can be brought to hold the lock, or to lead. */
module ZkConclude {
  import opened Options
  import opened Trails
  import opened ZkSearch
  import opened ZkProtocol
  import opened ZkSafety
  import opened ZkRuns
  import opened ZkPaths
  import opened ZkWaking
  import opened ZkHope

  /** Some polite continuation of `s` ends with client `c` the holder. */
  ghost predicate CanHold(s: System, c: nat)
    requires c < |s.clients|
  {
    exists tr: Path :: Continues(tr, s) && Holder(tr.s, c, s.clients[c].seqMe)
  }

  /** The path has led to a state in which `c`, number `m`, still waits. */
  ghost predicate Waited(tr: Path, c: nat, m: nat) {
    Leads(tr, true) && Inv(tr.s) && Aimed(tr.s) && Waiting(tr.s, c) && tr.s.clients[c].seqMe == m
  }

  ghost predicate Held(tr: Path, c: nat, m: nat) { Leads(tr, true) && Holder(tr.s, c, m) }

  lemma WaiterIsKnown(s: System, c: nat)
    requires Inv(s) && Waiting(s, c)
    ensures Known(s, c, s.clients[c]) && !s.clients[c].closed
    ensures forall v | Own(s, c, v) :: v == s.clients[c].seqMe
  {
    assert ClientInv(s, c);
  }

  // ---- Single steps

  lemma Advance(tr0: Path, step: Step, c: nat, m: nat) returns (tr: Path)
    requires Waited(tr0, c, m) && Enabled(tr0.s, step) && Polite(tr0.s, step)
    ensures Leads(tr, true) && Origin(tr) == Origin(tr0) && tr == Then(tr0, step, Do(tr0.s, step))
    ensures Inv(tr.s) && Aimed(tr.s)
  {
    tr := Move(tr0, step, true);
    StepKeeps(tr0.s, step);
    StepAims(tr0.s, step);
  }

  lemma DeliverOne(tr0: Path, c: nat, m: nat) returns (tr: Path)
    requires Waited(tr0, c, m) && tr0.s.clients[c].inbox != []
    ensures Origin(tr) == Origin(tr0) && c < |tr.s.clients|
    ensures tr.s.clients[c] == Next(tr0.s.program, tr0.s.clients[c])
    ensures tr.s.program == tr0.s.program && tr.s.live == tr0.s.live
    ensures if Claims(Reaction(tr0.s.program, tr0.s.clients[c], tr0.s.clients[c].inbox[0])) then Held(tr, c, m)
            else Waited(tr, c, m)
  {
    WaiterIsKnown(tr0.s, c);
    NextKeeps(tr0.s.program, tr0.s.clients[c]);
    tr := Advance(tr0, Deliver(c), c, m);
  }

  lemma ServeOne(tr0: Path, c: nat, m: nat) returns (tr: Path)
    requires Waited(tr0, c, m) && tr0.s.clients[c].outbox != []
    ensures Origin(tr) == Origin(tr0) && Waited(tr, c, m)
    ensures tr.s.live == tr0.s.live && tr.s.owner == tr0.s.owner && |tr.s.clients| == |tr0.s.clients|
    ensures var cl := tr0.s.clients[c];
            && (cl.outbox[0].ChildrenReq? || cl.outbox[0].ExistsReq?)
            && var e := if cl.outbox[0].ChildrenReq? then Snapshot(tr0.s.live) else ExistsDone;
            && tr.s.clients[c] == Push(cl, e).(outbox := cl.outbox[1..])
            && (forall p | cl.outbox[0] == ExistsReq(p) && p in tr0.s.live :: (c, p) in tr.s.watches)
  {
    WaiterIsKnown(tr0.s, c);
    assert Aims(tr0.s, c, tr0.s.clients[c]);
    tr := Advance(tr0, Serve(c), c, m);
  }

  lemma ExpireOne(tr0: Path, c: nat, m: nat, p: nat) returns (tr: Path)
    requires Waited(tr0, c, m) && p in tr0.s.live && p != m
    ensures Origin(tr) == Origin(tr0) && Waited(tr, c, m) && tr.s.live == tr0.s.live - {p}
    ensures var cl, cl' := tr0.s.clients[c], tr.s.clients[c];
            && cl' == cl.(inbox := cl'.inbox)
            && ((c, p) in tr0.s.watches ==> cl'.inbox == cl.inbox + [NodeGone(p)])
  {
    WaiterIsKnown(tr0.s, c);
    var d := tr0.s.owner[p];
    assert Own(tr0.s, d, p);
    tr := Advance(tr0, Expire(d, Some(p)), c, m);
    assert tr.s.owner == tr0.s.owner;
    OthersAside(tr0.s, Expire(d, Some(p)), c);
  }

  // ---- A children request that nobody else is left to answer

  lemma {:induction false} ExpireAll(tr0: Path, c: nat, m: nat) returns (tr: Path)
    requires Waited(tr0, c, m)
    ensures Origin(tr) == Origin(tr0) && Waited(tr, c, m) && tr.s.live == {m}
    ensures tr.s.clients[c].outbox == tr0.s.clients[c].outbox
    decreases |tr0.s.live|
  {
    tr := tr0;
    if tr0.s.live != {m} {
      var p :| p in tr0.s.live && p != m;
      tr := ExpireOne(tr0, c, m, p);
      tr := ExpireAll(tr, c, m);
    }
  }

  lemma {:induction false} ServeAlone(tr0: Path, c: nat, m: nat, k: nat) returns (tr: Path, j: nat)
    requires Waited(tr0, c, m) && tr0.s.live == {m}
    requires k < |tr0.s.clients[c].outbox| && tr0.s.clients[c].outbox[k] == ChildrenReq
    ensures Origin(tr) == Origin(tr0) && Waited(tr, c, m)
    ensures j < |tr.s.clients[c].inbox| && tr.s.clients[c].inbox[j] == Snapshot({m})
    decreases k
  {
    tr := ServeOne(tr0, c, m);
    j := |tr0.s.clients[c].inbox|;
    if k > 0 {
      tr, j := ServeAlone(tr, c, m, k - 1);
    }
  }

  lemma AloneClaims(program: Program, cl: Client)
    ensures Claims(Reaction(program, cl, Snapshot({cl.seqMe})))
  {
    VerdictUnique({cl.seqMe}, cl.seqMe, Smallest);
  }

  lemma {:induction false} ConcludeAt(tr0: Path, c: nat, m: nat, j: nat) returns (tr: Path)
    requires Waited(tr0, c, m)
    requires j < |tr0.s.clients[c].inbox| && tr0.s.clients[c].inbox[j] == Snapshot({m})
    ensures Origin(tr) == Origin(tr0) && Held(tr, c, m)
    decreases j
  {
    AloneClaims(tr0.s.program, tr0.s.clients[c]);
    NextKeeps(tr0.s.program, tr0.s.clients[c]);
    tr := DeliverOne(tr0, c, m);
    if !Claims(Reaction(tr0.s.program, tr0.s.clients[c], tr0.s.clients[c].inbox[0])) {
      tr := ConcludeAt(tr, c, m, j - 1);
    }
  }

  lemma ConcludeByRequest(tr0: Path, c: nat, m: nat) returns (tr: Path)
    requires Waited(tr0, c, m) && ChildrenReq in tr0.s.clients[c].outbox
    ensures Origin(tr) == Origin(tr0) && Held(tr, c, m)
  {
    tr := ExpireAll(tr0, c, m);
    var k :| 0 <= k < |tr.s.clients[c].outbox| && tr.s.clients[c].outbox[k] == ChildrenReq;
    var j: nat;
    tr, j := ServeAlone(tr, c, m, k);
    tr := ConcludeAt(tr, c, m, j);
  }

  // ---- A watched node that is alive

  lemma {:induction false} ConcludeByNotice(tr0: Path, c: nat, m: nat, j: nat) returns (tr: Path)
    requires Waited(tr0, c, m) && tr0.s.clients[c].watch.Some?
    requires var cl := tr0.s.clients[c]; j < |cl.inbox| && cl.inbox[j] == NodeGone(cl.watch.value)
    requires forall i | 0 <= i < j :: !tr0.s.clients[c].inbox[i].Snapshot?
    ensures Origin(tr) == Origin(tr0) && Held(tr, c, m)
    decreases j
  {
    var cl := tr0.s.clients[c];
    NextKeeps(tr0.s.program, cl);
    tr := DeliverOne(tr0, c, m);
    if !Claims(Reaction(tr0.s.program, cl, cl.inbox[0])) {
      if j == 0 {
        assert tr.s.clients[c].outbox[|cl.outbox|] == ChildrenReq;
        tr := ConcludeByRequest(tr, c, m);
      } else {
        tr := ConcludeByNotice(tr, c, m, j - 1);
      }
    }
  }

  lemma ConcludeByWatch(tr0: Path, c: nat, m: nat) returns (tr: Path)
    requires Waited(tr0, c, m) && tr0.s.clients[c].watch.Some? && !HasSnapshot(tr0.s.clients[c])
    requires var p := tr0.s.clients[c].watch.value; (c, p) in tr0.s.watches && p in tr0.s.live && p != m
    ensures Origin(tr) == Origin(tr0) && Held(tr, c, m)
  {
    var cl := tr0.s.clients[c];
    tr := ExpireOne(tr0, c, m, cl.watch.value);
    tr := ConcludeByNotice(tr, c, m, |cl.inbox|);
  }

  lemma {:induction false} ConcludeByExists(tr0: Path, c: nat, m: nat, k: nat) returns (tr: Path)
    requires Waited(tr0, c, m) && tr0.s.clients[c].watch.Some? && !HasSnapshot(tr0.s.clients[c])
    requires var cl, p := tr0.s.clients[c], tr0.s.clients[c].watch.value;
             && k < |cl.outbox| && cl.outbox[k] == ExistsReq(p) && p in tr0.s.live && p != m
             && forall i | 0 <= i < k :: !cl.outbox[i].ChildrenReq?
    ensures Origin(tr) == Origin(tr0) && Held(tr, c, m)
    decreases k
  {
    tr := ServeOne(tr0, c, m);
    assert tr.s.clients[c].inbox == tr0.s.clients[c].inbox + [ExistsDone];
    if k == 0 {
      tr := ConcludeByWatch(tr, c, m);
    } else {
      tr := ConcludeByExists(tr, c, m, k - 1);
    }
  }

  lemma WatchIsNotOwn(s: System, c: nat)
    requires Inv(s) && Waiting(s, c) && s.clients[c].watch.Some?
    ensures s.clients[c].watch.value != s.clients[c].seqMe
  {
    WaiterIsKnown(s, c);
    assert ClientInv(s, c);
  }

  // ---- The two halves

  lemma {:induction false} HopeConcludes(tr0: Path, c: nat, m: nat) returns (tr: Path)
    requires Waited(tr0, c, m) && Hopeful(tr0.s, c)
    ensures Origin(tr) == Origin(tr0) && Held(tr, c, m)
    decreases |tr0.s.clients[c].inbox|
  {
    var cl := tr0.s.clients[c];
    if ChildrenReq in cl.outbox {
      tr := ConcludeByRequest(tr0, c, m);
    } else if cl.inbox != [] {
      NextKeeps(tr0.s.program, cl);
      tr := DeliverOne(tr0, c, m);
      var a := Reaction(tr0.s.program, cl, cl.inbox[0]);
      if !Claims(a) {
        if a == AskChildren {
          assert tr.s.clients[c].outbox[|cl.outbox|] == ChildrenReq;
        }
        tr := HopeConcludes(tr, c, m);
      }
    } else {
      tr := ConcludeFromRest(tr0, c, m);
    }
  }

  lemma ConcludeFromRest(tr0: Path, c: nat, m: nat) returns (tr: Path)
    requires Waited(tr0, c, m) && tr0.s.clients[c].inbox == [] && ChildrenReq !in tr0.s.clients[c].outbox
    requires tr0.s.clients[c].watch.Some? && tr0.s.clients[c].watch.value in tr0.s.live
    ensures Origin(tr) == Origin(tr0) && Held(tr, c, m)
  {
    var cl := tr0.s.clients[c];
    var p := cl.watch.value;
    WaiterIsKnown(tr0.s, c);
    WatchIsNotOwn(tr0.s, c);
    assert Aims(tr0.s, c, cl);
    if (c, p) in tr0.s.watches {
      tr := ConcludeByWatch(tr0, c, m);
    } else {
      var k :| 0 <= k < |cl.outbox| && cl.outbox[k] == ExistsReq(p);
      tr := ConcludeByExists(tr0, c, m, k);
    }
  }

  lemma WithoutHope(s: System, c: nat)
    requires Inv(s) && Aimed(s) && Waiting(s, c) && !Hopeful(s, c)
    ensures Hopeless(s, c)
  {
    WaiterIsKnown(s, c);
    assert ClientInv(s, c) && Aims(s, c, s.clients[c]);
  }

  /**
   In every state of every run, a waiter can still become the holder if and only if it
   has hope; one without never concludes anything, on any continuation.
   */
  lemma ConcludesExactly(states: seq<System>, steps: seq<Step>, i: nat, c: nat)
    requires PoliteRun(states, steps) && i < |states| && Waiting(states[i], c)
    ensures Hopeful(states[i], c) <==> CanHold(states[i], c)
    ensures forall tr: Path | !Hopeful(states[i], c) && Leads(tr, false) && Origin(tr) == states[i] ::
              c < |tr.s.clients| && !tr.s.clients[c].claimed
  {
    var s := states[i];
    RunKeeps(states, steps, i);
    RunAims(states, steps, i);
    if Hopeful(s, c) {
      var tr := HopeConcludes(Begin(s), c, s.clients[c].seqMe);
      assert Continues(tr, s);
    } else {
      WithoutHope(s, c);
      forall tr: Path | Leads(tr, false) && Origin(tr) == s ensures c < |tr.s.clients| && !tr.s.clients[c].claimed {
        HopelessForever(tr, false, c);
      }
      forall tr: Path | Continues(tr, s) ensures !Holder(tr.s, c, s.clients[c].seqMe) {
        HopelessForever(tr, true, c);
      }
    }
  }
}
