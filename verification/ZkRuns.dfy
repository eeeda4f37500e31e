/** Mutual exclusion, no herd, FIFO granting and wake-up over every run. */
module ZkRuns {
  import opened Options
  import opened ZkSearch
  import opened ZkProtocol
  import opened ZkSafety

  // ---- Every polite step keeps the invariant

  lemma RemoveKeeps(s: System, p: nat)
    requires Inv(s) && p in s.live
    ensures Inv(RemoveNode(s, p))
  {
    var s' := RemoveNode(s, p);
    forall c | 0 <= c < |s'.clients| ensures ClientInv(s', c) {
      BystanderKeeps(s, s', c, if (c, p) in s.watches then Some(p) else None);
    }
  }

  lemma CloseKeeps(s: System, c: nat)
    requires Inv(s) && c < |s.clients| && forall v | v in s.live :: !Own(s, c, v)
    ensures Inv(Close(s, c))
  {
    var s' := Close(s, c);
    OthersKeep(s, s', c);
    var cl, cl' := s.clients[c], s'.clients[c];
    assert ClientInv(s, c);
    assert forall v :: Own(s', c, v) <==> Own(s, c, v);
    if !(Fresh(s, c, cl) || Asked(s, c, cl) || Known(s, c, cl)) {
      var k: nat :| Told(s, c, cl, k);
      assert Told(s', c, cl', k);
    }
  }

  /** The step touched no client but `c`, so every other client is a bystander. */
  lemma OthersKeep(s: System, s': System, c: nat)
    requires Inv(s) && c < |s.clients| == |s'.clients| && s'.program == s.program
    requires s'.clients == s.clients[c := s'.clients[c]]
    requires s.owner <= s'.owner && forall v | |s.owner| <= v < |s'.owner| :: s'.owner[v] == c
    requires forall v | v in s'.live && v < |s.owner| :: v in s.live
    requires forall v | v in s.live :: v in s'.live
    requires s.missed <= s'.missed
    requires forall d, p | d != c :: (d, p) in s.watches <==> (d, p) in s'.watches
    ensures forall d | 0 <= d < |s'.clients| && d != c :: ClientInv(s', d)
  {
    forall d | 0 <= d < |s'.clients| && d != c ensures ClientInv(s', d) {
      BystanderKeeps(s, s', d, None);
    }
  }

  lemma ServeDeleteKeeps(s: System, c: nat)
    requires Inv(s) && Enabled(s, Serve(c)) && s.clients[c].outbox[0].DeleteReq?
    ensures Inv(Do(s, Serve(c)))
  {
    var t := s.clients[c].outbox[0].target;
    var s1 := Acknowledge(s, c);
    AcknowledgeKeeps(s, c);
    OthersKeep(s, s1, c);
    if t.Some? && t.value in s.live {
      RemoveKeeps(s1, t.value);
    }
  }

  lemma ServeKeeps(s: System, c: nat)
    requires Inv(s) && Enabled(s, Serve(c))
    ensures Inv(Do(s, Serve(c)))
  {
    var s' := Do(s, Serve(c));
    match s.clients[c].outbox[0]
    case CreateReq =>
      ServeCreateKeeps(s, c);
      OthersKeep(s, s', c);
    case ChildrenReq =>
      ServeChildrenKeeps(s, c);
      OthersKeep(s, s', c);
    case ExistsReq(p) =>
      ServeExistsKeeps(s, c);
      OthersKeep(s, s', c);
    case DeleteReq(_) => ServeDeleteKeeps(s, c);
  }

  lemma DeliverKeeps(s: System, c: nat)
    requires Inv(s) && Enabled(s, Deliver(c))
    ensures Inv(Do(s, Deliver(c)))
  {
    var s' := Do(s, Deliver(c));
    var e := s.clients[c].inbox[0];
    if e.Created? {
      DeliverCreatedKeeps(s, c);
    } else if e.Snapshot? {
      DeliverSnapshotKeeps(s, c);
    } else if e.Session? {
      DeliverSessionKeeps(s, c);
    } else {
      DeliverNoteKeeps(s, c);
    }
    OthersKeep(s, s', c);
    if s'.grants != s.grants {
      var m := s'.clients[c].seqMe;
      assert Own(s', c, m) && m in s'.live && IsSmallest(s', c);
    }
  }

  lemma StepKeeps(s: System, step: Step)
    requires Inv(s) && Enabled(s, step) && Polite(s, step)
    ensures Inv(Do(s, step))
  {
    var s', c := Do(s, step), step.c;
    match step
    case Start(_) =>
      StartKeeps(s, c);
      OthersKeep(s, s', c);
    case Notice(_) =>
      NoticeKeeps(s, c);
      OthersKeep(s, s', c);
    case Serve(_) => ServeKeeps(s, c);
    case Deliver(_) => DeliverKeeps(s, c);
    case Expire(_, node) =>
      if node.Some? {
        RemoveKeeps(s, node.value);
        var s1 := RemoveNode(s, node.value);
        assert forall v :: Own(s1, c, v) <==> Own(s, c, v);
        assert ClientInv(s, c);
        CloseKeeps(s1, c);
      } else {
        CloseKeeps(s, c);
      }
  }

  lemma {:induction false} RunKeeps(states: seq<System>, steps: seq<Step>, i: nat)
    requires PoliteRun(states, steps) && i < |states|
    ensures Inv(states[i])
  {
    if i == 0 {
      forall c | 0 <= c < |states[0].clients| ensures ClientInv(states[0], c) {
        assert Fresh(states[0], c, states[0].clients[c]);
      }
    } else {
      RunKeeps(states, steps, i - 1);
      StepKeeps(states[i - 1], steps[i - 1]);
    }
  }

  // ---- The theorems

  /** At most one client holds the lock or leads, and its znode stays the smallest while it is there. */
  lemma MutualExclusionHolds(states: seq<System>, steps: seq<Step>, i: nat)
    requires PoliteRun(states, steps) && i < |states|
    ensures MutualExclusion(states[i])
  {
    var s := states[i];
    RunKeeps(states, steps, i);
    forall c, u, v | Holder(s, c, u) && v in s.live ensures u <= v {
      assert ClientInv(s, c);
    }
  }

  /** One deletion wakes at most one waiter. */
  lemma NoHerdHolds(states: seq<System>, steps: seq<Step>, i: nat)
    requires PoliteRun(states, steps) && i < |states|
    ensures NoHerd(states[i])
  {
    var s := states[i];
    RunKeeps(states, steps, i);
    forall c, d, p, u, v | (c, p) in s.watches && (d, p) in s.watches
                           && u in s.live && Own(s, c, u) && v in s.live && Own(s, d, v)
      ensures c == d
    {
      assert ClientInv(s, c) && ClientInv(s, d);
      assert Near(s, c, p) && Near(s, d, p);
    }
  }

  /** Live claims come in the order of the sequence numbers, strictly so between different clients. */
  lemma FifoHolds(states: seq<System>, steps: seq<Step>, i: nat)
    requires PoliteRun(states, steps) && i < |states|
    ensures FifoGrants(states[i])
    ensures var s := states[i];
            forall j, k | 0 <= j < k < |s.grants| ::
              s.grants[j] < |s.owner| && s.grants[k] < |s.owner|
              && (s.owner[s.grants[j]] != s.owner[s.grants[k]] ==> s.grants[j] < s.grants[k])
    ensures i + 1 < |states| ==> states[i].grants <= states[i + 1].grants
  {
    RunKeeps(states, steps, i);
    if i + 1 < |states| {
      assert states[i + 1] == Do(states[i], steps[i]);
    }
  }

  /**
   As long as its `exists` calls find their nodes, a waiter always has a live watched
   predecessor, a notice of its deletion, a children request, a snapshot or a request for
   a live node under way.
   */
  lemma NoLostWakeUpHolds(states: seq<System>, steps: seq<Step>, i: nat)
    requires PoliteRun(states, steps) && i < |states|
    ensures NoLostWakeUp(states[i])
  {
    var s := states[i];
    RunKeeps(states, steps, i);
    forall c | Waiting(s, c) && c !in s.missed && !TooLate(s, c) ensures Wakeable(s, c) {
      assert ClientInv(s, c);
    }
  }

  /** A client only ever asks for its own znode to be deleted. */
  lemma DeletesOnlyItsOwn(states: seq<System>, steps: seq<Step>, i: nat, c: nat, v: nat)
    requires PoliteRun(states, steps) && i < |states| && c < |states[i].clients|
    requires DeleteReq(Some(v)) in states[i].clients[c].outbox
    ensures Own(states[i], c, v)
  {
    RunKeeps(states, steps, i);
    assert ClientInv(states[i], c);
  }
}
