/** Runs that show where the promises of the lock and the election end. */
module ZkLimits {
  import opened Options
  import opened Trails
  import opened ZkSearch
  import opened ZkProtocol
  import opened ZkPaths
  import opened ZkWaking
  import opened ZkExclusion

  const TWO_CLIENTS := System(LockProgram, [], {}, {}, [NEW_CLIENT, NEW_CLIENT], [], {})

  /** A new client issues its create request and the server assigns the next number. */
  lemma Creates(tr0: Path, c: nat) returns (tr: Path)
    requires Valid(tr0, true) && c < |tr0.s.clients| && tr0.s.clients[c] == NEW_CLIENT
    ensures Valid(tr, true)
    ensures var v := |tr0.s.owner|;
            tr.s == tr0.s.(owner := tr0.s.owner + [c], live := tr0.s.live + {v},
                           clients := tr0.s.clients[c := NEW_CLIENT.(started := true, inbox := [Created(v)])])
  {
    tr := Move(tr0, Start(c), true);
    assert tr.s.clients[c].outbox == [CreateReq];
    tr := Move(tr, Serve(c), true);
    assert tr.s.clients[c].outbox == [] && tr.s.clients[c].inbox == [Created(|tr0.s.owner|)];
  }

  /** The first client creates znode 0, claims, and asks for its deletion. */
  lemma FirstClaims() returns (tr: Path)
    ensures Valid(tr, true)
    ensures tr.s.program == LockProgram && tr.s.owner == [0] && tr.s.live == {0} && tr.s.watches == {}
    ensures |tr.s.clients| == 2 && tr.s.clients[1] == NEW_CLIENT
    ensures tr.s.clients[0].claimed && tr.s.clients[0].outbox == [DeleteReq(Some(0))] && !tr.s.clients[0].closed
  {
    tr := Creates(Begin(TWO_CLIENTS), 0);
    tr := Move(tr, Deliver(0), true);
  }

  /**
   Two clients hold the lock, and one asks for the other's znode to be deleted: a session
   event reached the second one before its create request.
   */
  lemma EarlySessionEventBreaksExclusion() returns (states: seq<System>, steps: seq<Step>)
    ensures IsRun(states, steps)
    ensures !MutualExclusion(states[|steps|])
    ensures Holder(states[|steps|], 0, 0) && Holder(states[|steps|], 1, 1)
    ensures DeleteReq(Some(0)) in states[|steps|].clients[1].outbox
  {
    var tr := FirstClaims();
    Unpolite(tr);
    tr := Move(tr, Notice(1), false);
    var s := tr.s;
    assert s.clients[1].inbox == [Session];
    var more := EarlyEventBreaks(Begin(s), 1);
    Unpolite(more);
    assert Holder(more.s, 0, 0);
    tr := Join(tr, more, false);
    states, steps := PathIsRun(tr, false);
  }

  /**
   An `exists` call that comes after the predecessor has gone strands the waiter,
   although its own znode is the only one left.
   */
  lemma MissedPredecessorStrands() returns (states: seq<System>, steps: seq<Step>)
    ensures PoliteRun(states, steps)
    ensures Stranded(states[|steps|], 1) && Waiting(states[|steps|], 1) && states[|steps|].live == {1}
  {
    var tr := FirstClaims();
    tr := SecondArrives(tr);
    tr := SecondWatches(tr);
    tr := FirstLeaves(tr);
    tr := SecondMisses(tr);
    states, steps := PathIsRun(tr, true);
  }

  lemma SecondArrives(tr0: Path) returns (tr: Path)
    requires Valid(tr0, true)
    requires tr0.s.program == LockProgram && tr0.s.owner == [0]
    requires |tr0.s.clients| == 2 && tr0.s.clients[1] == NEW_CLIENT
    ensures Valid(tr, true)
    ensures tr.s == tr0.s.(owner := [0, 1], live := tr0.s.live + {1}, clients := [
                      tr0.s.clients[0], NEW_CLIENT.(started := true, stored := true, seqMe := 1,
                          outbox := [ChildrenReq])])
  {
    tr := Creates(tr0, 1);
    tr := Move(tr, Deliver(1), true);
    assert tr.s.clients[1].outbox == [ChildrenReq] && tr.s.clients[1].inbox == [];
    assert tr.s.clients == [tr0.s.clients[0], tr.s.clients[1]];
  }

  lemma SecondWatches(tr0: Path) returns (tr: Path)
    requires Valid(tr0, true)
    requires tr0.s.program == LockProgram && tr0.s.live == {0, 1} && |tr0.s.clients| == 2
    requires tr0.s.clients[1] == NEW_CLIENT.(started := true, stored := true, seqMe := 1, outbox := [ChildrenReq])
    ensures Valid(tr, true)
    ensures tr.s.live == {0, 1} && tr.s.watches == tr0.s.watches && tr.s.owner == tr0.s.owner
    ensures tr.s.clients == [tr0.s.clients[0], tr0.s.clients[1].(watch := Some(0), outbox := [ExistsReq(0)])]
  {
    tr := Move(tr0, Serve(1), true);
    assert tr.s.clients[1].outbox == [] && tr.s.clients[1].inbox == [Snapshot({0, 1})];
    VerdictUnique({0, 1}, 1, Watch(0));
    tr := Move(tr, Deliver(1), true);
    assert tr.s.clients[1].outbox == [ExistsReq(0)] && tr.s.clients[1].inbox == [];
    assert tr.s.clients == [tr0.s.clients[0], tr.s.clients[1]];
  }

  lemma FirstLeaves(tr0: Path) returns (tr: Path)
    requires Valid(tr0, true)
    requires tr0.s.live == {0, 1} && tr0.s.watches == {} && |tr0.s.clients| == 2
    requires tr0.s.clients[0].outbox == [DeleteReq(Some(0))] && !tr0.s.clients[0].closed
    ensures Valid(tr, true)
    ensures tr.s.live == {1} && tr.s.watches == {} && tr.s.owner == tr0.s.owner
    ensures |tr.s.clients| == 2 && tr.s.clients[1] == tr0.s.clients[1]
  {
    tr := Move(tr0, Serve(0), true);
  }

  lemma SecondMisses(tr0: Path) returns (tr: Path)
    requires Valid(tr0, true)
    requires tr0.s.live == {1} && tr0.s.watches == {} && |tr0.s.owner| == 2 && |tr0.s.clients| == 2
    requires tr0.s.clients[1]
             == NEW_CLIENT.(started := true, stored := true, seqMe := 1, watch := Some(0), outbox := [ExistsReq(0)])
    ensures Valid(tr, true)
    ensures Stranded(tr.s, 1) && Waiting(tr.s, 1) && tr.s.live == {1}
  {
    tr := Move(tr0, Serve(1), true);
    var cl := tr.s.clients[1];
    assert cl.outbox == [] && cl.inbox == [ExistsDone];
    assert !HasSnapshot(cl) && NodeGone(0) !in cl.inbox;
    assert !Wakeable(tr.s, 1);
  }

  /**
   A client that is sent a session event between its create request and the completion
   asks for the children twice, and concludes twice with the same live znode.
   */
  lemma ConcludesTwice() returns (states: seq<System>, steps: seq<Step>)
    ensures PoliteRun(states, steps) && states[|steps|].grants == [0, 0]
  {
    var s := TWO_CLIENTS;
    var tr: Path := Begin(s);
    tr := Move(tr, Start(0), true);
    assert tr.s.clients[0].outbox == [CreateReq];
    tr := Move(tr, Notice(0), true);
    assert tr.s.clients[0].inbox == [Session];
    tr := Move(tr, Deliver(0), true);
    assert tr.s.clients[0] == NEW_CLIENT.(started := true, outbox := [CreateReq, ChildrenReq]);
    tr := BothServed(tr);
    tr := BothConcluded(tr);
    states, steps := PathIsRun(tr, true);
  }

  lemma BothServed(tr0: Path) returns (tr: Path)
    requires Valid(tr0, true) && |tr0.s.clients| == 2 && tr0.s.owner == [] && tr0.s.live == {} && tr0.s.grants == []
    requires tr0.s.program == LockProgram
    requires tr0.s.clients[0] == NEW_CLIENT.(started := true, outbox := [CreateReq, ChildrenReq])
    ensures Valid(tr, true) && tr.s.program == LockProgram
    ensures |tr.s.clients| == 2 && tr.s.live == {0} && tr.s.grants == []
    ensures tr.s.clients[0] == NEW_CLIENT.(started := true, inbox := [Created(0), Snapshot({0})])
  {
    tr := Move(tr0, Serve(0), true);
    assert tr.s.live == {0};
    assert tr.s.clients[0] == NEW_CLIENT.(started := true, outbox := [ChildrenReq], inbox := [Created(0)]);
    tr := Move(tr, Serve(0), true);
    assert tr.s.clients[0].outbox == [] && tr.s.clients[0].inbox == [Created(0), Snapshot({0})];
  }

  lemma BothConcluded(tr0: Path) returns (tr: Path)
    requires Valid(tr0, true) && |tr0.s.clients| == 2 && tr0.s.live == {0} && tr0.s.grants == []
    requires tr0.s.program == LockProgram
    requires tr0.s.clients[0] == NEW_CLIENT.(started := true, inbox := [Created(0), Snapshot({0})])
    ensures Valid(tr, true) && tr.s.grants == [0, 0]
  {
    VerdictUnique({0}, 0, Smallest);
    tr := Move(tr0, Deliver(0), true);
    assert tr.s.clients[0].inbox == [Snapshot({0})] && tr.s.grants == [0];
    tr := Move(tr, Deliver(0), true);
  }
}
