/** The invariant behind mutual exclusion, no herd, FIFO granting and wake-up, over every run. */
module ZkSafety {
  import opened Options
  import opened ZkSearch
  import opened ZkProtocol

  // ---- The life of a client, from its own znode's point of view

  ghost predicate OnlySession(inbox: seq<Event>) { forall i | 0 <= i < |inbox| :: inbox[i].Session? }

  ghost predicate NoCreate(cl: Client) { forall i | 0 <= i < |cl.outbox| :: !cl.outbox[i].CreateReq? }

  ghost predicate NoZnode(s: System, c: nat) { forall v :: !Own(s, c, v) }

  ghost predicate Untouched(s: System, c: nat, cl: Client) {
    && (forall p :: (c, p) !in s.watches)
    && !cl.stored && !cl.claimed && cl.watch == None && cl.seqMe == 0
    && (forall i | 0 <= i < |cl.outbox| :: cl.outbox[i].CreateReq? || cl.outbox[i].ChildrenReq?)
  }

  /** Main has not issued the create request. */
  ghost predicate Fresh(s: System, c: nat, cl: Client) {
    && !cl.started && Untouched(s, c, cl) && cl.outbox == [] && OnlySession(cl.inbox) && NoZnode(s, c)
    && (s.program.LockProgram? ==> cl.inbox == [])
  }

  /** The create request is the first of the session and has not been served. */
  ghost predicate Asked(s: System, c: nat, cl: Client) {
    && cl.started && Untouched(s, c, cl) && OnlySession(cl.inbox) && NoZnode(s, c)
    && cl.outbox != [] && cl.outbox[0].CreateReq?
    && (forall i | 1 <= i < |cl.outbox| :: !cl.outbox[i].CreateReq?)
  }

  /** The create completion is at position `k` of the inbox, behind session events only. */
  ghost predicate Told(s: System, c: nat, cl: Client, k: nat) {
    && cl.started && Untouched(s, c, cl) && NoCreate(cl)
    && k < |cl.inbox| && cl.inbox[k].Created? && Own(s, c, cl.inbox[k].v)
    && (forall i | 0 <= i < k :: cl.inbox[i].Session?)
    && (forall i | k < i < |cl.inbox| :: cl.inbox[i].Session? || cl.inbox[i].Snapshot?)
  }

  /** The completion has stored the client's own number. */
  ghost predicate Known(s: System, c: nat, cl: Client) {
    && cl.started && cl.stored && Own(s, c, cl.seqMe) && NoCreate(cl)
    && (forall i | 0 <= i < |cl.inbox| :: !cl.inbox[i].Created?)
  }

  ghost predicate Phased(s: System, c: nat, cl: Client) {
    Fresh(s, c, cl) || Asked(s, c, cl) || Known(s, c, cl) || exists k: nat :: Told(s, c, cl, k)
  }

  // ---- What the client believes is true of the server

  /** No live znode lies between `p` and the client's own. */
  ghost predicate Near(s: System, c: nat, p: nat) {
    forall m | m in s.live && Own(s, c, m) :: p < m && forall v | v in s.live && v < m :: v <= p
  }

  ghost predicate IsSmallest(s: System, c: nat) {
    forall m | m in s.live && Own(s, c, m) :: forall v | v in s.live :: m <= v
  }

  /** A snapshot taken after the client's creation holds every live znode up to its own. */
  ghost predicate Covers(s: System, c: nat, S: set<nat>) {
    forall m | m in s.live && Own(s, c, m) :: forall v | v in s.live && v <= m :: v in S
  }

  ghost predicate Beliefs(s: System, c: nat, cl: Client) {
    && (forall u, v | Own(s, c, u) && Own(s, c, v) :: u == v)
    && (cl.closed ==> forall v | v in s.live :: !Own(s, c, v))
    && (cl.claimed ==> IsSmallest(s, c))
    && (cl.watch.Some? ==> Near(s, c, cl.watch.value))
    && (forall i | 0 <= i < |cl.inbox| && cl.inbox[i].Snapshot? :: Covers(s, c, cl.inbox[i].S))
    && (forall i | 0 <= i < |cl.outbox| && cl.outbox[i].ExistsReq? :: Near(s, c, cl.outbox[i].p))
    && (forall i | 0 <= i < |cl.outbox| && cl.outbox[i].DeleteReq? && cl.outbox[i].target.Some? ::
          Own(s, c, cl.outbox[i].target.value))
    && (forall p | (c, p) in s.watches :: p in s.live && Near(s, c, p))
  }

  ghost predicate Underway(s: System, c: nat)
    requires c < |s.clients|
  {
    Wakeable(s, c) || TooLate(s, c)
  }

  ghost predicate ClientInv(s: System, c: nat)
    requires c < |s.clients|
  {
    var cl := s.clients[c];
    && Phased(s, c, cl)
    && Beliefs(s, c, cl)
    && (Waiting(s, c) && c !in s.missed ==> Underway(s, c))
  }

  ghost predicate ServerInv(s: System) {
    && (forall v | v in s.live :: v < |s.owner|)
    && (forall v | 0 <= v < |s.owner| :: s.owner[v] < |s.clients|)
    && (forall i | 0 <= i < |s.grants| :: s.grants[i] < |s.owner| && forall v | v in s.live :: s.grants[i] <= v)
    && FifoGrants(s)
  }

  ghost predicate Inv(s: System) {
    ServerInv(s) && forall c | 0 <= c < |s.clients| :: ClientInv(s, c)
  }

  // ---- Bystanders

  /** From `s` to `s'` nothing happened to client `c` but, perhaps, the firing of one of its watches. */
  ghost predicate Bystander(s: System, s': System, c: nat, fired: Option<nat>)
    requires c < |s.clients|
  {
    && c < |s'.clients| && s'.program == s.program
    && s.owner <= s'.owner && (forall v | |s.owner| <= v < |s'.owner| :: s'.owner[v] != c)
    && (forall v | v in s'.live && v < |s.owner| :: v in s.live)
    && s.missed <= s'.missed
    && (forall p | (c, p) in s'.watches :: (c, p) in s.watches && p in s'.live)
    && (if fired.None? then
          s'.clients[c] == s.clients[c] && forall p | (c, p) in s.watches :: (c, p) in s'.watches
        else
          && s'.clients[c] == Push(s.clients[c], NodeGone(fired.value)) && (c, fired.value) in s.watches
          && forall p | (c, p) in s.watches && p != fired.value :: (c, p) in s'.watches)
  }

  lemma BystanderPhase(s: System, s': System, c: nat, fired: Option<nat>)
    requires c < |s.clients| && Phased(s, c, s.clients[c]) && Bystander(s, s', c, fired)
    ensures Phased(s', c, s'.clients[c])
  {
    var cl, cl' := s.clients[c], s'.clients[c];
    assert forall v :: Own(s', c, v) <==> Own(s, c, v);
    if Known(s, c, cl) {
    } else if Fresh(s, c, cl) {
    } else if Asked(s, c, cl) {
    } else {
      var k: nat :| Told(s, c, cl, k);
      assert Told(s', c, cl', k);
    }
  }

  lemma BystanderBeliefs(s: System, s': System, c: nat, fired: Option<nat>)
    requires c < |s.clients| && ServerInv(s) && Beliefs(s, c, s.clients[c]) && Bystander(s, s', c, fired)
    ensures Beliefs(s', c, s'.clients[c])
  {
    assert forall v :: Own(s', c, v) <==> Own(s, c, v);
    assert forall v | v in s'.live && Own(s', c, v) :: v in s.live && forall u | u in s'.live && u <= v :: u in s.live;
    assert forall p | Near(s, c, p) :: Near(s', c, p);
    assert forall S | Covers(s, c, S) :: Covers(s', c, S);
  }

  lemma BystanderWakes(s: System, s': System, c: nat, fired: Option<nat>)
    requires c < |s.clients| && ServerInv(s) && ClientInv(s, c) && Bystander(s, s', c, fired)
    requires Waiting(s', c) && c !in s'.missed
    ensures Underway(s', c)
  {
    var cl, cl' := s.clients[c], s'.clients[c];
    assert Known(s, c, cl);
    assert Waiting(s, c) && Underway(s, c);
    if fired.Some? {
      assert cl'.inbox == cl.inbox + [NodeGone(fired.value)];
      assert NodeGone(fired.value) in cl'.inbox;
      if HasSnapshot(cl) {
        var i :| 0 <= i < |cl.inbox| && cl.inbox[i].Snapshot?;
        assert cl'.inbox[i].Snapshot?;
      }
    }
  }

  lemma BystanderKeeps(s: System, s': System, c: nat, fired: Option<nat>)
    requires c < |s.clients| && ServerInv(s) && ClientInv(s, c) && Bystander(s, s', c, fired)
    ensures ClientInv(s', c)
  {
    BystanderPhase(s, s', c, fired);
    BystanderBeliefs(s, s', c, fired);
    if Waiting(s', c) && c !in s'.missed {
      BystanderWakes(s, s', c, fired);
    }
  }

  // ---- The client that acts

  lemma StartKeeps(s: System, c: nat)
    requires c < |s.clients| && ClientInv(s, c) && Enabled(s, Start(c))
    ensures ClientInv(Do(s, Start(c)), c)
  {
    var s' := Do(s, Start(c));
    assert Fresh(s, c, s.clients[c]);
    assert forall v :: Own(s', c, v) <==> Own(s, c, v);
    assert Asked(s', c, s'.clients[c]);
  }

  lemma NoticeKeeps(s: System, c: nat)
    requires c < |s.clients| && ClientInv(s, c) && Polite(s, Notice(c))
    ensures ClientInv(Do(s, Notice(c)), c)
  {
    var s' := Do(s, Notice(c));
    var cl, cl' := s.clients[c], s'.clients[c];
    assert forall v :: Own(s', c, v) <==> Own(s, c, v);
    assert cl'.inbox == cl.inbox + [Session];
    if !(Fresh(s, c, cl) || Asked(s, c, cl) || Known(s, c, cl)) {
      var k: nat :| Told(s, c, cl, k);
      assert Told(s', c, cl', k);
    }
    assert forall p | Near(s, c, p) :: Near(s', c, p);
    assert forall S | Covers(s, c, S) :: Covers(s', c, S);
    if HasSnapshot(cl) {
      var i :| 0 <= i < |cl.inbox| && cl.inbox[i].Snapshot?;
      assert cl'.inbox[i].Snapshot?;
    }
  }

  lemma ServeCreateKeeps(s: System, c: nat)
    requires c < |s.clients| && ServerInv(s) && ClientInv(s, c) && Enabled(s, Serve(c))
    requires s.clients[c].outbox[0].CreateReq?
    ensures ClientInv(Do(s, Serve(c)), c)
  {
    var s' := Do(s, Serve(c));
    var cl, cl' := s.clients[c], s'.clients[c];
    assert Asked(s, c, cl);
    var m := |s.owner|;
    forall v ensures Own(s', c, v) <==> v == m {
      assert !Own(s, c, v);
    }
    assert cl'.inbox == cl.inbox + [Created(m)];
    assert Told(s', c, cl', |cl.inbox|);
  }

  lemma ServeChildrenKeeps(s: System, c: nat)
    requires c < |s.clients| && ServerInv(s) && ClientInv(s, c) && Enabled(s, Serve(c))
    requires s.clients[c].outbox[0].ChildrenReq?
    ensures ClientInv(Do(s, Serve(c)), c)
  {
    var s' := Do(s, Serve(c));
    var cl, cl' := s.clients[c], s'.clients[c];
    assert forall v :: Own(s', c, v) <==> Own(s, c, v);
    assert cl'.inbox == cl.inbox + [Snapshot(s.live)] && cl'.outbox == cl.outbox[1..];
    assert cl'.inbox[|cl.inbox|].Snapshot?;
    if !Known(s, c, cl) {
      var k: nat :| Told(s, c, cl, k);
      assert Told(s', c, cl', k);
    }
    assert forall p | Near(s, c, p) :: Near(s', c, p);
    assert forall S | Covers(s, c, S) :: Covers(s', c, S);
    assert Covers(s', c, s.live);
  }

  lemma ServeExistsKeeps(s: System, c: nat)
    requires c < |s.clients| && ServerInv(s) && ClientInv(s, c) && Enabled(s, Serve(c))
    requires s.clients[c].outbox[0].ExistsReq?
    ensures ClientInv(Do(s, Serve(c)), c)
  {
    var s' := Do(s, Serve(c));
    var cl, cl' := s.clients[c], s'.clients[c];
    assert cl.outbox == [cl.outbox[0]] + cl.outbox[1..];
    assert forall v :: Own(s', c, v) <==> Own(s, c, v);
    assert cl'.inbox == cl.inbox + [ExistsDone] && cl'.outbox == cl.outbox[1..];
    assert Known(s', c, cl');
    assert forall p | Near(s, c, p) :: Near(s', c, p);
    assert forall S | Covers(s, c, S) :: Covers(s', c, S);
    if HasSnapshot(cl) {
      var i :| 0 <= i < |cl.inbox| && cl.inbox[i].Snapshot?;
      assert cl'.inbox[i].Snapshot?;
    }
  }

  /** The state after a delete request has been taken and acknowledged, before the znode goes. */
  ghost function Acknowledge(s: System, c: nat): System
    requires Enabled(s, Serve(c))
  {
    var cl := s.clients[c];
    Reply(s.(clients := s.clients[c := cl.(outbox := cl.outbox[1..])]), c, DeleteDone)
  }

  lemma AcknowledgeKeeps(s: System, c: nat)
    requires c < |s.clients| && ServerInv(s) && ClientInv(s, c) && Enabled(s, Serve(c))
    requires s.clients[c].outbox[0].DeleteReq?
    ensures ClientInv(Acknowledge(s, c), c)
  {
    var s' := Acknowledge(s, c);
    var cl, cl' := s.clients[c], s'.clients[c];
    assert cl.outbox == [cl.outbox[0]] + cl.outbox[1..];
    assert forall v :: Own(s', c, v) <==> Own(s, c, v);
    assert cl'.inbox == cl.inbox + [DeleteDone] && cl'.outbox == cl.outbox[1..];
    assert Known(s', c, cl');
    assert forall p | Near(s, c, p) :: Near(s', c, p);
    assert forall S | Covers(s, c, S) :: Covers(s', c, S);
    if HasSnapshot(cl) {
      var i :| 0 <= i < |cl.inbox| && cl.inbox[i].Snapshot?;
      assert cl'.inbox[i].Snapshot?;
    }
  }

  // ---- Delivery

  lemma DeliverCreatedKeeps(s: System, c: nat)
    requires c < |s.clients| && ServerInv(s) && ClientInv(s, c) && Enabled(s, Deliver(c))
    requires s.clients[c].inbox[0].Created?
    ensures ClientInv(Do(s, Deliver(c)), c)
  {
    var s' := Do(s, Deliver(c));
    var cl, cl' := s.clients[c], s'.clients[c];
    var k: nat :| Told(s, c, cl, k);
    assert k == 0;
    assert forall v :: Own(s', c, v) <==> Own(s, c, v);
    assert cl'.inbox == cl.inbox[1..];
    assert Known(s', c, cl');
    assert forall S | Covers(s, c, S) :: Covers(s', c, S);
  }

  lemma DeliverSessionPhase(s: System, c: nat)
    requires c < |s.clients| && Phased(s, c, s.clients[c]) && Enabled(s, Deliver(c))
    requires s.clients[c].inbox[0].Session?
    ensures Phased(Do(s, Deliver(c)), c, Do(s, Deliver(c)).clients[c])
  {
    var s' := Do(s, Deliver(c));
    var cl, cl' := s.clients[c], s'.clients[c];
    assert forall v :: Own(s', c, v) <==> Own(s, c, v);
    assert cl'.inbox == cl.inbox[1..];
    if Fresh(s, c, cl) {
      assert Fresh(s', c, cl');
    } else if Asked(s, c, cl) {
      assert Asked(s', c, cl');
    } else if Known(s, c, cl) {
      assert Known(s', c, cl');
    } else {
      var k: nat :| Told(s, c, cl, k);
      assert Told(s', c, cl', k - 1);
    }
  }

  lemma DeliverSessionKeeps(s: System, c: nat)
    requires c < |s.clients| && ServerInv(s) && ClientInv(s, c) && Enabled(s, Deliver(c))
    requires s.clients[c].inbox[0].Session?
    ensures ClientInv(Do(s, Deliver(c)), c)
  {
    var s' := Do(s, Deliver(c));
    var cl, cl' := s.clients[c], s'.clients[c];
    DeliverSessionPhase(s, c);
    QuietBeliefs(s, s', c);
    QuietWakes(s, s', c);
  }

  lemma OnlyKnown(s: System, c: nat, cl: Client)
    requires Phased(s, c, cl) && cl.inbox != [] && !cl.inbox[0].Session? && !cl.inbox[0].Created?
    ensures Known(s, c, cl)
  {
  }

  /** The head of the inbox has been dropped, and at most a children request was added. */
  ghost predicate Quiet(s: System, s': System, c: nat)
    requires c < |s.clients|
  {
    && s' == s.(clients := s'.clients) && c < |s'.clients|
    && var cl, cl' := s.clients[c], s'.clients[c];
    && cl.inbox != [] && !cl.inbox[0].Snapshot?
    && cl' == cl.(inbox := cl.inbox[1..], outbox := cl'.outbox, quit := cl'.quit)
    && (cl'.outbox == cl.outbox + [ChildrenReq] || (cl'.outbox == cl.outbox
        && (cl.watch.Some? ==> cl.inbox[0] != NodeGone(cl.watch.value))))
  }

  lemma QuietBeliefs(s: System, s': System, c: nat)
    requires c < |s.clients| && ServerInv(s) && ClientInv(s, c) && Quiet(s, s', c)
    ensures Beliefs(s', c, s'.clients[c])
  {
    assert forall v :: Own(s', c, v) <==> Own(s, c, v);
    assert forall p | Near(s, c, p) :: Near(s', c, p);
    assert forall S | Covers(s, c, S) :: Covers(s', c, S);
  }

  lemma QuietWakes(s: System, s': System, c: nat)
    requires c < |s.clients| && ClientInv(s, c) && Quiet(s, s', c)
    ensures Waiting(s', c) && c !in s'.missed ==> Underway(s', c)
  {
    var cl, cl' := s.clients[c], s'.clients[c];
    assert cl.inbox == [cl.inbox[0]] + cl'.inbox;
    if HasSnapshot(cl) {
      var i :| 0 <= i < |cl.inbox| && cl.inbox[i].Snapshot?;
      assert cl'.inbox[i - 1].Snapshot?;
    }
    if cl'.outbox == cl.outbox + [ChildrenReq] {
      assert cl'.outbox[|cl.outbox|] == ChildrenReq;
    }
  }

  lemma DeliverNoteKeeps(s: System, c: nat)
    requires c < |s.clients| && ServerInv(s) && ClientInv(s, c) && Enabled(s, Deliver(c))
    requires var e := s.clients[c].inbox[0]; e.NodeGone? || e.ExistsDone? || e.DeleteDone?
    ensures ClientInv(Do(s, Deliver(c)), c)
  {
    var s' := Do(s, Deliver(c));
    OnlyKnown(s, c, s.clients[c]);
    assert Known(s', c, s'.clients[c]);
    QuietBeliefs(s, s', c);
    QuietWakes(s, s', c);
  }

  /** The verdict on a covering snapshot is right about the live znodes. */
  lemma VerdictIsRight(s: System, c: nat, m: nat, S: set<nat>)
    requires ServerInv(s) && Own(s, c, m) && m in s.live && Covers(s, c, S)
    requires forall u, v | Own(s, c, u) && Own(s, c, v) :: u == v
    ensures m in S
    ensures VerdictOf(S, m).Smallest? ==> IsSmallest(s, c)
    ensures VerdictOf(S, m).Watch? ==> Near(s, c, VerdictOf(S, m).p)
  {
    assert forall v | v in s.live && v <= m :: v in S;
  }

  lemma BeliefsDependOnServer(s: System, s': System, c: nat, cl: Client)
    requires Beliefs(s, c, cl)
    requires s'.owner == s.owner && s'.live == s.live && s'.watches == s.watches
    ensures Beliefs(s', c, cl)
  {
    assert forall v :: Own(s', c, v) <==> Own(s, c, v);
    assert forall p | Near(s, c, p) :: Near(s', c, p);
    assert forall T | Covers(s, c, T) :: Covers(s', c, T);
  }

  ghost predicate Justified(s: System, c: nat, a: Action) {
    && (a.AskExists? ==> Near(s, c, a.p))
    && (Claims(a) ==> IsSmallest(s, c))
    && (a.AskDelete? && a.target.Some? ==> Own(s, c, a.target.value))
  }

  lemma PoppedBeliefs(s: System, c: nat, cl: Client)
    requires Beliefs(s, c, cl) && cl.inbox != []
    ensures Beliefs(s, c, cl.(inbox := cl.inbox[1..]))
  {
  }

  lemma RequestBeliefs(s: System, c: nat, cl: Client, r: Request)
    requires Beliefs(s, c, cl) && (r.ExistsReq? ==> Near(s, c, r.p))
    requires r.DeleteReq? && r.target.Some? ==> Own(s, c, r.target.value)
    ensures Beliefs(s, c, cl.(outbox := cl.outbox + [r]))
  {
  }

  lemma ActBeliefs(s: System, c: nat, cl: Client, a: Action)
    requires Beliefs(s, c, cl) && Justified(s, c, a)
    ensures Beliefs(s, c, Act(cl, a))
  {
    match a
    case Nothing =>
    case AskChildren => RequestBeliefs(s, c, cl, ChildrenReq);
    case AskExists(p) => RequestBeliefs(s, c, cl, ExistsReq(p));
    case AskDelete(t) => RequestBeliefs(s, c, cl, DeleteReq(t));
    case Lead =>
  }

  lemma SnapshotJustifies(s: System, c: nat, cl: Client)
    requires ServerInv(s) && Beliefs(s, c, cl) && Known(s, c, cl)
    requires cl.inbox != [] && cl.inbox[0].Snapshot?
    ensures Justified(s, c, Reaction(s.program, cl, cl.inbox[0]))
  {
    if cl.seqMe in s.live {
      VerdictIsRight(s, c, cl.seqMe, cl.inbox[0].S);
    } else {
      assert forall v | v in s.live :: !Own(s, c, v);
    }
  }

  lemma DeliverSnapshotKeeps(s: System, c: nat)
    requires c < |s.clients| && ServerInv(s) && ClientInv(s, c) && Enabled(s, Deliver(c))
    requires s.clients[c].inbox[0].Snapshot?
    ensures ClientInv(Do(s, Deliver(c)), c)
  {
    var s' := Do(s, Deliver(c));
    var cl, cl' := s.clients[c], s'.clients[c];
    OnlyKnown(s, c, cl);
    assert Known(s', c, cl') by {
      assert cl'.inbox == cl.inbox[1..];
    }
    SnapshotJustifies(s, c, cl);
    PoppedBeliefs(s, c, cl);
    ActBeliefs(s, c, cl.(inbox := cl.inbox[1..]), Reaction(s.program, cl, cl.inbox[0]));
    BeliefsDependOnServer(s, s', c, cl');
    if Waiting(s', c) {
      assert cl'.outbox[|cl.outbox|] == ExistsReq(cl'.watch.value);
    }
  }
}
