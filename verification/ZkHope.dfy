/** Exactly which waiters can still conclude that they are smallest. */
module ZkHope {
  import opened Options
  import opened Trails
  import opened ZkSearch
  import opened ZkProtocol
  import opened ZkSafety
  import opened ZkRuns
  import opened ZkPaths
  import opened ZkWaking
  import opened ZkLook

  ghost function Popped(cl: Client): Client
    requires cl.inbox != []
  {
    cl.(inbox := cl.inbox[1..])
  }

  /** The client after the callback for its next event. */
  ghost function Next(program: Program, cl: Client): Client
    requires cl.inbox != []
  {
    Handle(program, Popped(cl), cl.inbox[0])
  }

  lemma NextKeeps(program: Program, cl: Client)
    requires cl.inbox != []
    ensures var cl', a := Next(program, cl), Reaction(program, cl, cl.inbox[0]);
            && cl'.inbox == cl.inbox[1..] && cl'.closed == cl.closed && cl'.started == cl.started
            && cl'.claimed == (cl.claimed || Claims(a))
            && cl'.watch == (if a.AskExists? then Some(a.p) else cl.watch)
            && (!cl.inbox[0].Created? ==> cl'.seqMe == cl.seqMe && cl'.stored == cl.stored)
            && (a == AskChildren ==> cl'.outbox == cl.outbox + [ChildrenReq])
            && (a.AskExists? ==> cl'.outbox == cl.outbox + [ExistsReq(a.p)])
            && (a.AskExists? ==> cl.inbox[0].Snapshot? && a.p in cl.inbox[0].S)
            && (a == Nothing ==> cl'.outbox == cl.outbox)
            && (cl.inbox[0].Snapshot? ==> a.AskExists? || Claims(a))
  {
    var e := cl.inbox[0];
    HandleInTwo(program, Popped(cl), e);
    ReactionReads(program, cl, Popped(cl), e);
    ActDoes(Noted(Popped(cl), e), Reaction(program, cl, e));
    SnapshotReaction(program, cl, e);
  }

  /** A reaction depends on the watch and the number alone. */
  lemma ReactionReads(program: Program, cl: Client, cl': Client, e: Event)
    requires cl'.watch == cl.watch && cl'.seqMe == cl.seqMe
    ensures Reaction(program, cl', e) == Reaction(program, cl, e)
  {
  }

  lemma ActDoes(cl: Client, a: Action)
    ensures var cl' := Act(cl, a);
            && cl' == cl.(watch := cl'.watch, claimed := cl'.claimed, outbox := cl'.outbox)
            && cl'.claimed == (cl.claimed || Claims(a))
            && cl'.watch == (if a.AskExists? then Some(a.p) else cl.watch)
            && (a == AskChildren ==> cl'.outbox == cl.outbox + [ChildrenReq])
            && (a.AskExists? ==> cl'.outbox == cl.outbox + [ExistsReq(a.p)])
            && (a == Nothing ==> cl'.outbox == cl.outbox)
  {
  }

  lemma SnapshotReaction(program: Program, cl: Client, e: Event)
    ensures var a := Reaction(program, cl, e);
            && (a.AskExists? ==> e.Snapshot? && a.p in e.S)
            && (e.Snapshot? ==> a.AskExists? || Claims(a))
  {
  }

  /**
   Going through the inbox, the client concludes, or asks for the children, or ends up
   watching a node that is alive.
   */
  ghost predicate Hope(program: Program, live: set<nat>, cl: Client)
    decreases |cl.inbox|
  {
    if cl.inbox == [] then cl.watch.Some? && cl.watch.value in live
    else
      var a := Reaction(program, cl, cl.inbox[0]);
      NextKeeps(program, cl);
      Claims(a) || a == AskChildren || Hope(program, live, Next(program, cl))
  }

  ghost predicate Hopeful(s: System, c: nat)
    requires c < |s.clients|
  {
    ChildrenReq in s.clients[c].outbox || Hope(s.program, s.live, s.clients[c])
  }

  // ---- What hope does not come from

  ghost predicate Within(cl: Client, n: nat) {
    && (cl.watch.Some? ==> cl.watch.value < n)
    && forall i | 0 <= i < |cl.inbox| && cl.inbox[i].Snapshot? :: forall v | v in cl.inbox[i].S :: v < n
  }

  /** Not from znodes that go, nor from new ones. */
  lemma {:induction false} HopeShrinks(program: Program, live: set<nat>, live': set<nat>, cl: Client, n: nat)
    requires Within(cl, n) && (forall v | v in live' && v < n :: v in live) && Hope(program, live', cl)
    ensures Hope(program, live, cl)
    decreases |cl.inbox|
  {
    if cl.inbox != [] {
      NextKeeps(program, cl);
      var a := Reaction(program, cl, cl.inbox[0]);
      if !Claims(a) && a != AskChildren {
        assert Within(Next(program, cl), n);
        HopeShrinks(program, live, live', Next(program, cl), n);
      }
    }
  }

  /** Not from replies, session events or notices about other nodes. */
  lemma {:induction false} HopeIgnores(program: Program, live: set<nat>, cl: Client, e: Event)
    requires !Hope(program, live, cl) && (cl.watch.Some? || HasSnapshot(cl))
    requires e.ExistsDone? || e.DeleteDone? || e.Session? || (e.NodeGone? && e.p in live)
    ensures !Hope(program, live, Push(cl, e))
    decreases |cl.inbox|
  {
    var cl1 := Push(cl, e);
    NextKeeps(program, cl1);
    if cl.inbox == [] {
      assert cl1.inbox[1..] == [];
    } else {
      NextKeeps(program, cl);
      NextPush(program, cl, e);
      StillAimed(program, cl);
      HopeIgnores(program, live, Next(program, cl), e);
    }
  }

  lemma NextPush(program: Program, cl: Client, e: Event)
    requires cl.inbox != []
    ensures Next(program, Push(cl, e)) == Push(Next(program, cl), e)
    ensures Reaction(program, Push(cl, e), Push(cl, e).inbox[0]) == Reaction(program, cl, cl.inbox[0])
  {
    assert (cl.inbox + [e])[1..] == cl.inbox[1..] + [e];
    var cl1, e0 := Push(cl, e), cl.inbox[0];
    assert Popped(cl1) == Push(Popped(cl), e);
    HandleInTwo(program, Popped(cl), e0);
    HandleInTwo(program, Popped(cl1), e0);
    ReactionReads(program, cl, cl1, e0);
    ReactionReads(program, cl, Popped(cl), e0);
    ReactionReads(program, cl, Popped(cl1), e0);
    ActPush(Noted(Popped(cl), e0), Reaction(program, cl, e0), e);
  }

  lemma ActPush(cl: Client, a: Action, e: Event)
    ensures Act(Push(cl, e), a) == Push(Act(cl, a), e)
  {
  }

  lemma StillAimed(program: Program, cl: Client)
    requires cl.inbox != [] && (cl.watch.Some? || HasSnapshot(cl))
    ensures var cl' := Next(program, cl);
            Claims(Reaction(program, cl, cl.inbox[0])) || cl'.watch.Some? || HasSnapshot(cl')
  {
    NextKeeps(program, cl);
    if cl.watch.None? && !cl.inbox[0].Snapshot? {
      var i :| 0 <= i < |cl.inbox| && cl.inbox[i].Snapshot?;
      assert Next(program, cl).inbox[i - 1].Snapshot?;
    }
  }

  // ---- Without hope, for ever

  ghost predicate Hopeless(s: System, c: nat) {
    && c < |s.clients| && !Hopeful(s, c)
    && var cl := s.clients[c];
    && cl.started && cl.stored && !cl.claimed && NoCreate(cl) && (cl.watch.Some? || HasSnapshot(cl))
    && (forall i | 0 <= i < |cl.inbox| :: !cl.inbox[i].Created?)
  }

  lemma AimsWithin(s: System, c: nat, cl: Client)
    requires Aims(s, c, cl)
    ensures Within(cl, |s.owner|)
  {
    forall i | 0 <= i < |cl.inbox| && cl.inbox[i].Snapshot? ensures forall v | v in cl.inbox[i].S :: v < |s.owner| {
      assert Past(s, cl.inbox[i]);
    }
  }

  lemma HopelessAside(s: System, s': System, c: nat)
    requires Aimed(s) && Hopeless(s, c) && Aside(s, s', c) && s'.program == s.program
    ensures Hopeless(s', c)
  {
    var cl, cl' := s.clients[c], s'.clients[c];
    assert Aims(s, c, cl);
    AimsWithin(s, c, cl);
    if cl'.inbox != cl.inbox {
      var p :| (c, p) in s.watches && cl'.inbox == cl.inbox + [NodeGone(p)];
      HopeIgnores(s.program, s.live, cl, NodeGone(p));
      assert cl' == Push(cl, NodeGone(p));
      KeepsSnapshot(cl, NodeGone(p));
    }
    assert Within(cl', |s.owner|);
    if Hope(s.program, s'.live, cl') {
      HopeShrinks(s.program, s.live, s'.live, cl', |s.owner|);
    }
  }

  lemma KeepsSnapshot(cl: Client, e: Event)
    ensures HasSnapshot(cl) ==> HasSnapshot(Push(cl, e))
  {
    if HasSnapshot(cl) {
      var i :| 0 <= i < |cl.inbox| && cl.inbox[i].Snapshot?;
      assert Push(cl, e).inbox[i].Snapshot?;
    }
  }

  /** Hope depends on the inbox, the watch and the number alone. */
  lemma {:induction false} HopeReads(program: Program, live: set<nat>, cl: Client, cl': Client)
    requires cl'.inbox == cl.inbox && cl'.watch == cl.watch && cl'.seqMe == cl.seqMe
    ensures Hope(program, live, cl') == Hope(program, live, cl)
    decreases |cl.inbox|
  {
    if cl.inbox != [] {
      NextKeeps(program, cl);
      NextKeeps(program, cl');
      var a := Reaction(program, cl, cl.inbox[0]);
      ReactionReads(program, cl, cl', cl.inbox[0]);
      NextNumber(program, cl, cl');
      if !Claims(a) && a != AskChildren {
        HopeReads(program, live, Next(program, cl), Next(program, cl'));
      }
    }
  }

  lemma NextNumber(program: Program, cl: Client, cl': Client)
    requires cl.inbox != [] && cl'.inbox == cl.inbox && cl'.seqMe == cl.seqMe
    ensures Next(program, cl').seqMe == Next(program, cl).seqMe
  {
    NextNoted(program, cl);
    NextNoted(program, cl');
  }

  lemma NextNoted(program: Program, cl: Client)
    requires cl.inbox != []
    ensures Next(program, cl).seqMe == if cl.inbox[0].Created? then cl.inbox[0].v else cl.seqMe
  {
    HandleInTwo(program, Popped(cl), cl.inbox[0]);
    ActDoes(Noted(Popped(cl), cl.inbox[0]), Reaction(program, Popped(cl), cl.inbox[0]));
  }

  lemma HopelessServed(s: System, c: nat)
    requires Aimed(s) && Hopeless(s, c) && Enabled(s, Serve(c))
    ensures Hopeless(Do(s, Serve(c)), c)
  {
    var cl, s' := s.clients[c], Do(s, Serve(c));
    assert Aims(s, c, cl);
    assert cl.outbox == [cl.outbox[0]] + cl.outbox[1..];
    assert cl.outbox[0].ExistsReq?;
    HopeIgnores(s.program, s.live, cl, ExistsDone);
    KeepsSnapshot(cl, ExistsDone);
    assert s'.clients[c] == Push(cl, ExistsDone).(outbox := cl.outbox[1..]);
    HopeReads(s.program, s.live, Push(cl, ExistsDone), s'.clients[c]);
  }

  lemma HopelessDelivered(s: System, c: nat)
    requires Aimed(s) && Hopeless(s, c) && Enabled(s, Deliver(c))
    ensures Hopeless(Do(s, Deliver(c)), c)
  {
    var cl, s' := s.clients[c], Do(s, Deliver(c));
    NextKeeps(s.program, cl);
    StillAimed(s.program, cl);
    assert s'.clients[c] == Next(s.program, cl);
  }

  lemma HopelessNoticed(s: System, c: nat)
    requires Hopeless(s, c)
    ensures Hopeless(Do(s, Notice(c)), c)
  {
    HopeIgnores(s.program, s.live, s.clients[c], Session);
    KeepsSnapshot(s.clients[c], Session);
  }

  lemma HopelessExpired(s: System, c: nat, node: Option<nat>)
    requires Aimed(s) && Hopeless(s, c) && Enabled(s, Expire(c, node))
    ensures Hopeless(Do(s, Expire(c, node)), c)
  {
    var s1 := if node.Some? then RemoveNode(s, node.value) else s;
    if node.Some? {
      RemovedAside(s, node.value, c);
      HopelessAside(s, s1, c);
    }
    HopeReads(s1.program, s1.live, s1.clients[c], Close(s1, c).clients[c]);
  }

  lemma HopelessStays(s: System, step: Step, c: nat)
    requires Aimed(s) && Hopeless(s, c) && Enabled(s, step)
    ensures Hopeless(Do(s, step), c)
  {
    if step.c != c {
      OthersAside(s, step, c);
      HopelessAside(s, Do(s, step), c);
    } else {
      match step
      case Serve(_) => HopelessServed(s, c);
      case Deliver(_) => HopelessDelivered(s, c);
      case Notice(_) => HopelessNoticed(s, c);
      case Expire(_, node) => HopelessExpired(s, c, node);
    }
  }

  lemma {:induction false} HopelessForever(tr: Path, polite: bool, c: nat)
    requires Leads(tr, polite) && Aimed(Origin(tr)) && Hopeless(Origin(tr), c)
    ensures Aimed(tr.s) && Hopeless(tr.s, c)
  {
    if tr.Then? {
      HopelessForever(tr.before, polite, c);
      StepAims(tr.before.s, tr.step);
      HopelessStays(tr.before.s, tr.step, c);
    }
  }
}
