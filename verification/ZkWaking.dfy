/** Exactly which waiters can still be woken. */
module ZkWaking {
  import opened Options
  import opened Trails
  import opened ZkSearch
  import opened ZkProtocol
  import opened ZkSafety
  import opened ZkRuns
  import opened ZkPaths

  // ---- Waiters that nothing will wake

  /**
   The watched node has gone and no notice of it, no children request and no snapshot is
   under way; at most `exists` calls are, and they find nothing.
   */
  ghost predicate Stranded(s: System, c: nat) {
    && Waits(s, c) && !Wakeable(s, c)
    && s.clients[c].watch.value < |s.owner| && s.clients[c].watch.value !in s.live
    && (forall i | 0 <= i < |s.clients[c].inbox| :: !s.clients[c].inbox[i].Created?)
    && (forall p | (c, p) in s.watches :: p in s.live)
  }

  ghost predicate Waits(s: System, c: nat) {
    && c < |s.clients| && s.clients[c].started && s.clients[c].stored
    && !s.clients[c].claimed && s.clients[c].watch.Some? && NoCreate(s.clients[c])
  }

  lemma StrandedByRemoval(s: System, p: nat, c: nat)
    requires Stranded(s, c)
    ensures Stranded(RemoveNode(s, p), c)
  {
  }

  lemma StrandedByService(s: System, c: nat)
    requires Stranded(s, c) && Enabled(s, Serve(c))
    ensures Stranded(Do(s, Serve(c)), c)
  {
    var cl := s.clients[c];
    assert cl.outbox == [cl.outbox[0]] + cl.outbox[1..];
    if cl.outbox[0].DeleteReq? {
      var s1 := Acknowledge(s, c);
      assert Stranded(s1, c);
      var t := cl.outbox[0].target;
      if t.Some? && t.value in s.live {
        StrandedByRemoval(s1, t.value, c);
      }
    }
  }

  lemma StrandedByDelivery(s: System, c: nat)
    requires Stranded(s, c) && Enabled(s, Deliver(c))
    ensures Stranded(Do(s, Deliver(c)), c)
  {
    var s' := Do(s, Deliver(c));
    var cl, cl' := s.clients[c], s'.clients[c];
    assert cl.inbox == [cl.inbox[0]] + cl.inbox[1..];
    assert cl' == cl.(inbox := cl.inbox[1..], quit := cl'.quit);
  }

  lemma StrandedByOthers(s: System, step: Step, c: nat)
    requires Stranded(s, c) && Enabled(s, step) && step.c != c
    ensures Stranded(Do(s, step), c)
  {
    var d := step.c;
    if step.Serve? && s.clients[d].outbox[0].DeleteReq? {
      var t := s.clients[d].outbox[0].target;
      var s1 := Acknowledge(s, d);
      assert Stranded(s1, c);
      if t.Some? && t.value in s.live {
        StrandedByRemoval(s1, t.value, c);
      }
    } else if step.Expire? && step.node.Some? {
      StrandedByRemoval(s, step.node.value, c);
    }
  }

  lemma StrandedStays(s: System, step: Step, c: nat)
    requires Stranded(s, c) && Enabled(s, step)
    ensures Stranded(Do(s, step), c)
  {
    if step.c != c {
      StrandedByOthers(s, step, c);
    } else if step.Serve? {
      StrandedByService(s, c);
    } else if step.Deliver? {
      StrandedByDelivery(s, c);
    } else if step.Expire? && step.node.Some? {
      StrandedByRemoval(s, step.node.value, c);
    }
  }

  /** A stranded waiter stays so and concludes nothing, on any continuation, polite or not. */
  lemma {:induction false} StrandedForever(tr: Path, polite: bool, c: nat)
    requires Leads(tr, polite) && Stranded(Origin(tr), c)
    ensures Stranded(tr.s, c) && !tr.s.clients[c].claimed
  {
    if tr.Then? {
      StrandedForever(tr.before, polite, c);
      StrandedStays(tr.before.s, tr.step, c);
    }
  }

  // ---- A watched node that is alive is being watched, or about to be

  ghost predicate Past(s: System, e: Event) { e.Snapshot? ==> forall v | v in e.S :: v < |s.owner| }

  ghost predicate Aims(s: System, c: nat, cl: Client) {
    && (forall i | 0 <= i < |cl.outbox| && cl.outbox[i].ExistsReq? :: cl.watch.Some?)
    && (forall i | 0 <= i < |cl.outbox| && cl.outbox[i].DeleteReq? :: cl.claimed)
    && (forall p | (c, p) in s.watches :: p in s.live)
    && (c in s.missed ==> cl.watch.Some?)
    && (forall i | 0 <= i < |cl.inbox| :: Past(s, cl.inbox[i]))
    && (cl.watch.Some? ==> cl.watch.value < |s.owner|)
    && (cl.watch.Some? && cl.watch.value in s.live && !cl.closed ==>
          (c, cl.watch.value) in s.watches || ExistsReq(cl.watch.value) in cl.outbox)
  }

  ghost predicate Aimed(s: System) {
    && (forall v | v in s.live :: v < |s.owner|)
    && forall c | 0 <= c < |s.clients| :: Aims(s, c, s.clients[c])
  }

  /** To a client that does not act, little happens. */
  ghost predicate Aside(s: System, s': System, c: nat)
    requires c < |s.clients|
  {
    && |s'.clients| == |s.clients| && |s.owner| <= |s'.owner|
    && s'.clients[c] == s.clients[c].(inbox := s'.clients[c].inbox)
    && (s'.clients[c].inbox == s.clients[c].inbox
        || exists p :: (c, p) in s.watches && s'.clients[c].inbox == s.clients[c].inbox + [NodeGone(p)])
    && (c in s'.missed <==> c in s.missed)
    && (forall v | v in s'.live && v < |s.owner| :: v in s.live)
    && (forall p | (c, p) in s.watches && p in s'.live :: (c, p) in s'.watches)
    && (forall p | (c, p) in s'.watches :: (c, p) in s.watches && (p in s.live ==> p in s'.live))
  }

  lemma AsideAims(s: System, s': System, c: nat)
    requires c < |s.clients| && Aims(s, c, s.clients[c]) && Aside(s, s', c)
    ensures Aims(s', c, s'.clients[c])
  {
    forall i | 0 <= i < |s'.clients[c].inbox| ensures Past(s', s'.clients[c].inbox[i]) {
      assert i < |s.clients[c].inbox| ==> Past(s, s.clients[c].inbox[i]);
    }
  }

  lemma RemovedAside(s: System, p: nat, c: nat)
    requires c < |s.clients|
    ensures Aside(s, RemoveNode(s, p), c)
  {
  }

  lemma OthersAside(s: System, step: Step, c: nat)
    requires Enabled(s, step) && c < |s.clients| && step.c != c
    ensures Aside(s, Do(s, step), c)
  {
    if step.Serve? && s.clients[step.c].outbox[0].DeleteReq? {
      var s1, t := Acknowledge(s, step.c), s.clients[step.c].outbox[0].target;
      if t.Some? {
        RemovedAside(s1, t.value, c);
      }
    } else if step.Expire? && step.node.Some? {
      RemovedAside(s, step.node.value, c);
    }
  }

  /** The head of the outbox has been taken and answered. */
  lemma AnswerAims(s: System, s': System, c: nat)
    requires c < |s.clients| && |s'.clients| == |s.clients| && Aims(s, c, s.clients[c])
    requires s.clients[c].outbox != [] && |s.owner| <= |s'.owner| && s'.live == s.live && s.watches <= s'.watches
    requires forall p | (c, p) in s'.watches :: (c, p) in s.watches || p in s.live
    requires c in s'.missed ==> c in s.missed || s.clients[c].outbox[0].ExistsReq?
    requires var cl, cl' := s.clients[c], s'.clients[c];
             && cl' == cl.(inbox := cl'.inbox, outbox := cl.outbox[1..])
             && |cl'.inbox| == |cl.inbox| + 1 && cl'.inbox[..|cl.inbox|] == cl.inbox && Past(s', cl'.inbox[|cl.inbox|])
             && (forall p | cl.outbox[0] == ExistsReq(p) && p in s.live :: (c, p) in s'.watches)
    ensures Aims(s', c, s'.clients[c])
  {
    var cl, cl' := s.clients[c], s'.clients[c];
    assert cl.outbox == [cl.outbox[0]] + cl.outbox[1..];
    forall i | 0 <= i < |cl'.inbox| ensures Past(s', cl'.inbox[i]) {
      assert i < |cl.inbox| ==> cl'.inbox[i] == cl'.inbox[..|cl.inbox|][i] && Past(s, cl.inbox[i]);
    }
  }

  lemma ServeCreateAims(s: System, c: nat)
    requires Enabled(s, Serve(c)) && Aimed(s) && s.clients[c].outbox[0].CreateReq?
    ensures Aims(Do(s, Serve(c)), c, Do(s, Serve(c)).clients[c])
  {
    AnswerAims(s, Do(s, Serve(c)).(live := s.live), c);
  }

  lemma ServeDeleteAims(s: System, c: nat)
    requires Enabled(s, Serve(c)) && Aimed(s) && s.clients[c].outbox[0].DeleteReq?
    ensures Aims(Do(s, Serve(c)), c, Do(s, Serve(c)).clients[c])
  {
    var s1, t := Acknowledge(s, c), s.clients[c].outbox[0].target;
    AnswerAims(s, s1, c);
    if t.Some? && t.value in s.live {
      RemovedAside(s1, t.value, c);
      AsideAims(s1, RemoveNode(s1, t.value), c);
    }
  }

  lemma ServeAims(s: System, c: nat)
    requires Enabled(s, Serve(c)) && Aimed(s)
    ensures Aims(Do(s, Serve(c)), c, Do(s, Serve(c)).clients[c])
  {
    match s.clients[c].outbox[0]
    case CreateReq => ServeCreateAims(s, c);
    case DeleteReq(_) => ServeDeleteAims(s, c);
    case _ => AnswerAims(s, Do(s, Serve(c)), c);
  }

  lemma AimsElsewhere(s: System, s': System, c: nat, cl: Client, cl': Client)
    requires Aims(s, c, cl)
    requires s'.owner == s.owner && s'.live == s.live && s'.watches == s.watches && s'.missed == s.missed
    requires cl'.watch == cl.watch && cl'.closed == cl.closed && cl'.outbox == cl.outbox && cl'.claimed == cl.claimed
    requires cl'.inbox == cl.inbox || (cl.inbox != [] && cl'.inbox == cl.inbox[1..])
    ensures Aims(s', c, cl')
  {
    forall i | 0 <= i < |cl'.inbox| ensures Past(s', cl'.inbox[i]) {
      assert Past(s, cl.inbox[if cl'.inbox == cl.inbox then i else i + 1]);
    }
  }

  /** The fields an event sets by itself, before the client reacts to it. */
  function Noted(cl: Client, e: Event): Client {
    match e
    case Created(v) => cl.(seqMe := v, stored := true)
    case DeleteDone => cl.(quit := true)
    case _ => cl
  }

  lemma HandleInTwo(program: Program, cl: Client, e: Event)
    ensures Handle(program, cl, e) == Act(Noted(cl, e), Reaction(program, cl, e))
  {
  }

  lemma ReactionAims(s: System, cl: Client, e: Event)
    requires Past(s, e)
    ensures var a := Reaction(s.program, cl, e); a.AskExists? ==> a.p < |s.owner|
  {
  }

  lemma DeliverAims(s: System, c: nat)
    requires Enabled(s, Deliver(c)) && Aims(s, c, s.clients[c])
    ensures Aims(Do(s, Deliver(c)), c, Do(s, Deliver(c)).clients[c])
  {
    var cl, s' := s.clients[c], Do(s, Deliver(c));
    var cl1, e := cl.(inbox := cl.inbox[1..]), cl.inbox[0];
    assert Past(s, e);
    AimsElsewhere(s, s, c, cl, Noted(cl1, e));
    ReactionAims(s, cl1, e);
    ActAims(s, c, Noted(cl1, e), Reaction(s.program, cl1, e));
    HandleInTwo(s.program, cl1, e);
    AimsElsewhere(s, s', c, s'.clients[c], s'.clients[c]);
  }

  lemma ActAims(s: System, c: nat, cl: Client, a: Action)
    requires Aims(s, c, cl) && (a.AskExists? ==> a.p < |s.owner|)
    ensures Aims(s, c, Act(cl, a))
  {
    var cl' := Act(cl, a);
    assert cl'.outbox != cl.outbox ==> cl'.outbox[..|cl.outbox|] == cl.outbox;
    if a.AskExists? {
      assert cl'.outbox[|cl.outbox|] == ExistsReq(a.p);
    }
  }

  lemma StepAims(s: System, step: Step)
    requires Aimed(s) && Enabled(s, step)
    ensures Aimed(Do(s, step))
  {
    var s' := Do(s, step);
    assert |s'.clients| == |s.clients|;
    forall c | 0 <= c < |s.clients| ensures Aims(s', c, s'.clients[c]) {
      if c != step.c {
        OthersAside(s, step, c);
        AsideAims(s, s', c);
      } else {
        OwnAims(s, step);
      }
    }
  }

  lemma OwnAims(s: System, step: Step)
    requires Aimed(s) && Enabled(s, step)
    ensures step.c < |Do(s, step).clients| && Aims(Do(s, step), step.c, Do(s, step).clients[step.c])
  {
    var c, s' := step.c, Do(s, step);
    match step
    case Serve(_) => ServeAims(s, c);
    case Deliver(_) => DeliverAims(s, c);
    case Start(_) => StartAims(s, c);
    case Notice(_) =>
    case Expire(_, node) =>
      if node.Some? {
        RemovedAside(s, node.value, c);
        AsideAims(s, RemoveNode(s, node.value), c);
      }
  }

  lemma StartAims(s: System, c: nat)
    requires Enabled(s, Start(c)) && Aims(s, c, s.clients[c])
    ensures Aims(Do(s, Start(c)), c, Do(s, Start(c)).clients[c])
  {
    var cl' := Do(s, Start(c)).clients[c];
    assert cl'.outbox[..|s.clients[c].outbox|] == s.clients[c].outbox;
  }

  lemma {:induction false} RunAims(states: seq<System>, steps: seq<Step>, i: nat)
    requires IsRun(states, steps) && i < |states|
    ensures Aimed(states[i])
  {
    if i > 0 {
      RunAims(states, steps, i - 1);
      StepAims(states[i - 1], steps[i - 1]);
    }
  }
}
