/** Early session events that do no harm: to a client without rivals, and to a closed session. */
module ZkHarmless {
  import opened Options
  import opened Trails
  import opened ZkSearch
  import opened ZkProtocol
  import opened ZkSafety
  import opened ZkRuns
  import opened ZkPaths
  import opened ZkWaking

  lemma InvExcludes(s: System)
    requires Inv(s)
    ensures MutualExclusion(s)
  {
    forall c, u, v | Holder(s, c, u) && v in s.live ensures u <= v {
      assert ClientInv(s, c);
    }
  }

  /** The client may yet create its znode. */
  ghost predicate MayCreate(cl: Client) { !cl.closed && (!cl.started || CreateReq in cl.outbox) }

  // ---- Nobody else will ever have a znode

  ghost predicate OneAtMost(live: set<nat>) { forall u, v | u in live && v in live :: u == v }

  /** Only `c` can create, and only once. */
  ghost predicate Lone(s: System, c: nat) {
    && c < |s.clients| && (forall d | 0 <= d < |s.clients| && d != c :: !MayCreate(s.clients[d]))
    && (forall v | v in s.live :: v < |s.owner|) && OneAtMost(s.live)
    && var cl := s.clients[c];
    && (!cl.started ==> s.live == {} && NoCreate(cl))
    && (!NoCreate(cl) ==> s.live == {} && OneCreate(cl.outbox))
  }

  ghost predicate OneCreate(outbox: seq<Request>) {
    forall i, j | 0 <= i < j < |outbox| && outbox[i].CreateReq? :: !outbox[j].CreateReq?
  }

  lemma LoneExcludes(s: System, c: nat)
    requires Lone(s, c)
    ensures MutualExclusion(s)
  {
  }

  /** A client has not come closer to creating a znode. */
  ghost predicate NoCloser(cl: Client, cl': Client) {
    && cl'.started == cl.started && (cl.closed ==> cl'.closed)
    && (NoCreate(cl) ==> NoCreate(cl')) && (OneCreate(cl.outbox) ==> OneCreate(cl'.outbox))
  }

  lemma LoneKept(s: System, s': System, c: nat)
    requires Lone(s, c) && |s'.clients| == |s.clients| && s'.live <= s.live && s'.owner == s.owner
    requires forall d | 0 <= d < |s.clients| :: NoCloser(s.clients[d], s'.clients[d])
    ensures Lone(s', c)
  {
    forall d | 0 <= d < |s.clients| && d != c ensures !MayCreate(s'.clients[d]) {
      assert NoCloser(s.clients[d], s'.clients[d]);
      assert !MayCreate(s.clients[d]);
    }
  }

  lemma ServedNoCloser(s: System, d: nat)
    requires Enabled(s, Serve(d)) && !s.clients[d].outbox[0].CreateReq?
    ensures var s' := Do(s, Serve(d));
            && |s'.clients| == |s.clients| && s'.live <= s.live && s'.owner == s.owner
            && forall e | 0 <= e < |s.clients| :: NoCloser(s.clients[e], s'.clients[e])
  {
    var s' := Do(s, Serve(d));
    ServedServer(s, d);
    forall e | 0 <= e < |s.clients| ensures NoCloser(s.clients[e], s'.clients[e]) {
      if e != d {
        OthersAside(s, Serve(d), e);
      } else {
        TailNoCloser(s.clients[d], s'.clients[d]);
      }
    }
  }

  lemma ServedServer(s: System, d: nat)
    requires Enabled(s, Serve(d)) && !s.clients[d].outbox[0].CreateReq?
    ensures var s' := Do(s, Serve(d));
            && |s'.clients| == |s.clients| && s'.live <= s.live && s'.owner == s.owner
            && s'.clients[d] == s.clients[d].(inbox := s'.clients[d].inbox, outbox := s.clients[d].outbox[1..])
  {
    var r := s.clients[d].outbox[0];
    if r.DeleteReq? {
      var s1 := Acknowledge(s, d);
      if r.target.Some? && r.target.value in s.live {
        RemovedAside(s1, r.target.value, d);
      }
    }
  }

  lemma TailNoCloser(cl: Client, cl': Client)
    requires cl.outbox != [] && cl' == cl.(inbox := cl'.inbox, outbox := cl.outbox[1..])
    ensures NoCloser(cl, cl')
  {
  }

  lemma DeliveredNoCloser(program: Program, cl: Client)
    requires cl.inbox != []
    ensures NoCloser(cl, Handle(program, cl.(inbox := cl.inbox[1..]), cl.inbox[0]))
  {
    var cl1, e := cl.(inbox := cl.inbox[1..]), cl.inbox[0];
    HandleInTwo(program, cl1, e);
    ActNoCloser(Noted(cl1, e), Reaction(program, cl1, e));
  }

  lemma ActNoCloser(cl: Client, a: Action)
    ensures NoCloser(cl, Act(cl, a))
  {
  }

  lemma LoneCreates(s: System, c: nat, d: nat)
    requires Lone(s, c) && Enabled(s, Serve(d)) && s.clients[d].outbox[0].CreateReq?
    ensures Lone(Do(s, Serve(d)), c)
  {
    var cl, s' := s.clients[d], Do(s, Serve(d));
    assert MayCreate(cl) && d == c;
    assert s'.clients[c].outbox == cl.outbox[1..];
    assert NoCreate(s'.clients[c]);
  }

  lemma LoneStays(s: System, step: Step, c: nat)
    requires Lone(s, c) && Enabled(s, step)
    ensures Lone(Do(s, step), c)
  {
    var d, s' := step.c, Do(s, step);
    match step
    case Serve(_) =>
      if s.clients[d].outbox[0].CreateReq? {
        LoneCreates(s, c, d);
      } else {
        ServedNoCloser(s, d);
        LoneKept(s, s', c);
      }
    case Deliver(_) =>
      DeliveredNoCloser(s.program, s.clients[d]);
      LoneKept(s, s', c);
    case Start(_) =>
      assert MayCreate(s.clients[d]) && d == c;
      assert s'.clients[c].outbox == s.clients[c].outbox + [CreateReq];
    case _ => LoneKept(s, s', c);
  }

  lemma {:induction false} LoneForever(tr: Path, c: nat)
    requires Leads(tr, true) && Lone(Origin(tr), c)
    ensures Lone(tr.s, c)
  {
    if tr.Then? {
      LoneForever(tr.before, c);
      LoneStays(tr.before.s, tr.step, c);
    }
  }

  // ---- The session is over

  /** Client `c` will never have a znode, a watch or an answer. */
  ghost predicate Shut(s: System, c: nat) {
    && c < |s.clients| && s.program.LockProgram? && NoZnode(s, c) && (forall p :: (c, p) !in s.watches)
    && var cl := s.clients[c];
    cl.closed && !cl.started && !cl.stored && !cl.claimed && OnlySession(cl.inbox) && NoCreate(cl)
  }

  /** The same without what `c` has been told and has asked. */
  ghost function Without(s: System, c: nat): System
    requires c < |s.clients|
  {
    s.(clients := s.clients[c := NEW_CLIENT.(closed := true)])
  }

  lemma ShutByItself(s: System, step: Step, c: nat)
    requires Shut(s, c) && Enabled(s, step) && step.c == c && (step.Expire? ==> step.node.None?)
    ensures Shut(Do(s, step), c) && Without(Do(s, step), c) == Without(s, c)
  {
    var s' := Do(s, step);
    assert forall v :: Own(s', c, v) <==> Own(s, c, v);
    if step.Deliver? {
      assert s'.clients[c].inbox == s.clients[c].inbox[1..];
    }
    assert s'.watches == s.watches;
  }

  lemma WithoutRemoval(s: System, p: nat, c: nat)
    requires c < |s.clients| && (c, p) !in s.watches
    ensures Without(RemoveNode(s, p), c) == RemoveNode(Without(s, c), p)
    ensures RemoveNode(s, p).clients[c] == s.clients[c]
  {
    assert Without(RemoveNode(s, p), c).clients == RemoveNode(Without(s, c), p).clients;
  }

  lemma WithoutReply(s: System, d: nat, e: Event, c: nat)
    requires c < |s.clients| && d < |s.clients| && c != d
    ensures Without(Reply(s, d, e), c) == Reply(Without(s, c), d, e)
  {
    assert Without(Reply(s, d, e), c).clients == Reply(Without(s, c), d, e).clients;
  }

  lemma WithoutRequest(s: System, d: nat, r: Request, c: nat)
    requires c < |s.clients| && d < |s.clients| && c != d && forall p :: (c, p) !in s.watches
    ensures Without(ServeRequest(s, d, r), c) == ServeRequest(Without(s, c), d, r)
  {
    match r
    case CreateReq => WithoutReply(s.(owner := s.owner + [d], live := s.live + {|s.owner|}), d, Created(|s.owner|), c);
    case ChildrenReq => WithoutReply(s, d, Snapshot(s.live), c);
    case ExistsReq(p) =>
      WithoutReply(s.(watches := s.watches + {(d, p)}), d, ExistsDone, c);
      WithoutReply(s.(missed := s.missed + {d}), d, ExistsDone, c);
    case DeleteReq(t) =>
      WithoutReply(s, d, DeleteDone, c);
      if t.Some? && t.value in s.live {
        WithoutRemoval(Reply(s, d, DeleteDone), t.value, c);
      }
  }

  lemma WithoutServe(s: System, d: nat, c: nat)
    requires Shut(s, c) && d != c && Enabled(s, Serve(d))
    ensures Enabled(Without(s, c), Serve(d)) && Without(Do(s, Serve(d)), c) == Do(Without(s, c), Serve(d))
  {
    var cl := s.clients[d];
    var s1 := s.(clients := s.clients[d := cl.(outbox := cl.outbox[1..])]);
    var t := Without(s, c);
    assert Without(s1, c).clients == t.clients[d := cl.(outbox := cl.outbox[1..])];
    WithoutRequest(s1, d, cl.outbox[0], c);
  }

  lemma WithoutExpire(s: System, d: nat, node: Option<nat>, c: nat)
    requires Shut(s, c) && d != c && Enabled(s, Expire(d, node))
    ensures Enabled(Without(s, c), Expire(d, node))
    ensures Without(Do(s, Expire(d, node)), c) == Do(Without(s, c), Expire(d, node))
  {
    assert forall v :: Own(Without(s, c), d, v) <==> Own(s, d, v);
    var s1 := if node.Some? then RemoveNode(s, node.value) else s;
    if node.Some? {
      WithoutRemoval(s, node.value, c);
    }
    assert Without(Close(s1, d), c).clients == Close(Without(s1, c), d).clients;
  }

  lemma WithoutOthers(s: System, step: Step, c: nat)
    requires Shut(s, c) && Enabled(s, step) && step.c != c
    ensures Enabled(Without(s, c), step) && Without(Do(s, step), c) == Do(Without(s, c), step)
    ensures Polite(s, step) ==> Polite(Without(s, c), step)
  {
    var d := step.c;
    match step
    case Serve(_) => WithoutServe(s, d, c);
    case Expire(_, node) => WithoutExpire(s, d, node, c);
    case _ =>
      assert Without(Do(s, step), c).clients == Do(Without(s, c), step).clients;
  }

  lemma ShutByOthers(s: System, step: Step, c: nat)
    requires Shut(s, c) && Enabled(s, step) && step.c != c
    ensures Shut(Do(s, step), c)
  {
    var s' := Do(s, step);
    OthersAside(s, step, c);
    assert s.owner <= s'.owner && forall v | |s.owner| <= v < |s'.owner| :: s'.owner[v] == step.c;
    forall v ensures !Own(s', c, v) {
      assert !Own(s, c, v);
    }
  }

  lemma ShutExcludes(s: System, c: nat)
    requires Shut(s, c) && MutualExclusion(Without(s, c))
    ensures MutualExclusion(s)
  {
    var t := Without(s, c);
    forall d, v | Holder(s, d, v) ensures Holder(t, d, v) {
      assert !Own(s, c, v);
    }
  }
}
