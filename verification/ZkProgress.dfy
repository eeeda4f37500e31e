/** Without any crash, everybody who waits for the lock can get it, one after the other. */
module ZkProgress {
  import opened Options
  import opened Trails
  import opened ZkSearch
  import opened ZkProtocol
  import opened ZkSafety
  import opened ZkRuns
  import opened ZkPaths
  import opened ZkOrder
  import opened ZkWaking
  import opened ZkLook
  import opened ZkHope
  import opened ZkRelease
  import opened ZkConclude

  /** Nothing happens but requests being served and callbacks being run. */
  ghost predicate Peaceful(tr: Path) {
    match tr
    case Begin(_) => true
    case Then(before, step, _) => (step.Serve? || step.Deliver?) && Peaceful(before)
  }

  /** A peaceful continuation of `s` in which nobody creates a znode. */
  ghost predicate Onward(tr: Path, s: System) {
    && Continues(tr, s) && Peaceful(tr) && Sound(tr.s) && tr.s.program.LockProgram?
    && s.grants <= tr.s.grants && tr.s.owner == s.owner && |tr.s.clients| == |s.clients|
  }

  lemma Go(tr0: Path, s: System, step: Step) returns (tr: Path)
    requires Onward(tr0, s) && Enabled(tr0.s, step) && (step.Serve? || step.Deliver?)
    requires step.Serve? ==> !tr0.s.clients[step.c].outbox[0].CreateReq?
    ensures Onward(tr, s) && tr == Then(tr0, step, Do(tr0.s, step)) && tr0.s.grants <= tr.s.grants
  {
    SoundStep(tr0.s, step);
    tr := Move(tr0, step, true);
    SameOwners(tr0.s, step);
  }

  lemma SameOwners(s: System, step: Step)
    requires Enabled(s, step) && (step.Serve? || step.Deliver?)
    requires step.Serve? ==> !s.clients[step.c].outbox[0].CreateReq?
    ensures var s' := Do(s, step); s'.owner == s.owner && |s'.clients| == |s.clients| && s'.program == s.program
  {
  }

  /** The owner of a live znode: known, or about to be told. */
  lemma LiveOwner(s: System, c: nat, m: nat)
    requires Sound(s) && m in s.live && Own(s, c, m)
    ensures c < |s.clients| && !s.clients[c].closed && NoCreate(s.clients[c])
    ensures s.clients[c].stored ==> s.clients[c].seqMe == m
    ensures !s.clients[c].stored ==> s.clients[c].inbox != []
    ensures s.clients[c].claimed ==> s.clients[c].stored
  {
    assert s.owner[m] == c;
    assert ClientInv(s, c);
  }

  // ---- How much a client still has before it

  function EventWeight(e: Event): nat {
    match e
    case Snapshot(_) => 3
    case ExistsDone => 1
    case DeleteDone => 1
    case _ => 5
  }

  function RequestWeight(r: Request): nat {
    match r
    case ChildrenReq => 4
    case CreateReq => 6
    case _ => 2
  }

  function InboxWeight(inbox: seq<Event>): nat {
    if inbox == [] then 0 else EventWeight(inbox[0]) + InboxWeight(inbox[1..])
  }

  function OutboxWeight(outbox: seq<Request>): nat {
    if outbox == [] then 0 else RequestWeight(outbox[0]) + OutboxWeight(outbox[1..])
  }

  function Weight(cl: Client): nat { InboxWeight(cl.inbox) + OutboxWeight(cl.outbox) }

  lemma {:induction false} InboxGrows(inbox: seq<Event>, e: Event)
    ensures InboxWeight(inbox + [e]) == InboxWeight(inbox) + EventWeight(e)
  {
    if inbox != [] {
      InboxGrows(inbox[1..], e);
      assert (inbox + [e])[1..] == inbox[1..] + [e];
    }
  }

  lemma {:induction false} OutboxGrows(outbox: seq<Request>, r: Request)
    ensures OutboxWeight(outbox + [r]) == OutboxWeight(outbox) + RequestWeight(r)
  {
    if outbox != [] {
      OutboxGrows(outbox[1..], r);
      assert (outbox + [r])[1..] == outbox[1..] + [r];
    }
  }

  lemma ReactionIsLighter(cl: Client, e: Event)
    ensures var a := Reaction(LockProgram, cl, e);
            && a != Lead && (a == AskChildren ==> EventWeight(e) == 5)
            && (a.AskExists? || a.AskDelete? ==> EventWeight(e) >= 3)
  {
  }

  lemma ActIsLighter(cl: Client, a: Action)
    requires a != Lead
    ensures OutboxWeight(Act(cl, a).outbox)
            == OutboxWeight(cl.outbox) + match a case Nothing => 0 case AskChildren => 4 case _ => 2
  {
    match a
    case Nothing =>
    case AskChildren => OutboxGrows(cl.outbox, ChildrenReq);
    case AskExists(p) => OutboxGrows(cl.outbox, ExistsReq(p));
    case AskDelete(t) => OutboxGrows(cl.outbox, DeleteReq(t));
  }

  lemma NextIsLighter(cl: Client)
    requires cl.inbox != []
    ensures Weight(Next(LockProgram, cl)) < Weight(cl)
  {
    var e := cl.inbox[0];
    var a := Reaction(LockProgram, cl, e);
    NextKeeps(LockProgram, cl);
    HandleInTwo(LockProgram, Popped(cl), e);
    ReactionReads(LockProgram, cl, Popped(cl), e);
    ReactionIsLighter(cl, e);
    ActIsLighter(Noted(Popped(cl), e), a);
  }

  // ---- A client goes through what is before it

  /** The client has concluded, or can still. */
  ghost predicate Content(s: System, c: nat) { c < |s.clients| && (s.clients[c].claimed || Hopeful(s, c)) }

  /** The client has concluded, or has nothing before it and watches a live znode. */
  ghost predicate Rested(s: System, c: nat) {
    && c < |s.clients|
    && var cl := s.clients[c];
    cl.claimed || (cl.inbox == [] && cl.outbox == [] && cl.watch.Some? && cl.watch.value in s.live)
  }

  /** Only `c` has moved, and no znode has gone. */
  ghost predicate Aloof(s: System, s': System, c: nat) {
    && |s'.clients| == |s.clients| && s'.live == s.live && s.grants <= s'.grants
    && (forall d | 0 <= d < |s.clients| && d != c :: s'.clients[d] == s.clients[d])
  }

  lemma DeliverNext(tr0: Path, s: System, c: nat) returns (tr: Path)
    requires Onward(tr0, s) && Content(tr0.s, c) && !tr0.s.clients[c].claimed && tr0.s.clients[c].inbox != []
    ensures Onward(tr, s) && Aloof(tr0.s, tr.s, c) && Content(tr.s, c)
    ensures Weight(tr.s.clients[c]) < Weight(tr0.s.clients[c])
  {
    var cl := tr0.s.clients[c];
    NextKeeps(LockProgram, cl);
    NextGrows(LockProgram, cl);
    NextIsLighter(cl);
    tr := Go(tr0, s, Deliver(c));
    assert tr.s.clients[c] == Next(LockProgram, cl);
    if Reaction(LockProgram, cl, cl.inbox[0]) == AskChildren {
      assert tr.s.clients[c].outbox[|cl.outbox|] == ChildrenReq;
    }
  }

  /** A snapshot of the znodes as they are gives hope. */
  lemma FreshSnapshotGivesHope(live: set<nat>, cl: Client)
    requires cl.inbox == [Snapshot(live)]
    ensures Hope(LockProgram, live, cl)
  {
    NextKeeps(LockProgram, cl);
    assert Next(LockProgram, cl).inbox == [];
  }

  lemma ReplyKeepsHope(live: set<nat>, cl: Client)
    requires cl.inbox == [ExistsDone] && cl.watch.Some? && cl.watch.value in live
    ensures Hope(LockProgram, live, cl)
  {
    NextKeeps(LockProgram, cl);
    assert Next(LockProgram, cl).inbox == [];
  }

  lemma ServedAloof(s: System, c: nat)
    requires Enabled(s, Serve(c)) && (s.clients[c].outbox[0].ChildrenReq? || s.clients[c].outbox[0].ExistsReq?)
    ensures var cl, s' := s.clients[c], Do(s, Serve(c));
            && Aloof(s, s', c)
            && s'.clients[c] == cl.(outbox := cl.outbox[1..], inbox := cl.inbox
                 + [if cl.outbox[0].ChildrenReq? then Snapshot(s.live) else ExistsDone])
  {
  }

  lemma ServedIsLighter(cl: Client, cl': Client, e: Event)
    requires cl.outbox != [] && EventWeight(e) < RequestWeight(cl.outbox[0])
    requires cl'.outbox == cl.outbox[1..] && cl'.inbox == cl.inbox + [e]
    ensures Weight(cl') < Weight(cl)
  {
    InboxGrows(cl.inbox, e);
  }

  lemma ServeNext(tr0: Path, s: System, c: nat, m: nat) returns (tr: Path)
    requires Onward(tr0, s) && Content(tr0.s, c) && m in tr0.s.live && Own(tr0.s, c, m)
    requires !tr0.s.clients[c].claimed && tr0.s.clients[c].inbox == [] && tr0.s.clients[c].outbox != []
    ensures Onward(tr, s) && Aloof(tr0.s, tr.s, c) && Content(tr.s, c)
    ensures Weight(tr.s.clients[c]) < Weight(tr0.s.clients[c])
  {
    var cl := tr0.s.clients[c];
    LiveOwner(tr0.s, c, m);
    assert Aims(tr0.s, c, cl);
    assert cl.outbox[0].ChildrenReq? || cl.outbox[0].ExistsReq?;
    ServedAloof(tr0.s, c);
    tr := Go(tr0, s, Serve(c));
    var cl' := tr.s.clients[c];
    assert cl.outbox == [cl.outbox[0]] + cl.outbox[1..];
    ServedIsLighter(cl, cl', if cl.outbox[0].ChildrenReq? then Snapshot(tr0.s.live) else ExistsDone);
    if cl.outbox[0].ChildrenReq? {
      assert cl'.inbox == [Snapshot(tr.s.live)];
      FreshSnapshotGivesHope(tr.s.live, cl');
    } else {
      assert cl'.inbox == [ExistsDone];
      if ChildrenReq !in cl'.outbox {
        ReplyKeepsHope(tr.s.live, cl');
      }
    }
  }

  lemma {:induction false} Rest(tr0: Path, s: System, c: nat, m: nat) returns (tr: Path)
    requires Onward(tr0, s) && Content(tr0.s, c) && m in tr0.s.live && Own(tr0.s, c, m)
    ensures Onward(tr, s) && Aloof(tr0.s, tr.s, c) && Rested(tr.s, c)
    decreases Weight(tr0.s.clients[c])
  {
    tr := tr0;
    if !tr0.s.clients[c].claimed {
      if tr0.s.clients[c].inbox != [] {
        tr := DeliverNext(tr0, s, c);
        tr := Rest(tr, s, c, m);
      } else if tr0.s.clients[c].outbox != [] {
        tr := ServeNext(tr0, s, c, m);
        tr := Rest(tr, s, c, m);
      }
    }
  }

  // ---- Everybody does

  lemma AloofContent(s: System, s': System, c: nat, d: nat)
    requires Aloof(s, s', c) && d != c && s'.program == s.program
    ensures Content(s, d) ==> Content(s', d)
    ensures Rested(s, d) ==> Rested(s', d)
  {
  }

  /** From client `k` on, all go through what is before them. */
  lemma {:induction false} RestAll(tr0: Path, s: System, k: nat) returns (tr: Path)
    requires Onward(tr0, s) && s.program.LockProgram? && k <= |s.clients|
    requires forall v | v in tr0.s.live && v < |s.owner| ::
               if s.owner[v] < k then Rested(tr0.s, s.owner[v]) else Content(tr0.s, s.owner[v])
    ensures Onward(tr, s) && tr.s.live == tr0.s.live && tr0.s.grants <= tr.s.grants
    ensures forall v | v in tr.s.live && v < |s.owner| :: Rested(tr.s, s.owner[v])
    decreases |s.clients| - k
  {
    tr := tr0;
    if k < |s.clients| {
      if m :| m in tr0.s.live && Own(s, k, m) {
        tr := Rest(tr0, s, k, m);
        forall v | v in tr.s.live && v < |s.owner|
          ensures if s.owner[v] < k + 1 then Rested(tr.s, s.owner[v]) else Content(tr.s, s.owner[v])
        {
          if s.owner[v] != k {
            AloofContent(tr0.s, tr.s, k, s.owner[v]);
          }
        }
      }
      tr := RestAll(tr, s, k + 1);
    } else {
      forall v | v in tr.s.live && v < |s.owner| ensures Rested(tr.s, s.owner[v]) {
        LiveOwner(tr.s, s.owner[v], v);
      }
    }
  }

  lemma {:induction false} Least(S: set<nat>) returns (m: nat)
    requires S != {}
    ensures m in S && forall v | v in S :: m <= v
  {
    var x :| x in S;
    m := x;
    if S != {x} {
      assert S == (S - {x}) + {x};
      var y := Least(S - {x});
      m := if y < x then y else x;
    }
  }

  /** When everybody rests, the owner of the smallest znode has concluded. */
  lemma LeastHasConcluded(s: System, c: nat, m: nat)
    requires Sound(s) && m in s.live && Own(s, c, m) && (forall v | v in s.live :: m <= v) && Rested(s, c)
    ensures s.clients[c].claimed
  {
    LiveOwner(s, c, m);
    assert ClientInv(s, c);
    assert s.clients[c].watch.Some? ==> Near(s, c, s.clients[c].watch.value);
  }

  // ---- The holder releases the lock

  /** The requests before the deletion are served. */
  lemma {:induction false} UpToRelease(tr0: Path, s: System, c: nat, m: nat, k: nat) returns (tr: Path)
    requires Onward(tr0, s) && m in tr0.s.live && Own(tr0.s, c, m) && c < |tr0.s.clients|
    requires k < |tr0.s.clients[c].outbox| && tr0.s.clients[c].outbox[k] == DeleteReq(Some(m))
    ensures Onward(tr, s) && Aloof(tr0.s, tr.s, c) && tr.s.clients[c].claimed == tr0.s.clients[c].claimed
    ensures tr.s.clients[c].outbox != [] && tr.s.clients[c].outbox[0] == DeleteReq(Some(m))
    decreases k
  {
    var cl := tr0.s.clients[c];
    tr := tr0;
    if cl.outbox[0] != DeleteReq(Some(m)) {
      LiveOwner(tr0.s, c, m);
      HeadIsPlain(tr0.s, c, m);
      PlainAloof(tr0.s, c);
      tr := Go(tr0, s, Serve(c));
      tr := UpToRelease(tr, s, c, m, k - 1);
    }
  }

  lemma HeadIsPlain(s: System, c: nat, m: nat)
    requires Sound(s) && m in s.live && Own(s, c, m) && c < |s.clients| && s.clients[c].outbox != []
    requires s.clients[c].outbox[0] != DeleteReq(Some(m))
    ensures var r := s.clients[c].outbox[0]; r.ChildrenReq? || r.ExistsReq? || r == DeleteReq(None)
  {
    var r := s.clients[c].outbox[0];
    LiveOwner(s, c, m);
    assert ClientInv(s, c);
    assert r.DeleteReq? && r.target.Some? ==> Own(s, c, r.target.value);
  }

  lemma PlainAloof(s: System, c: nat)
    requires Enabled(s, Serve(c))
    requires var r := s.clients[c].outbox[0]; r.ChildrenReq? || r.ExistsReq? || r == DeleteReq(None)
    ensures var s' := Do(s, Serve(c));
            && Aloof(s, s', c) && s'.clients[c].outbox == s.clients[c].outbox[1..]
            && s'.clients[c].claimed == s.clients[c].claimed
  {
  }

  /** The znode goes, and those who watch it are told. */
  lemma ReleaseDoes(s: System, c: nat, m: nat)
    requires Enabled(s, Serve(c)) && s.clients[c].outbox[0] == DeleteReq(Some(m)) && m in s.live
    ensures var s' := Do(s, Serve(c));
            && s'.live == s.live - {m} && |s'.clients| == |s.clients|
            && forall d | 0 <= d < |s.clients| && d != c ::
                 s'.clients[d] == Notify(s.clients[d], (d, m) in s.watches, m)
  {
  }

  /** Whoever rested is content after it. */
  lemma ReleaseContents(s: System, s': System, d: nat, m: nat)
    requires Sound(s) && Rested(s, d) && d < |s'.clients| && !s.clients[d].closed
    requires s'.program == s.program && s.program.LockProgram? && s'.live == s.live - {m}
    requires s'.clients[d] == Notify(s.clients[d], (d, m) in s.watches, m)
    ensures Content(s', d)
  {
    var cl, cl' := s.clients[d], s'.clients[d];
    if !cl.claimed {
      assert Aims(s, d, cl);
      if (d, m) in s.watches {
        NoticeKeepsHope(s'.live, cl', m);
      }
    }
  }

  lemma NoticeKeepsHope(live: set<nat>, cl: Client, m: nat)
    requires cl.inbox == [NodeGone(m)] && cl.watch.Some? && (cl.watch.value in live || cl.watch.value == m)
    ensures Hope(LockProgram, live, cl)
  {
    NextKeeps(LockProgram, cl);
    var cl' := Next(LockProgram, cl);
    assert cl'.inbox == [];
    assert cl.watch.value != m ==> Hope(LockProgram, live, cl');
  }

  /** So for every other live znode. */
  lemma OthersContent(s0: System, s1: System, s2: System, c: nat, m: nat, v: nat)
    requires Sound(s1) && s1.program.LockProgram? && Aloof(s0, s1, c) && s0.program == s1.program == s2.program
    requires m in s1.live && Own(s1, c, m) && v in s1.live && v != m && v < |s1.owner| && Rested(s0, s1.owner[v])
    requires s2.live == s1.live - {m} && |s2.clients| == |s1.clients|
    requires forall d | 0 <= d < |s1.clients| && d != c ::
               s2.clients[d] == Notify(s1.clients[d], (d, m) in s1.watches, m)
    ensures Content(s2, s1.owner[v])
  {
    var d := s1.owner[v];
    LiveOwner(s1, d, v);
    OnlyOne(s1, c, m, v);
    AloofContent(s0, s1, c, d);
    ReleaseContents(s1, s2, d, m);
  }

  lemma HolderReleases(s: System, c: nat, m: nat)
    requires Sound(s) && s.program.LockProgram? && m in s.live && Own(s, c, m)
    requires c < |s.clients| && s.clients[c].claimed
    ensures DeleteReq(Some(m)) in s.clients[c].outbox && m in s.grants
  {
    LiveOwner(s, c, m);
    assert Releases(s, s.clients[c]);
  }

  lemma ReleaseOne(tr0: Path, s: System, c: nat, m: nat) returns (tr: Path)
    requires Onward(tr0, s) && m in tr0.s.live && Own(tr0.s, c, m) && c < |tr0.s.clients| && tr0.s.clients[c].claimed
    requires forall v | v in tr0.s.live && v < |s.owner| :: Rested(tr0.s, s.owner[v])
    ensures Onward(tr, s) && tr.s.live == tr0.s.live - {m} && m in tr.s.grants && tr0.s.grants <= tr.s.grants
    ensures forall v | v in tr.s.live && v < |s.owner| :: Content(tr.s, s.owner[v])
  {
    HolderReleases(tr0.s, c, m);
    var k :| 0 <= k < |tr0.s.clients[c].outbox| && tr0.s.clients[c].outbox[k] == DeleteReq(Some(m));
    var tr1 := UpToRelease(tr0, s, c, m, k);
    LiveOwner(tr1.s, c, m);
    ReleaseDoes(tr1.s, c, m);
    tr := Go(tr1, s, Serve(c));
    forall v | v in tr.s.live && v < |s.owner| ensures Content(tr.s, s.owner[v]) {
      OthersContent(tr0.s, tr1.s, tr.s, c, m, v);
    }
  }

  lemma OnlyOne(s: System, c: nat, m: nat, v: nat)
    requires Sound(s) && m in s.live && Own(s, c, m) && v in s.live && v != m
    ensures !Own(s, c, v)
  {
    LiveOwner(s, c, m);
    assert ClientInv(s, c);
  }

  // ---- One after the other

  lemma OneConcludes(tr0: Path, s: System) returns (tr: Path, m: nat)
    requires Onward(tr0, s) && s.program.LockProgram? && tr0.s.live != {}
    requires forall v | v in tr0.s.live && v < |s.owner| :: Content(tr0.s, s.owner[v])
    ensures Onward(tr, s) && m in tr0.s.live && tr.s.live == tr0.s.live - {m}
    ensures m in tr.s.grants && tr0.s.grants <= tr.s.grants
    ensures forall v | v in tr.s.live && v < |s.owner| :: Content(tr.s, s.owner[v])
  {
    var tr1 := RestAll(tr0, s, 0);
    m := Least(tr1.s.live);
    assert m < |tr1.s.owner|;
    var c := tr1.s.owner[m];
    LiveOwner(tr1.s, c, m);
    LeastHasConcluded(tr1.s, c, m);
    tr := ReleaseOne(tr1, s, c, m);
  }

  lemma {:induction false} AllConclude(tr0: Path, s: System) returns (tr: Path)
    requires Onward(tr0, s) && s.program.LockProgram?
    requires forall v | v in tr0.s.live && v < |s.owner| :: Content(tr0.s, s.owner[v])
    ensures Onward(tr, s) && tr.s.live == {} && tr0.s.grants <= tr.s.grants
    ensures forall v | v in tr0.s.live :: v in tr.s.grants
    decreases |tr0.s.live|
  {
    tr := tr0;
    if tr0.s.live != {} {
      var tr1, m := OneConcludes(tr0, s);
      tr := AllConclude(tr1, s);
      Both(tr0.s.live, m, tr1.s.grants, tr.s.grants);
    }
  }

  lemma Both(live: set<nat>, m: nat, before: seq<nat>, after: seq<nat>)
    requires m in before && before <= after && forall v | v in live - {m} :: v in after
    ensures forall v | v in live :: v in after
  {
    forall v | v in live ensures v in after {
      assert v in live - {m} || v == m;
    }
  }

  // ---- Exactly then

  /** Some peaceful continuation of `s` ends with the record of everybody's conclusion and all znodes gone. */
  ghost predicate AllCanConclude(s: System) {
    exists tr: Path ::
      && Continues(tr, s) && Peaceful(tr) && tr.s.live == {} && FifoGrants(tr.s)
      && forall v | v in s.live :: v in tr.s.grants
  }

  /** A client that is yet to be told its number has hope. */
  lemma ToldIsContent(s: System, c: nat)
    requires Inv(s) && s.program.LockProgram? && c < |s.clients| && !s.clients[c].stored && !NoZnode(s, c)
    ensures Content(s, c)
  {
    var cl := s.clients[c];
    assert ClientInv(s, c);
    var k: nat :| Told(s, c, cl, k);
    assert cl.inbox[0].Session? || cl.inbox[0].Created?;
    NextKeeps(LockProgram, cl);
  }

  lemma DiscontentIsHopeless(s: System, c: nat, m: nat)
    requires Sound(s) && s.program.LockProgram? && m in s.live && Own(s, c, m) && !Content(s, c)
    ensures Hopeless(s, c)
  {
    LiveOwner(s, c, m);
    if !s.clients[c].stored {
      ToldIsContent(s, c);
    } else {
      WithoutHope(s, c);
    }
  }

  /**
   In every state of every run of zklock.cc: everybody with a live znode can conclude,
   one after the other in the order of their numbers, by requests being served and
   callbacks being run alone, if and only if each has concluded already or has hope.
   */
  lemma ProgressExactly(states: seq<System>, steps: seq<Step>, i: nat)
    requires PoliteRun(states, steps) && i < |states| && states[i].program.LockProgram?
    ensures var s := states[i];
            AllCanConclude(s) <==> forall v | v in s.live && v < |s.owner| :: Content(s, s.owner[v])
  {
    var s := states[i];
    RunSound(states, steps, i);
    if forall v | v in s.live && v < |s.owner| :: Content(s, s.owner[v]) {
      var tr := AllConclude(Begin(s), s);
      assert Continues(tr, s) && Peaceful(tr);
    } else {
      var v :| v in s.live && v < |s.owner| && !Content(s, s.owner[v]);
      DiscontentIsHopeless(s, s.owner[v], v);
      forall tr: Path | Continues(tr, s) && v in tr.s.grants ensures false {
        HopelessForever(tr, true, s.owner[v]);
        PathSound(tr);
        PathOwners(tr);
      }
    }
  }

  lemma {:induction false} PathSound(tr: Path)
    requires Leads(tr, true) && Sound(Origin(tr))
    ensures Sound(tr.s)
  {
    if tr.Then? {
      PathSound(tr.before);
      SoundStep(tr.before.s, tr.step);
    }
  }

  lemma {:induction false} PathOwners(tr: Path)
    requires Leads(tr, true)
    ensures Origin(tr).owner <= tr.s.owner
  {
    if tr.Then? {
      PathOwners(tr.before);
      OwnersGrow(tr.before.s, tr.step);
    }
  }

  lemma OwnersGrow(s: System, step: Step)
    requires Enabled(s, step)
    ensures s.owner <= Do(s, step).owner
  {
  }
}
