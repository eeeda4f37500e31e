/** Exactly when mutual exclusion is safe from session events. */
module ZkExclusion {
  import opened Options
  import opened Trails
  import opened ZkSearch
  import opened ZkProtocol
  import opened ZkSafety
  import opened ZkRuns
  import opened ZkPaths
  import opened ZkHarmless

  /** No polite continuation of `s` ends in a violation. */
  ghost predicate Safe(s: System) { forall tr: Path | Continues(tr, s) :: MutualExclusion(tr.s) }

  // ---- A session event before the create request

  /** A client that `main` has not started, with a session event waiting for it. */
  ghost predicate Startled(s: System, c: nat) {
    && s.program.LockProgram? && c < |s.clients|
    && s.clients[c] == NEW_CLIENT.(inbox := [Session], quit := s.clients[c].quit)
  }

  /** The event makes the client ask for the children before it creates its znode. */
  lemma AsksFirst(tr0: Path, c: nat) returns (tr: Path)
    requires Leads(tr0, true) && Startled(tr0.s, c)
    ensures Leads(tr, true) && Origin(tr) == Origin(tr0)
    ensures tr.s == tr0.s.(clients := tr0.s.clients[
                      c := tr0.s.clients[c].(started := true, inbox := [], outbox := [ChildrenReq, CreateReq])])
  {
    tr := Move(tr0, Deliver(c), true);
    assert tr.s.clients[c] == tr0.s.clients[c].(inbox := [], outbox := [ChildrenReq]);
    tr := Move(tr, Start(c), true);
    assert tr.s.clients[c].outbox == [ChildrenReq, CreateReq];
  }

  /** The snapshot is taken without the client's own znode. */
  lemma ServedFirst(tr0: Path, c: nat) returns (tr: Path)
    requires Leads(tr0, true) && c < |tr0.s.clients| && !tr0.s.clients[c].closed
    requires tr0.s.clients[c].inbox == [] && tr0.s.clients[c].outbox == [ChildrenReq, CreateReq]
    ensures Leads(tr, true) && Origin(tr) == Origin(tr0)
    ensures var v := |tr0.s.owner|;
            tr.s == tr0.s.(owner := tr0.s.owner + [c], live := tr0.s.live + {v}, clients := tr0.s.clients[
                      c := tr0.s.clients[c].(outbox := [], inbox := [Snapshot(tr0.s.live), Created(v)])])
  {
    tr := Move(tr0, Serve(c), true);
    assert tr.s.clients[c] == tr0.s.clients[c].(outbox := [CreateReq], inbox := [Snapshot(tr0.s.live)]);
    tr := Move(tr, Serve(c), true);
    assert tr.s.clients[c].outbox == [] && tr.s.clients[c].inbox == [Snapshot(tr0.s.live), Created(|tr0.s.owner|)];
  }

  /** It is judged by number 0, than which nothing is smaller. */
  lemma JudgedByZero(tr0: Path, c: nat, S: set<nat>, v: nat) returns (tr: Path)
    requires Leads(tr0, true) && c < |tr0.s.clients| && tr0.s.program.LockProgram? && tr0.s.clients[c].seqMe == 0
    requires tr0.s.clients[c].inbox == [Snapshot(S), Created(v)] && tr0.s.clients[c].outbox == []
    ensures Leads(tr, true) && Origin(tr) == Origin(tr0) && tr.s.owner == tr0.s.owner && tr.s.live == tr0.s.live
    ensures |tr.s.clients| == |tr0.s.clients|
    ensures forall d | 0 <= d < |tr.s.clients| && d != c :: tr.s.clients[d] == tr0.s.clients[d]
    ensures tr.s.clients[c].claimed && tr.s.clients[c].outbox == [DeleteReq(if 0 in S then Some(0) else None)]
  {
    VerdictUnique(S, 0, Smallest);
    assert LockAction(S, 0) == AskDelete(if 0 in S then Some(0) else None);
    tr := Move(tr0, Deliver(c), true);
  }

  /**
   Wherever a znode is live, a session event that comes before the create request can
   make its client claim beside the owner of that znode, and ask for znode 0 to go.
   */
  lemma EarlyEventBreaks(tr0: Path, c: nat) returns (tr: Path)
    requires Leads(tr0, true) && Startled(tr0.s, c) && tr0.s.live != {}
    requires forall v | v in tr0.s.live :: v < |tr0.s.owner|
    ensures Leads(tr, true) && Origin(tr) == Origin(tr0) && !MutualExclusion(tr.s)
    ensures Holder(tr.s, c, |tr0.s.owner|) && tr.s.owner == tr0.s.owner + [c]
    ensures tr.s.live == tr0.s.live + {|tr0.s.owner|} && |tr.s.clients| == |tr0.s.clients|
    ensures forall d | 0 <= d < |tr.s.clients| && d != c :: tr.s.clients[d] == tr0.s.clients[d]
    ensures tr.s.clients[c].outbox == [DeleteReq(if 0 in tr0.s.live then Some(0) else None)]
  {
    var u :| u in tr0.s.live;
    tr := AsksFirst(tr0, c);
    tr := ServedFirst(tr, c);
    tr := JudgedByZero(tr, c, tr0.s.live, |tr0.s.owner|);
    assert Holder(tr.s, c, |tr0.s.owner|) && u in tr.s.live;
  }

  // ---- Whom it threatens

  /** Client `c` is open, and there is, or may yet be, a znode of somebody else. */
  ghost predicate Threat(s: System, c: nat)
    requires c < |s.clients|
  {
    !s.clients[c].closed && (s.live != {} || exists d :: 0 <= d < |s.clients| && d != c && MayCreate(s.clients[d]))
  }

  /**
   Open clients that `main` has not started are as new, and those whose create request has
   not been served ask for nothing before it.
   */
  ghost predicate Poised(s: System) {
    && (forall v | v in s.live :: v < |s.owner|)
    && forall d | 0 <= d < |s.clients| && !s.clients[d].closed :: PoisedClient(s.program, s.clients[d])
  }

  ghost predicate PoisedClient(program: Program, cl: Client) {
    && (program.LockProgram? && !cl.started ==> cl == NEW_CLIENT.(quit := cl.quit))
    && (cl.started && CreateReq in cl.outbox ==> cl.outbox[0].CreateReq?)
  }

  lemma InvPoised(s: System)
    requires Inv(s)
    ensures Poised(s)
  {
    forall d | 0 <= d < |s.clients| && !s.clients[d].closed ensures PoisedClient(s.program, s.clients[d]) {
      assert ClientInv(s, d);
    }
  }

  /** Another client creates a znode. */
  lemma RivalCreates(tr0: Path, c: nat, d: nat) returns (tr: Path)
    requires Leads(tr0, true) && c < |tr0.s.clients| && d < |tr0.s.clients| && c != d && Startled(tr0.s, c)
    requires MayCreate(tr0.s.clients[d]) && PoisedClient(LockProgram, tr0.s.clients[d]) && tr0.s.live == {}
    ensures Leads(tr, true) && Origin(tr) == Origin(tr0) && Startled(tr.s, c)
    ensures tr.s.live == {|tr0.s.owner|} && |tr.s.owner| == |tr0.s.owner| + 1
  {
    tr := tr0;
    if !tr0.s.clients[d].started {
      tr := Move(tr0, Start(d), true);
    }
    tr := Move(tr, Serve(d), true);
  }

  /** A threatening event leads to a violation. */
  lemma ThreatBreaks(s: System, step: Step)
    requires Poised(s) && Enabled(s, step) && !Polite(s, step) && Threat(s, step.c)
    ensures !Safe(Do(s, step))
  {
    var c, s' := step.c, Do(s, step);
    assert PoisedClient(s.program, s.clients[c]);
    assert s.clients[c].inbox + [Session] == [Session];
    var tr: Path := Begin(s');
    if s.live == {} {
      var d :| 0 <= d < |s.clients| && d != c && MayCreate(s.clients[d]);
      tr := RivalCreates(tr, c, d);
    }
    tr := EarlyEventBreaks(tr, c);
    assert Continues(tr, s');
  }

  // ---- What harmless events leave

  /** Apart from the closed sessions `cs`, which were sent early events, all is as in a polite run. */
  ghost predicate Cleared(s: System, cs: seq<nat>)
    decreases |cs|
  {
    if cs == [] then Inv(s) else Shut(s, cs[0]) && Cleared(Without(s, cs[0]), cs[1..])
  }

  /** No early event so far has done harm. */
  ghost predicate Unharmed(s: System) { (exists cs :: Cleared(s, cs)) || (exists c :: Lone(s, c)) }

  lemma {:induction false} ClearedExcludes(s: System, cs: seq<nat>)
    requires Cleared(s, cs)
    ensures MutualExclusion(s) && Poised(s)
    decreases |cs|
  {
    if cs == [] {
      InvExcludes(s);
      InvPoised(s);
    } else {
      var t := Without(s, cs[0]);
      ClearedExcludes(t, cs[1..]);
      ShutExcludes(s, cs[0]);
      assert forall d | 0 <= d < |s.clients| && !s.clients[d].closed :: t.clients[d] == s.clients[d];
    }
  }

  /** Clearing one more closed session. */
  lemma UnharmedWith(s: System, c: nat)
    requires Shut(s, c) && Unharmed(Without(s, c))
    ensures Unharmed(s)
  {
    var t := Without(s, c);
    if cs :| Cleared(t, cs) {
      assert ([c] + cs)[1..] == cs;
      assert Cleared(s, [c] + cs);
    } else {
      var d :| Lone(t, d);
      forall e | 0 <= e < |s.clients| && e != d ensures !MayCreate(s.clients[e]) {
        assert !MayCreate(t.clients[e]);
      }
      assert Lone(s, d);
    }
  }

  lemma ThreatWithout(s: System, step: Step, c: nat)
    requires Shut(s, c) && Enabled(s, step) && step.c != c
    ensures Threat(Without(s, c), step.c) <==> Threat(s, step.c)
    ensures Polite(Without(s, c), step) <==> Polite(s, step)
  {
    var t, d := Without(s, c), step.c;
    assert !MayCreate(s.clients[c]) && !MayCreate(t.clients[c]);
    assert forall e | 0 <= e < |s.clients| && e != c :: t.clients[e] == s.clients[e];
  }

  lemma FirstHarmless(s: System, step: Step)
    requires Inv(s) && Enabled(s, step) && !Polite(s, step) && !Threat(s, step.c)
    ensures Unharmed(Do(s, step))
  {
    var c, s' := step.c, Do(s, step);
    assert ClientInv(s, c);
    assert Fresh(s, c, s.clients[c]);
    if s.clients[c].closed {
      ClosedIsShut(s, c);
      assert [c][1..] == [];
      assert Cleared(s', [c]);
    } else {
      assert Lone(s', c);
    }
  }

  lemma ClosedIsShut(s: System, c: nat)
    requires Inv(s) && s.program.LockProgram? && c < |s.clients| && Fresh(s, c, s.clients[c]) && s.clients[c].closed
    ensures var s' := s.(clients := s.clients[c := Push(s.clients[c], Session)]); Shut(s', c) && Inv(Without(s', c))
  {
    var s' := s.(clients := s.clients[c := Push(s.clients[c], Session)]);
    var t := Without(s', c);
    assert t.clients == s.clients[c := t.clients[c]];
    assert forall v :: Own(t, c, v) <==> Own(s, c, v);
    assert forall v :: Own(s', c, v) <==> Own(s, c, v);
    OthersKeep(s, t, c);
    assert Fresh(t, c, t.clients[c]);
    assert ClientInv(s, c);
  }

  lemma {:induction false} ClearedStep(s: System, cs: seq<nat>, step: Step)
    requires Cleared(s, cs) && Enabled(s, step) && (Polite(s, step) || !Threat(s, step.c))
    ensures Unharmed(Do(s, step))
    decreases |cs|
  {
    if cs == [] {
      if Polite(s, step) {
        StepKeeps(s, step);
        assert Cleared(Do(s, step), []);
      } else {
        FirstHarmless(s, step);
      }
    } else if step.c == cs[0] {
      ShutByItself(s, step, cs[0]);
      assert Cleared(Do(s, step), cs);
    } else {
      var c := cs[0];
      ThreatWithout(s, step, c);
      WithoutOthers(s, step, c);
      ShutByOthers(s, step, c);
      ClearedStep(Without(s, c), cs[1..], step);
      UnharmedWith(Do(s, step), c);
    }
  }

  /** A client without rivals is never threatened, nor is anybody else. */
  lemma LoneIsNotThreatened(s: System, c: nat, step: Step)
    requires Lone(s, c) && Enabled(s, step) && !Polite(s, step)
    ensures !Threat(s, step.c)
  {
    assert step.c != c ==> !MayCreate(s.clients[step.c]);
  }

  lemma UnharmedStep(s: System, step: Step)
    requires Unharmed(s) && Enabled(s, step)
    ensures Polite(s, step) || !Threat(s, step.c) ==> Unharmed(Do(s, step))
    ensures !Polite(s, step) && Threat(s, step.c) ==> !Safe(Do(s, step))
  {
    if cs :| Cleared(s, cs) {
      if Polite(s, step) || !Threat(s, step.c) {
        ClearedStep(s, cs, step);
      } else {
        ClearedExcludes(s, cs);
        ThreatBreaks(s, step);
      }
    } else {
      var c :| Lone(s, c);
      LoneStays(s, step, c);
      if !Polite(s, step) {
        LoneIsNotThreatened(s, c, step);
      }
    }
  }

  lemma {:induction false} UnharmedPath(tr: Path)
    requires Leads(tr, true) && Unharmed(Origin(tr))
    ensures Unharmed(tr.s)
  {
    if tr.Then? {
      UnharmedPath(tr.before);
      UnharmedStep(tr.before.s, tr.step);
    }
  }

  lemma UnharmedIsSafe(s: System)
    requires Unharmed(s)
    ensures Safe(s)
  {
    forall tr: Path | Continues(tr, s) ensures MutualExclusion(tr.s) {
      UnharmedPath(tr);
      if cs :| Cleared(tr.s, cs) {
        ClearedExcludes(tr.s, cs);
      } else {
        var c :| Lone(tr.s, c);
        LoneExcludes(tr.s, c);
      }
    }
  }

  // ---- Exactly then

  /**
   As long as no early event has done harm, a step leaves exclusion safe on every polite
   continuation if and only if it is not a session event for an open client of zklock.cc
   that has not been started and has, or may yet have, a rival.
   */
  lemma StepSafeExactly(s: System, step: Step)
    requires Unharmed(s) && Enabled(s, step)
    ensures Safe(Do(s, step)) <==> Polite(s, step) || !Threat(s, step.c)
  {
    UnharmedStep(s, step);
    if Polite(s, step) || !Threat(s, step.c) {
      UnharmedIsSafe(Do(s, step));
    }
  }

  lemma InitUnharmed(s: System)
    requires Init(s)
    ensures Unharmed(s)
  {
    assert PoliteRun([s], []);
    RunKeeps([s], [], 0);
    assert Cleared(s, []);
  }

  /** While no step threatens, or no state is unsafe, no harm is done. */
  lemma {:induction false} RunUnharmed(states: seq<System>, steps: seq<Step>, i: nat)
    requires IsRun(states, steps) && i < |states|
    requires forall j | 0 <= j < i ::
               Polite(states[j], steps[j]) || !Threat(states[j], steps[j].c) || Safe(states[j + 1])
    ensures Unharmed(states[i])
    ensures forall j | 0 <= j < i :: Polite(states[j], steps[j]) || !Threat(states[j], steps[j].c)
  {
    if i == 0 {
      InitUnharmed(states[0]);
    } else {
      RunUnharmed(states, steps, i - 1);
      UnharmedStep(states[i - 1], steps[i - 1]);
    }
  }

  /**
   In every run, none of the states has a polite continuation into a violation of mutual
   exclusion if and only if every session event that reaches a client of zklock.cc before
   its create request finds the client without rivals or its session closed.
   */
  lemma ExclusionExactly(states: seq<System>, steps: seq<Step>)
    requires IsRun(states, steps)
    ensures (forall i | 0 <= i < |states| :: Safe(states[i]))
            <==> (forall i | 0 <= i < |steps| :: Polite(states[i], steps[i]) || !Threat(states[i], steps[i].c))
  {
    if forall i | 0 <= i < |states| :: Safe(states[i]) {
      RunUnharmed(states, steps, |steps|);
    }
    if forall i | 0 <= i < |steps| :: Polite(states[i], steps[i]) || !Threat(states[i], steps[i].c) {
      forall i | 0 <= i < |states| ensures Safe(states[i]) {
        RunUnharmed(states, steps, i);
        UnharmedIsSafe(states[i]);
      }
    }
  }
}
