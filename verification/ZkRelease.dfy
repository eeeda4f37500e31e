/** A holder of the lock has asked for its znode to be deleted. */
module ZkRelease {
  import opened Options
  import opened Trails
  import opened ZkSearch
  import opened ZkProtocol
  import opened ZkSafety
  import opened ZkRuns
  import opened ZkPaths
  import opened ZkOrder
  import opened ZkWaking
  import opened ZkLook
  import opened ZkHope

  ghost predicate Releases(s: System, cl: Client) {
    s.program.LockProgram? && cl.claimed && cl.seqMe in s.live ==> DeleteReq(Some(cl.seqMe)) in cl.outbox
  }

  ghost predicate Releasing(s: System) { forall c | 0 <= c < |s.clients| :: Releases(s, s.clients[c]) }

  lemma OthersRelease(s: System, step: Step, c: nat)
    requires Settled(s) && Releasing(s) && Enabled(s, step) && c < |s.clients| && step.c != c
    ensures c < |Do(s, step).clients| && Releases(Do(s, step), Do(s, step).clients[c])
  {
    OthersAside(s, step, c);
    assert Releases(s, s.clients[c]);
    if s.clients[c].claimed {
      assert OwnStored(s, c, s.clients[c]);
    }
  }

  lemma ServeReleases(s: System, c: nat)
    requires Settled(s) && Releasing(s) && Enabled(s, Serve(c))
    ensures c < |Do(s, Serve(c)).clients| && Releases(Do(s, Serve(c)), Do(s, Serve(c)).clients[c])
  {
    var cl, s' := s.clients[c], Do(s, Serve(c));
    ServePops(s, c);
    ServiceClaimsNothing(s, c);
    assert s'.program == s.program;
    assert Releases(s, cl) && cl.outbox == [cl.outbox[0]] + cl.outbox[1..];
    if cl.claimed {
      assert OwnStored(s, c, cl);
    }
    if cl.outbox[0] == DeleteReq(Some(cl.seqMe)) {
      assert cl.seqMe !in s'.live;
    }
  }

  /** A conclusion asks for the client's own znode to go. */
  lemma ConclusionReleases(s: System, c: nat)
    requires Inv(s) && s.program.LockProgram? && Enabled(s, Deliver(c))
    requires Claims(Reaction(s.program, s.clients[c], s.clients[c].inbox[0]))
    ensures var cl' := Next(s.program, s.clients[c]);
            cl'.seqMe in s.live ==> cl'.outbox == s.clients[c].outbox + [DeleteReq(Some(cl'.seqMe))]
  {
    var cl := s.clients[c];
    var e := cl.inbox[0];
    assert ClientInv(s, c);
    HandleInTwo(s.program, Popped(cl), e);
    ReactionReads(s.program, cl, Popped(cl), e);
    if e.Snapshot? {
      OnlyKnown(s, c, cl);
      assert Covers(s, c, e.S);
    }
  }

  lemma DeliverReleases(s: System, c: nat)
    requires Inv(s) && Settled(s) && Releasing(s) && Enabled(s, Deliver(c))
    ensures c < |Do(s, Deliver(c)).clients| && Releases(Do(s, Deliver(c)), Do(s, Deliver(c)).clients[c])
  {
    var cl, s' := s.clients[c], Do(s, Deliver(c));
    assert s'.clients[c] == Next(s.program, cl);
    assert Releases(s, cl);
    NextKeeps(s.program, cl);
    NextGrows(s.program, cl);
    if cl.claimed {
      assert OwnStored(s, c, cl);
    }
    if s.program.LockProgram? && Claims(Reaction(s.program, cl, cl.inbox[0])) {
      ConclusionReleases(s, c);
    }
  }

  lemma NextGrows(program: Program, cl: Client)
    requires cl.inbox != []
    ensures cl.outbox <= Next(program, cl).outbox
  {
    HandleInTwo(program, Popped(cl), cl.inbox[0]);
  }

  lemma StepReleases(s: System, step: Step)
    requires Inv(s) && Releasing(s) && Enabled(s, step)
    ensures Releasing(Do(s, step))
  {
    var s' := Do(s, step);
    InvSettles(s);
    assert |s'.clients| == |s.clients|;
    forall c | 0 <= c < |s.clients| ensures Releases(s', s'.clients[c]) {
      if step.c != c {
        OthersRelease(s, step, c);
      } else {
        OwnReleases(s, step);
      }
    }
  }

  lemma OwnReleases(s: System, step: Step)
    requires Inv(s) && Settled(s) && Releasing(s) && Enabled(s, step)
    ensures step.c < |Do(s, step).clients| && Releases(Do(s, step), Do(s, step).clients[step.c])
  {
    var c := step.c;
    assert Releases(s, s.clients[c]) && ClientInv(s, c);
    match step
    case Serve(_) => ServeReleases(s, c);
    case Deliver(_) => DeliverReleases(s, c);
    case Expire(_, node) =>
      if s.clients[c].claimed {
        assert OwnStored(s, c, s.clients[c]);
      }
    case _ =>
  }

  // ---- Everything that holds of the states of polite runs

  ghost predicate Sound(s: System) { Inv(s) && Aimed(s) && Recorded(s) && Releasing(s) }

  lemma SoundStep(s: System, step: Step)
    requires Sound(s) && Enabled(s, step) && Polite(s, step)
    ensures Sound(Do(s, step)) && s.grants <= Do(s, step).grants
  {
    StepKeeps(s, step);
    StepAims(s, step);
    StepReleases(s, step);
    InvSettles(s);
    InvSettles(Do(s, step));
    if step.Deliver? {
      DeliverRecords(s, step.c);
    } else {
      OthersClaimNothing(s, step);
      SameClaimsRecord(s, Do(s, step));
    }
  }

  lemma {:induction false} RunSound(states: seq<System>, steps: seq<Step>, i: nat)
    requires PoliteRun(states, steps) && i < |states|
    ensures Sound(states[i])
  {
    if i == 0 {
      RunKeeps(states, steps, 0);
    } else {
      RunSound(states, steps, i - 1);
      SoundStep(states[i - 1], steps[i - 1]);
    }
  }
}
