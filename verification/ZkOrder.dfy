/** When the order of granting is strict. */
module ZkOrder {
  import opened Options
  import opened ZkSearch
  import opened ZkProtocol
  import opened ZkSafety
  import opened ZkRuns

  /**
   The completion of the create request: number 0 concludes in that very step, on the
   record and with its deletion asked for; any other asks for the children, as does every
   number in the election.
   */
  lemma CreationDoes(s: System, c: nat)
    requires Enabled(s, Deliver(c)) && s.clients[c].inbox[0].Created?
    ensures var cl, s', v := s.clients[c], Do(s, Deliver(c)), s.clients[c].inbox[0].v;
            var cl' := s'.clients[c];
            && cl'.stored && cl'.seqMe == v
            && (if s.program.LockProgram? && v == 0 then
                  && cl'.claimed && cl'.outbox == cl.outbox + [DeleteReq(Some(0))]
                  && s'.grants == if 0 in s.live then s.grants + [0] else s.grants
                else
                  cl'.claimed == cl.claimed && cl'.outbox == cl.outbox + [ChildrenReq] && s'.grants == s.grants)
  {
  }

  /** A number is recorded as soon as its live owner has claimed, and only then. */
  ghost predicate Recorded(s: System) {
    && (forall v | v in s.grants :: v < |s.owner| && s.owner[v] < |s.clients| && s.clients[s.owner[v]].claimed)
    && (forall c | 0 <= c < |s.clients| && s.clients[c].claimed && s.clients[c].seqMe in s.live ::
          s.clients[c].seqMe in s.grants)
  }

  /** A client that has claimed, or stored a number, has stored its own, and is not told another. */
  ghost predicate Settled(s: System) {
    forall c | 0 <= c < |s.clients| && (s.clients[c].claimed || s.clients[c].stored) :: OwnStored(s, c, s.clients[c])
  }

  ghost predicate OwnStored(s: System, c: nat, cl: Client) {
    cl.stored && Own(s, c, cl.seqMe) && (cl.inbox != [] ==> !cl.inbox[0].Created?)
  }

  lemma InvSettles(s: System)
    requires Inv(s)
    ensures Settled(s)
  {
    forall c | 0 <= c < |s.clients| && (s.clients[c].claimed || s.clients[c].stored)
      ensures OwnStored(s, c, s.clients[c])
    {
      assert ClientInv(s, c);
    }
  }

  lemma HandleClaims(program: Program, cl: Client, e: Event)
    ensures var cl' := Handle(program, cl, e);
            && cl'.claimed == (cl.claimed || Claims(Reaction(program, cl, e)))
            && (!e.Created? ==> cl'.seqMe == cl.seqMe && cl'.stored == cl.stored)
  {
  }

  lemma DeliverRecords(s: System, c: nat)
    requires Settled(s) && Recorded(s) && Enabled(s, Deliver(c)) && Settled(Do(s, Deliver(c)))
    ensures Recorded(Do(s, Deliver(c)))
    ensures var s' := Do(s, Deliver(c));
            s'.grants != s.grants ==> (s'.clients[c].seqMe in s.grants <==> s.clients[c].claimed)
  {
    var s' := Do(s, Deliver(c));
    var cl, cl', e := s.clients[c], s'.clients[c], s.clients[c].inbox[0];
    HandleClaims(s.program, cl.(inbox := cl.inbox[1..]), e);
    assert Reaction(s.program, cl.(inbox := cl.inbox[1..]), e) == Reaction(s.program, cl, e);
    if cl.claimed {
      assert OwnStored(s, c, cl);
    }
    if cl'.claimed || cl'.stored {
      assert OwnStored(s', c, cl');
    }
  }

  ghost predicate SameClaims(s: System, s': System) {
    && |s'.clients| == |s.clients| && s'.grants == s.grants && s.owner <= s'.owner
    && (forall v | v in s'.live && v < |s.owner| :: v in s.live)
    && (forall c | 0 <= c < |s.clients| ::
          s'.clients[c].claimed == s.clients[c].claimed && s'.clients[c].seqMe == s.clients[c].seqMe)
  }

  /** Every step but a delivery leaves the claims and the record alone. */
  lemma OthersClaimNothing(s: System, step: Step)
    requires Enabled(s, step) && !step.Deliver?
    ensures SameClaims(s, Do(s, step))
  {
    if step.Serve? {
      ServiceClaimsNothing(s, step.c);
    }
  }

  lemma ServiceClaimsNothing(s: System, c: nat)
    requires Enabled(s, Serve(c))
    ensures SameClaims(s, Do(s, Serve(c)))
  {
    var cl := s.clients[c];
    var s1 := s.(clients := s.clients[c := cl.(outbox := cl.outbox[1..])]);
    assert SameClaims(s, s1);
    RequestClaimsNothing(s1, c, cl.outbox[0]);
  }

  lemma RequestClaimsNothing(s: System, c: nat, r: Request)
    requires c < |s.clients|
    ensures SameClaims(s, ServeRequest(s, c, r))
  {
  }

  lemma SameClaimsRecord(s: System, s': System)
    requires Settled(s) && Recorded(s) && SameClaims(s, s')
    ensures Recorded(s')
  {
    forall c | 0 <= c < |s.clients| && s.clients[c].claimed ensures s.clients[c].seqMe < |s.owner| {
      assert OwnStored(s, c, s.clients[c]);
    }
  }

  lemma RunSettles(states: seq<System>, steps: seq<Step>, i: nat)
    requires PoliteRun(states, steps) && i < |states|
    ensures Settled(states[i]) && FifoGrants(states[i])
  {
    RunKeeps(states, steps, i);
    InvSettles(states[i]);
  }

  lemma {:induction false} RunRecords(states: seq<System>, steps: seq<Step>, i: nat)
    requires PoliteRun(states, steps) && i < |states|
    ensures Recorded(states[i])
  {
    if i > 0 {
      RunRecords(states, steps, i - 1);
      RunSettles(states, steps, i - 1);
      RunSettles(states, steps, i);
      if steps[i - 1].Deliver? {
        DeliverRecords(states[i - 1], steps[i - 1].c);
      } else {
        OthersClaimNothing(states[i - 1], steps[i - 1]);
        SameClaimsRecord(states[i - 1], states[i]);
      }
    }
  }

  /**
   A conclusion reached with a live znode has a number greater than all before it
   exactly when the client had not concluded before.
   */
  lemma FirstClaimsAreStrict(states: seq<System>, steps: seq<Step>, i: nat)
    requires PoliteRun(states, steps) && i + 1 < |states| && states[i + 1].grants != states[i].grants
    ensures steps[i].Deliver?
    ensures var v := states[i + 1].clients[steps[i].c].seqMe;
            && states[i + 1].grants == states[i].grants + [v]
            && ((forall u | u in states[i].grants :: u < v) <==> !states[i].clients[steps[i].c].claimed)
  {
    RunRecords(states, steps, i);
    RunSettles(states, steps, i);
    RunSettles(states, steps, i + 1);
    if !steps[i].Deliver? {
      OthersClaimNothing(states[i], steps[i]);
    }
    DeliverRecords(states[i], steps[i].c);
    NewIsLast(states[i + 1].grants, states[i].grants, states[i + 1].clients[steps[i].c].seqMe);
  }

  lemma NewIsLast(all: seq<nat>, before: seq<nat>, v: nat)
    requires all == before + [v] && forall i, j | 0 <= i < j < |all| :: all[i] <= all[j]
    ensures (forall u | u in before :: u < v) <==> v !in before
  {
    forall u | u in before ensures u <= v {
      var k :| 0 <= k < |before| && before[k] == u;
      assert all[k] == u && all[|before|] == v;
    }
  }
}
