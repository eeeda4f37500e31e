/** A waiter that something is under way for can be brought to look at the children again. */
module ZkLook {
  import opened Options
  import opened Trails
  import opened ZkSearch
  import opened ZkProtocol
  import opened ZkSafety
  import opened ZkRuns
  import opened ZkPaths
  import opened ZkWaking

  /** The last step of the path handed client `c` a snapshot. */
  ghost predicate Looks(tr: Path, c: nat) {
    && tr.Then? && tr.step == Deliver(c)
    && c < |tr.before.s.clients| && HasSnapshotFirst(tr.before.s.clients[c])
  }

  ghost predicate HasSnapshotFirst(cl: Client) { cl.inbox != [] && cl.inbox[0].Snapshot? }

  /** Some polite continuation of `s` ends with client `c` looking at the children. */
  ghost predicate CanLook(s: System, c: nat) { exists tr: Path :: Continues(tr, s) && Looks(tr, c) }

  // ---- One step at a time

  lemma DeliverPops(s: System, c: nat)
    requires Enabled(s, Deliver(c))
    ensures var cl, s' := s.clients[c], Do(s, Deliver(c));
            && |s'.clients| == |s.clients| && s'.live == s.live
            && s'.clients[c].inbox == cl.inbox[1..] && s'.clients[c].closed == cl.closed
            && (!cl.inbox[0].Snapshot? ==> s'.clients[c].watch == cl.watch)
            && (cl.watch.Some? && cl.inbox[0] == NodeGone(cl.watch.value)
                ==> s'.clients[c].outbox == cl.outbox + [ChildrenReq])
  {
  }

  lemma ServePops(s: System, c: nat)
    requires Enabled(s, Serve(c))
    ensures var cl, s' := s.clients[c], Do(s, Serve(c));
            && |s'.clients| == |s.clients| && s.owner <= s'.owner && s'.program == s.program
            && s'.clients[c].outbox == cl.outbox[1..] && s'.clients[c].closed == cl.closed
            && s'.clients[c].watch == cl.watch
            && (forall p | p in s.live && cl.outbox[0] != DeleteReq(Some(p)) :: p in s'.live)
            && (cl.outbox[0].ChildrenReq? ==> s'.clients[c].inbox == cl.inbox + [Snapshot(s.live)])
            && (forall p | cl.outbox[0] == ExistsReq(p) && p in s.live :: (c, p) in s'.watches)
  {
  }

  // ---- From what is under way to a look

  lemma {:induction false} LookAt(tr0: Path, c: nat, k: nat) returns (tr: Path)
    requires Leads(tr0, true) && c < |tr0.s.clients|
    requires k < |tr0.s.clients[c].inbox| && tr0.s.clients[c].inbox[k].Snapshot?
    ensures Leads(tr, true) && Origin(tr) == Origin(tr0) && Looks(tr, c)
    decreases k
  {
    DeliverPops(tr0.s, c);
    tr := Move(tr0, Deliver(c), true);
    if !tr0.s.clients[c].inbox[0].Snapshot? {
      tr := LookAt(tr, c, k - 1);
    }
  }

  /** The server takes the requests before the `k`-th; `p` stays if none of them deletes it. */
  lemma {:induction false} ServeUpTo(tr0: Path, c: nat, k: nat, p: nat) returns (tr: Path)
    requires Leads(tr0, true) && c < |tr0.s.clients| && !tr0.s.clients[c].closed && k < |tr0.s.clients[c].outbox|
    ensures Leads(tr, true) && Origin(tr) == Origin(tr0)
    ensures |tr.s.clients| == |tr0.s.clients| && tr0.s.owner <= tr.s.owner
    ensures var cl, cl' := tr0.s.clients[c], tr.s.clients[c];
            && cl'.outbox == cl.outbox[k..] && !cl'.closed && cl'.watch == cl.watch
            && (p in tr0.s.live && DeleteReq(Some(p)) !in cl.outbox ==> p in tr.s.live)
    decreases k
  {
    tr := tr0;
    if k > 0 {
      ServePops(tr0.s, c);
      tr := Move(tr0, Serve(c), true);
      tr := ServeUpTo(tr, c, k - 1, p);
    }
  }

  lemma LookByRequest(tr0: Path, c: nat) returns (tr: Path)
    requires Leads(tr0, true) && c < |tr0.s.clients| && !tr0.s.clients[c].closed
    requires ChildrenReq in tr0.s.clients[c].outbox
    ensures Leads(tr, true) && Origin(tr) == Origin(tr0) && Looks(tr, c)
  {
    var k :| 0 <= k < |tr0.s.clients[c].outbox| && tr0.s.clients[c].outbox[k] == ChildrenReq;
    tr := ServeUpTo(tr0, c, k, 0);
    ServePops(tr.s, c);
    var n := |tr.s.clients[c].inbox|;
    tr := Move(tr, Serve(c), true);
    tr := LookAt(tr, c, n);
  }

  lemma {:induction false} LookByNotice(tr0: Path, c: nat, k: nat) returns (tr: Path)
    requires Leads(tr0, true) && c < |tr0.s.clients| && !tr0.s.clients[c].closed && tr0.s.clients[c].watch.Some?
    requires k < |tr0.s.clients[c].inbox| && tr0.s.clients[c].inbox[k] == NodeGone(tr0.s.clients[c].watch.value)
    ensures Leads(tr, true) && Origin(tr) == Origin(tr0) && Looks(tr, c)
    decreases k
  {
    DeliverPops(tr0.s, c);
    tr := Move(tr0, Deliver(c), true);
    if !tr0.s.clients[c].inbox[0].Snapshot? {
      if k == 0 {
        assert tr.s.clients[c].outbox[|tr0.s.clients[c].outbox|] == ChildrenReq;
        tr := LookByRequest(tr, c);
      } else {
        tr := LookByNotice(tr, c, k - 1);
      }
    }
  }

  lemma ExpiryNotifies(s: System, d: nat, p: nat, c: nat)
    requires c < |s.clients| && (c, p) in s.watches && d != c && Enabled(s, Expire(d, Some(p)))
    ensures var s' := Do(s, Expire(d, Some(p)));
            && |s'.clients| == |s.clients|
            && s'.clients[c] == s.clients[c].(inbox := s.clients[c].inbox + [NodeGone(p)])
  {
  }

  /** Another session ends, and its znode with it. */
  lemma LookByExpiry(tr0: Path, c: nat, d: nat) returns (tr: Path)
    requires Leads(tr0, true) && c < |tr0.s.clients| && !tr0.s.clients[c].closed && tr0.s.clients[c].watch.Some?
    requires var p := tr0.s.clients[c].watch.value;
             (c, p) in tr0.s.watches && p in tr0.s.live && d < |tr0.s.clients| && d != c && Own(tr0.s, d, p)
    ensures Leads(tr, true) && Origin(tr) == Origin(tr0) && Looks(tr, c)
  {
    var p, n := tr0.s.clients[c].watch.value, |tr0.s.clients[c].inbox|;
    ExpiryNotifies(tr0.s, d, p, c);
    tr := Move(tr0, Expire(d, Some(p)), true);
    tr := LookByNotice(tr, c, n);
  }

  lemma LookByExists(tr0: Path, c: nat, d: nat) returns (tr: Path)
    requires Leads(tr0, true) && c < |tr0.s.clients| && !tr0.s.clients[c].closed && tr0.s.clients[c].watch.Some?
    requires var p := tr0.s.clients[c].watch.value;
             && ExistsReq(p) in tr0.s.clients[c].outbox && DeleteReq(Some(p)) !in tr0.s.clients[c].outbox
             && p in tr0.s.live && d < |tr0.s.clients| && d != c && Own(tr0.s, d, p)
    ensures Leads(tr, true) && Origin(tr) == Origin(tr0) && Looks(tr, c)
  {
    var p := tr0.s.clients[c].watch.value;
    var k :| 0 <= k < |tr0.s.clients[c].outbox| && tr0.s.clients[c].outbox[k] == ExistsReq(p);
    tr := ServeUpTo(tr0, c, k, p);
    ServePops(tr.s, c);
    tr := Move(tr, Serve(c), true);
    tr := LookByExpiry(tr, c, d);
  }

  // ---- The two halves

  /** A waiter is open, and what it watches belongs to another client. */
  lemma WatchesAnother(s: System, c: nat)
    requires Inv(s) && Waiting(s, c)
    ensures var cl := s.clients[c];
            && !cl.closed
            && (cl.watch.Some? ==> !Own(s, c, cl.watch.value) && DeleteReq(Some(cl.watch.value)) !in cl.outbox
                                   && cl.watch.value < |s.owner|)
            && (cl.watch.Some? && cl.watch.value in s.live ==> s.owner[cl.watch.value] < |s.clients|)
  {
    assert ClientInv(s, c);
    assert Known(s, c, s.clients[c]);
  }

  lemma WakeableLooks(s: System, c: nat)
    requires Inv(s) && Waiting(s, c) && Wakeable(s, c)
    ensures CanLook(s, c)
  {
    var cl, tr0: Path := s.clients[c], Begin(s);
    var tr: Path;
    WatchesAnother(s, c);
    if ChildrenReq in cl.outbox {
      tr := LookByRequest(tr0, c);
    } else if HasSnapshot(cl) {
      var k :| 0 <= k < |cl.inbox| && cl.inbox[k].Snapshot?;
      tr := LookAt(tr0, c, k);
    } else if NodeGone(cl.watch.value) in cl.inbox {
      var k :| 0 <= k < |cl.inbox| && cl.inbox[k] == NodeGone(cl.watch.value);
      tr := LookByNotice(tr0, c, k);
    } else if (c, cl.watch.value) in s.watches {
      tr := LookByExpiry(tr0, c, s.owner[cl.watch.value]);
    } else {
      tr := LookByExists(tr0, c, s.owner[cl.watch.value]);
    }
    assert Continues(tr, s);
  }

  lemma NotWakeableIsStranded(s: System, c: nat)
    requires Inv(s) && Aimed(s) && Waiting(s, c) && !Wakeable(s, c)
    ensures Stranded(s, c)
  {
    WatchesAnother(s, c);
    assert ClientInv(s, c);
    assert Known(s, c, s.clients[c]);
    assert Aims(s, c, s.clients[c]);
  }

  lemma StrandedNeverLooks(s: System, c: nat)
    requires Stranded(s, c)
    ensures !CanLook(s, c)
  {
    forall tr: Path | Continues(tr, s) ensures !Looks(tr, c) {
      if tr.Then? {
        StrandedForever(tr.before, true, c);
      }
    }
  }

  /**
   In every state of every run, a waiter can be brought to look at the children again if
   and only if it is wakeable; and one that is not is stranded, and concludes nothing on
   any continuation.
   */
  lemma WakeableExactly(states: seq<System>, steps: seq<Step>, i: nat, c: nat)
    requires PoliteRun(states, steps) && i < |states| && Waiting(states[i], c)
    ensures Wakeable(states[i], c) <==> CanLook(states[i], c)
    ensures Wakeable(states[i], c) <==> !Stranded(states[i], c)
    ensures forall tr: Path | !Wakeable(states[i], c) && Leads(tr, false) && Origin(tr) == states[i] ::
              c < |tr.s.clients| && !tr.s.clients[c].claimed
  {
    RunKeeps(states, steps, i);
    RunAims(states, steps, i);
    if Wakeable(states[i], c) {
      WakeableLooks(states[i], c);
    } else {
      NotWakeableIsStranded(states[i], c);
      StrandedNeverLooks(states[i], c);
      forall tr: Path | Leads(tr, false) && Origin(tr) == states[i]
        ensures c < |tr.s.clients| && !tr.s.clients[c].claimed
      {
        StrandedForever(tr, false, c);
      }
    }
  }
}
