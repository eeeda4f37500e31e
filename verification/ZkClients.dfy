/**
 The callbacks of zklock.cc and zkleader.cc do to their globals, and ask of the server,
 what the clients of the protocol do: each method below takes the program and a client
 it stands for through the same event.
 */
module ZkClients {
  import opened Options
  import opened ZkSearch
  import opened ZkProtocol
  import opened ZkLock
  import opened ZkLeader

  /** The watched name of a client as a path; nothing watched is the empty string. */
  function WatchPath(dir: string, prefix: string, watch: Option<nat>): string {
    if watch.Some? then dir + Name(prefix, watch.value) else ""
  }

  ghost predicate InRange(cl: Client) { cl.watch.Some? ==> cl.watch.value <= MAX_SEQ }

  lemma WatchPathExact(dir: string, prefix: string, watch: Option<nat>, p: nat)
    requires p <= MAX_SEQ && dir != [] && (watch.Some? ==> watch.value <= MAX_SEQ)
    ensures WatchPath(dir, prefix, watch) == dir + Name(prefix, p) <==> watch == Some(p)
  {
    if watch.Some? && dir + Name(prefix, watch.value) == dir + Name(prefix, p) {
      assert (dir + Name(prefix, p))[|dir|..] == Name(prefix, p);
      assert (dir + Name(prefix, watch.value))[|dir|..] == Name(prefix, watch.value);
      NameInjective(prefix, watch.value, p);
    }
  }

  /** What a snapshot does to the fields a program keeps. */
  lemma SnapshotMoves(program: Program, cl: Client, S: set<nat>)
    requires InRange(cl) && forall v | v in S :: v <= MAX_SEQ
    ensures var a, cl' := Reaction(program, cl, Snapshot(S)), Handle(program, cl, Snapshot(S));
            && InRange(cl') && cl'.seqMe == cl.seqMe && cl'.stored == cl.stored && cl'.quit == cl.quit
            && cl'.watch == if a.AskExists? then Some(a.p) else cl.watch
  {
  }

  // ---- zklock.cc

  ghost predicate LockStandsFor(lock: LockClient, cl: Client) reads lock {
    LockFieldsFor(lock.seqMe, lock.quit, lock.watch, cl)
  }

  ghost predicate LockFieldsFor(seqMe: nat, quit: bool, watch: string, cl: Client) {
    InRange(cl) && seqMe == cl.seqMe && quit == cl.quit && watch == WatchPath(LOCK_DIR, "", cl.watch)
  }

  lemma SnapshotStands(seqMe: nat, quit: bool, watch: string, watch': string, cl: Client, S: set<nat>)
    requires LockFieldsFor(seqMe, quit, watch, cl) && forall v | v in S :: v <= MAX_SEQ
    requires var a := LockAction(S, seqMe); watch' == if a.AskExists? then LOCK_DIR + Name("", a.p) else watch
    ensures LockFieldsFor(seqMe, quit, watch', Handle(LockProgram, cl, Snapshot(S)))
    ensures LockCall(cl, Snapshot(S)) == Render(LOCK_DIR, "", LockAction(S, seqMe))
  {
    SnapshotMoves(LockProgram, cl, S);
  }

  /** The request an event makes a lock client put to the server. */
  ghost function LockCall(cl: Client, e: Event): Call { Render(LOCK_DIR, "", Reaction(LockProgram, cl, e)) }

  method LockCreated(lock: LockClient, v: nat, ghost cl: Client) returns (call: Call)
    requires LockStandsFor(lock, cl) && v <= MAX_SEQ
    modifies lock
    ensures LockStandsFor(lock, Handle(LockProgram, cl, Created(v))) && call == LockCall(cl, Created(v))
  {
    call := lock.OnCreate(0, LOCK_DIR + Name("", v));
  }

  method LockSnapshot(lock: LockClient, strings: seq<string>, ghost S: set<nat>, ghost cl: Client) returns (call: Call)
    requires LockStandsFor(lock, cl) && Lists(strings, "", S)
    modifies lock
    ensures LockStandsFor(lock, Handle(LockProgram, cl, Snapshot(S))) && call == LockCall(cl, Snapshot(S))
  {
    ghost var watch := lock.watch;
    call := lock.OnChildren(0, strings);
    SnapshotStands(lock.seqMe, lock.quit, watch, lock.watch, cl, S);
  }

  method LockNodeGone(lock: LockClient, p: nat, ghost cl: Client) returns (call: Call)
    requires LockStandsFor(lock, cl) && p <= MAX_SEQ
    ensures LockStandsFor(lock, Handle(LockProgram, cl, NodeGone(p))) && call == LockCall(cl, NodeGone(p))
  {
    WatchPathExact(LOCK_DIR, "", cl.watch, p);
    call := lock.OnEvent(LOCK_DIR + Name("", p));
  }

  /** A session event has an empty path, which is the watched name as long as nothing is watched. */
  method LockSession(lock: LockClient, ghost cl: Client) returns (call: Call)
    requires LockStandsFor(lock, cl)
    ensures LockStandsFor(lock, Handle(LockProgram, cl, Session)) && call == LockCall(cl, Session)
  {
    call := lock.OnEvent("");
  }

  method LockDeleted(lock: LockClient, ghost cl: Client)
    requires LockStandsFor(lock, cl)
    modifies lock
    ensures LockStandsFor(lock, Handle(LockProgram, cl, DeleteDone)) && LockCall(cl, DeleteDone) == NoCall
  {
    lock.OnDeleted();
  }

  // ---- zkleader.cc

  ghost predicate LeaderStandsFor(leader: LeaderClient, cl: Client) reads leader {
    && InRange(cl) && cl.seqMe <= MAX_SEQ
    && (cl.stored ==> leader.currentNode == ELECTION_DIR + Name(NODE, cl.seqMe))
    && leader.predecessorNode == WatchPath(ELECTION_DIR, NODE, cl.watch)
  }

  ghost function LeaderCall(cl: Client, e: Event): Call { Render(ELECTION_DIR, NODE, Reaction(ElectionProgram, cl, e)) }

  method LeaderCreated(leader: LeaderClient, v: nat, ghost cl: Client) returns (call: Call)
    requires LeaderStandsFor(leader, cl) && v <= MAX_SEQ
    modifies leader
    ensures LeaderStandsFor(leader, Handle(ElectionProgram, cl, Created(v))) && call == LeaderCall(cl, Created(v))
  {
    call := leader.OnCreated(ELECTION_DIR + Name(NODE, v));
  }

  method LeaderSnapshot(leader: LeaderClient, children: seq<string>, ghost S: set<nat>, ghost cl: Client)
      returns (call: Call)
    requires LeaderStandsFor(leader, cl) && cl.stored && Lists(children, NODE, S)
    modifies leader
    ensures LeaderStandsFor(leader, Handle(ElectionProgram, cl, Snapshot(S))) && call == LeaderCall(cl, Snapshot(S))
  {
    SnapshotMoves(ElectionProgram, cl, S);
    call := leader.CheckLeadership(0, children);
  }

  method LeaderNodeGone(leader: LeaderClient, p: nat, ghost cl: Client) returns (call: Call)
    requires LeaderStandsFor(leader, cl) && p <= MAX_SEQ
    ensures LeaderStandsFor(leader, Handle(ElectionProgram, cl, NodeGone(p))) && call == LeaderCall(cl, NodeGone(p))
  {
    WatchPathExact(ELECTION_DIR, NODE, cl.watch, p);
    call := leader.OnEvent(true, ELECTION_DIR + Name(NODE, p));
  }

  method LeaderSession(leader: LeaderClient, ghost cl: Client) returns (call: Call)
    requires LeaderStandsFor(leader, cl)
    ensures LeaderStandsFor(leader, Handle(ElectionProgram, cl, Session)) && call == LeaderCall(cl, Session)
  {
    call := leader.OnEvent(false, "");
  }
}
