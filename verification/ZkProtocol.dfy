/**
 A ZooKeeper directory of ephemeral sequential znodes and any number of clients
 running zklock.cc or zkleader.cc against it. Requests and replies of one session
 travel in order; everything else interleaves freely, snapshots may be handled
 late, and a session may expire at any step.
 */
module ZkProtocol {
  import opened Options
  import opened ZkSearch

  datatype Program = LockProgram | ElectionProgram

  datatype Request = CreateReq | ChildrenReq | ExistsReq(p: nat) | DeleteReq(target: Option<nat>)

  datatype Event =
    | Created(v: nat)
    | Snapshot(S: set<nat>)
    | ExistsDone             // found or not: the callback ignores the result
    | DeleteDone
    | NodeGone(p: nat)       // a one-shot watch has fired
    | Session                // a session event: its path is empty

  datatype Client = Client(
    started: bool,           // the create request has been issued
    stored: bool,            // its completion has stored seqMe
    seqMe: nat,              // 0 until then
    watch: Option<nat>,      // the watched name; None is the empty string
    claimed: bool,           // the client has concluded that it is the smallest
    quit: bool,
    closed: bool,            // the session is over
    outbox: seq<Request>,
    inbox: seq<Event>)

  datatype System = System(
    program: Program,
    owner: seq<nat>,             // owner[v] is the client that created znode v
    live: set<nat>,              // the znodes still there
    watches: set<(nat, nat)>,    // (client, znode)
    clients: seq<Client>,
    grants: seq<nat>,            // znodes whose clients claimed while they were live, in order
    missed: set<nat>)            // clients one of whose `exists` calls found no node

  const NEW_CLIENT := Client(false, false, 0, None, false, false, false, [], [])

  ghost predicate Init(s: System) {
    && s.owner == [] && s.live == {} && s.watches == {} && s.grants == [] && s.missed == {}
    && forall c | 0 <= c < |s.clients| :: s.clients[c] == NEW_CLIENT
  }

  // ---- The client: what each callback does

  function Act(cl: Client, a: Action): Client {
    match a
    case Nothing => cl
    case AskChildren => cl.(outbox := cl.outbox + [ChildrenReq])
    case AskExists(p) => cl.(watch := Some(p), outbox := cl.outbox + [ExistsReq(p)])
    case AskDelete(t) => cl.(claimed := true, outbox := cl.outbox + [DeleteReq(t)])
    case Lead => cl.(claimed := true)
  }

  ghost function Reaction(program: Program, cl: Client, e: Event): Action {
    match e
    case Created(v) => if program.LockProgram? then CreateAction(v) else AskChildren
    case Snapshot(S) => if program.LockProgram? then LockAction(S, cl.seqMe) else LeaderAction(S, cl.seqMe)
    case NodeGone(p) => if cl.watch == Some(p) then AskChildren else Nothing
    case Session => if program.LockProgram? && cl.watch == None then AskChildren else Nothing
    case _ => Nothing
  }

  ghost function Handle(program: Program, cl: Client, e: Event): Client {
    var a := Reaction(program, cl, e);
    match e
    case Created(v) => Act(cl.(seqMe := v, stored := true), a)
    case DeleteDone => Act(cl.(quit := true), a)
    case _ => Act(cl, a)
  }

  predicate Claims(a: Action) { a.AskDelete? || a.Lead? }

  // ---- The server

  function Push(cl: Client, e: Event): Client { cl.(inbox := cl.inbox + [e]) }

  function Notify(cl: Client, watching: bool, p: nat): Client {
    if watching then Push(cl, NodeGone(p)) else cl
  }

  function NotifyAll(clients: seq<Client>, watches: set<(nat, nat)>, p: nat): (r: seq<Client>)
    ensures |r| == |clients|
    ensures forall c | 0 <= c < |clients| :: r[c] == Notify(clients[c], (c, p) in watches, p)
  {
    seq(|clients|, c requires 0 <= c < |clients| => Notify(clients[c], (c, p) in watches, p))
  }

  /** Deleting a znode fires and disarms every watch on it. */
  function RemoveNode(s: System, p: nat): System {
    s.(live := s.live - {p},
       watches := (set w | w in s.watches && w.1 != p),
       clients := NotifyAll(s.clients, s.watches, p))
  }

  function Reply(s: System, c: nat, e: Event): System
    requires c < |s.clients|
  {
    s.(clients := s.clients[c := Push(s.clients[c], e)])
  }

  function ServeRequest(s: System, c: nat, r: Request): System
    requires c < |s.clients|
  {
    match r
    case CreateReq => Reply(s.(owner := s.owner + [c], live := s.live + {|s.owner|}), c, Created(|s.owner|))
    case ChildrenReq => Reply(s, c, Snapshot(s.live))
    case ExistsReq(p) =>
      if p in s.live then Reply(s.(watches := s.watches + {(c, p)}), c, ExistsDone)
      else Reply(s.(missed := s.missed + {c}), c, ExistsDone)
    case DeleteReq(t) =>
      var s1 := Reply(s, c, DeleteDone);
      if t.Some? && t.value in s.live then RemoveNode(s1, t.value) else s1
  }

  function Close(s: System, c: nat): System
    requires c < |s.clients|
  {
    s.(clients := s.clients[c := s.clients[c].(closed := true)],
       watches := (set w | w in s.watches && w.0 != c))
  }

  // ---- Steps and runs

  datatype Step =
    | Start(c: nat)                         // main issues the create request
    | Notice(c: nat)                        // the library queues a session event
    | Serve(c: nat)                         // the server takes the next request of a session
    | Deliver(c: nat)                       // a callback runs on the next event
    | Expire(c: nat, node: Option<nat>)     // crash, close or time-out

  ghost predicate Own(s: System, c: nat, v: nat) { v < |s.owner| && s.owner[v] == c }

  ghost predicate Enabled(s: System, step: Step) {
    && step.c < |s.clients|
    && var cl := s.clients[step.c];
    match step
    case Start(c) => !cl.started && !cl.closed
    case Notice(c) => true
    case Serve(c) => !cl.closed && cl.outbox != []
    case Deliver(c) => cl.inbox != []
    case Expire(c, node) =>
      && (node.Some? ==> node.value in s.live && Own(s, c, node.value))
      && (node.None? ==> forall v | v in s.live :: !Own(s, c, v))
  }

  ghost function Do(s: System, step: Step): System
    requires Enabled(s, step)
  {
    var c := step.c;
    var cl := s.clients[c];
    match step
    case Start(_) => s.(clients := s.clients[c := cl.(started := true, outbox := cl.outbox + [CreateReq])])
    case Notice(_) => Reply(s, c, Session)
    case Serve(_) => ServeRequest(s.(clients := s.clients[c := cl.(outbox := cl.outbox[1..])]), c, cl.outbox[0])
    case Deliver(_) =>
      var cl' := Handle(s.program, cl.(inbox := cl.inbox[1..]), cl.inbox[0]);
      s.(clients := s.clients[c := cl'],
         grants := if Claims(Reaction(s.program, cl, cl.inbox[0])) && cl'.stored && cl'.seqMe in s.live
                   then s.grants + [cl'.seqMe] else s.grants)
    case Expire(_, node) => Close(if node.Some? then RemoveNode(s, node.value) else s, c)
  }

  /** The hypothesis on zklock.cc: no session event is queued before main has issued the create request. */
  ghost predicate Polite(s: System, step: Step) {
    step.Notice? && s.program.LockProgram? && step.c < |s.clients| ==> s.clients[step.c].started
  }

  ghost predicate IsRun(states: seq<System>, steps: seq<Step>) {
    && |states| == |steps| + 1
    && Init(states[0])
    && forall i | 0 <= i < |steps| :: Enabled(states[i], steps[i]) && states[i + 1] == Do(states[i], steps[i])
  }

  ghost predicate PoliteRun(states: seq<System>, steps: seq<Step>) {
    IsRun(states, steps) && forall i | 0 <= i < |steps| :: Polite(states[i], steps[i])
  }

  // ---- What is promised

  /** A holder has concluded that it is the smallest and its znode is still on the server. */
  ghost predicate Holder(s: System, c: nat, v: nat) {
    c < |s.clients| && s.clients[c].claimed && v in s.live && Own(s, c, v)
  }

  ghost predicate MutualExclusion(s: System) {
    && (forall c, d, u, v | Holder(s, c, u) && Holder(s, d, v) :: c == d)
    && (forall c, u, v | Holder(s, c, u) && v in s.live :: u <= v)
  }

  /** No herd: a znode is watched for at most one client whose own znode is live. */
  ghost predicate NoHerd(s: System) {
    forall c, d, p, u, v | (c, p) in s.watches && (d, p) in s.watches
                           && u in s.live && Own(s, c, u) && v in s.live && Own(s, d, v) :: c == d
  }

  ghost predicate FifoGrants(s: System) {
    forall i, j | 0 <= i < j < |s.grants| :: s.grants[i] <= s.grants[j]
  }

  ghost predicate Waiting(s: System, c: nat) {
    c < |s.clients| && s.clients[c].stored && s.clients[c].seqMe in s.live && !s.clients[c].claimed
  }

  ghost predicate HasSnapshot(cl: Client) { exists i :: 0 <= i < |cl.inbox| && cl.inbox[i].Snapshot? }

  /**
   Something is under way that can make the client look at the children again. A request
   for a node that has gone is not: its reply is ignored.
   */
  ghost predicate Wakeable(s: System, c: nat)
    requires c < |s.clients|
  {
    var cl := s.clients[c];
    || ChildrenReq in cl.outbox
    || HasSnapshot(cl)
    || (cl.watch.Some? && (|| NodeGone(cl.watch.value) in cl.inbox
                           || (cl.watch.value in s.live
                               && ((c, cl.watch.value) in s.watches || ExistsReq(cl.watch.value) in cl.outbox))))
  }

  /** The `exists` call under way will find no node. */
  ghost predicate TooLate(s: System, c: nat)
    requires c < |s.clients|
  {
    var cl := s.clients[c];
    cl.watch.Some? && ExistsReq(cl.watch.value) in cl.outbox && cl.watch.value !in s.live
  }

  /** As long as every `exists` call finds its node, past or under way. */
  ghost predicate NoLostWakeUp(s: System) {
    forall c | Waiting(s, c) && c !in s.missed && !TooLate(s, c) :: Wakeable(s, c)
  }
}
