/**
 The life of the NVMe-oF target of nvmf.cc: its nine states, the callbacks and
 messages in flight, and what each callback makes of them, in closed form.
 */
module TargetModel {
  import opened Options

  // enum nvmf_target_state
  const INIT_SUBSYSTEM: nat := 0
  const INIT_TARGET: nat := 1
  const INIT_POLL_GROUPS: nat := 2
  const INIT_START_SUBSYSTEMS: nat := 3
  const RUNNING: nat := 4
  const FINI_STOP_SUBSYSTEMS: nat := 5
  const FINI_POLL_GROUPS: nat := 6
  const FINI_TARGET: nat := 7
  const FINI_SUBSYSTEM: nat := 8

  datatype Config = Config(cores: nat, subsystems: nat, period: nat)

  /** What the SPDK library owes the program, and what it has been asked so far. */
  datatype Lib = Lib(
    initing: bool,               // bdev layer initialisation
    creating: set<nat>,          // create-poll-group messages, one per core
    created: set<nat>,           // their replies to the init thread
    starting: Option<nat>,       // subsystem whose start was accepted
    stopping: Option<nat>,       // subsystem whose stop was accepted
    destroying: set<nat>,        // groups told to go
    gone: nat,                   // their replies to the fini thread
    tgtDying: bool,              // target destruction
    finishing: bool,             // bdev layer shutdown
    shutdowns: nat,              // shutdown messages to the init thread
    // history
    starts: seq<nat>,            // accepted starts
    stops: seq<nat>,             // attempted stops
    destroySent: seq<nat>,       // destroy messages
    tgtDestroys: nat,
    finis: nat)

  datatype State = State(
    cfg: Config,
    st: nat,                     // g_target_state
    tgt: bool,                   // g_nvmf_tgt.tgt != NULL
    groups: seq<nat>,            // g_poll_groups
    num: nat,                    // g_num_poll_groups
    poller: bool,                // g_migrate_pg_poller != NULL
    intr: bool,                  // g_intr_received
    exit: bool,                  // g_reactors_exit
    lib: Lib)

  /** The choices of the library during one callback. */
  datatype Create = NoTarget | NoDiscovery | TargetReady
  datatype Oracle = Oracle(create: Create, startFails: set<nat>, stopFails: set<nat>)

  const QUIET_LIB := Lib(false, {}, {}, None, None, {}, 0, false, false, 0, [], [], [], 0, 0)

  function Initial(cfg: Config): State {
    State(cfg, INIT_SUBSYSTEM, false, [], 0, false, false, false, QUIET_LIB)
  }

  // ---- Building blocks

  function Range(i: nat, j: nat): (r: seq<nat>)
    requires i <= j
    ensures |r| == j - i && forall k | 0 <= k < |r| :: r[k] == i + k
  {
    if i == j then [] else Range(i, j - 1) + [j - 1]
  }

  function Elements(s: seq<nat>): set<nat> { set x | x in s }

  function Upto(n: nat): (r: set<nat>)
    ensures forall i: nat :: i in r <==> i < n
  {
    if n == 0 then {} else Upto(n - 1) + {n - 1}
  }

  /** The first subsystem from `i` on whose stop is accepted, or `n`. */
  function FirstAccepted(i: nat, n: nat, fails: set<nat>): (j: nat)
    requires i <= n
    ensures i <= j <= n && (j < n ==> j !in fails) && forall k | i <= k < j :: k in fails
    decreases n - i
  {
    if i == n || i !in fails then i else FirstAccepted(i + 1, n, fails)
  }

  function CreateGroups(s: State): State {
    s.(st := INIT_POLL_GROUPS, lib := s.lib.(creating := s.lib.creating + Upto(s.cfg.cores)))
  }

  function Run(s: State): State { s.(st := RUNNING, poller := s.poller || s.cfg.period != 0) }

  function DestroyGroups(s: State): State {
    s.(st := FINI_POLL_GROUPS, groups := [],
       lib := s.lib.(destroySent := s.lib.destroySent + s.groups, destroying := s.lib.destroying + Elements(s.groups)))
  }

  /** The stop chain from subsystem `i`: refused stops are passed over, the first accepted one is waited for. */
  function StopFrom(s: State, i: nat, fails: set<nat>): State
    requires i <= s.cfg.subsystems
  {
    var n := s.cfg.subsystems;
    var j := FirstAccepted(i, n, fails);
    if j < n then s.(lib := s.lib.(stops := s.lib.stops + Range(i, j + 1), stopping := Some(j)))
    else DestroyGroups(s.(lib := s.lib.(stops := s.lib.stops + Range(i, n))))
  }

  function StopAll(s: State, o: Oracle): State {
    StopFrom(s.(st := FINI_STOP_SUBSYSTEMS, poller := false), 0, o.stopFails)
  }

  function DestroyTarget(s: State): State {
    s.(st := FINI_TARGET, lib := s.lib.(tgtDying := true, tgtDestroys := s.lib.tgtDestroys + 1))
  }

  function Finish(s: State): State {
    s.(st := FINI_SUBSYSTEM, lib := s.lib.(finishing := true, finis := s.lib.finis + 1))
  }

  function AcceptStart(s: State, i: nat): State {
    s.(lib := s.lib.(starts := s.lib.starts + [i], starting := Some(i)))
  }

  /** `nvmf_target_advance_state` in closed form: no loop, no re-entry. */
  function Advance(s: State, o: Oracle): State {
    if s.st == INIT_SUBSYSTEM then s.(lib := s.lib.(initing := true))
    else if s.st == INIT_TARGET then
      match o.create
      case NoTarget => Finish(s.(tgt := false))
      case NoDiscovery => DestroyTarget(s.(tgt := true))
      case TargetReady => CreateGroups(s.(tgt := true))
    else if s.st == INIT_POLL_GROUPS then CreateGroups(s)
    else if s.st == INIT_START_SUBSYSTEMS then
      if s.cfg.subsystems == 0 then Run(s)
      else if 0 in o.startFails then StopAll(s, o)
      else AcceptStart(s, 0)
    else if s.st == RUNNING then Run(s)
    else if s.st == FINI_STOP_SUBSYSTEMS then StopAll(s, o)
    else if s.st == FINI_POLL_GROUPS then DestroyGroups(s)
    else if s.st == FINI_TARGET then if s.tgt then DestroyTarget(s) else Finish(s)
    else Finish(s)
  }

  // ---- Callbacks and messages

  datatype Event =
    | InitDone(rpcOk: bool)          // nvmf_subsystem_init_done
    | CreateGroup(g: nat)            // nvmf_tgt_create_poll_group, on the group's thread
    | CreateDone(g: nat)             // nvmf_tgt_create_poll_groups_done
    | StartDone                      // nvmf_tgt_subsystem_start_next
    | StopDone                       // nvmf_tgt_subsystem_stop_next
    | DestroyGroup(g: nat)           // the group is destroyed and its thread exits
    | DestroyDone                    // _nvmf_tgt_destroy_poll_groups_done
    | TargetDestroyed                // nvmf_tgt_destroy_done
    | FiniDone                       // nvmf_subsystem_fini_done
    | Signal                         // nvmf_shutdown_cb
    | ShutdownMsg                    // _nvmf_shutdown_cb

  predicate Pending(s: State, e: Event) {
    match e
    case InitDone(_) => s.lib.initing
    case CreateGroup(g) => g in s.lib.creating
    case CreateDone(g) => g in s.lib.created
    case StartDone => s.lib.starting.Some?
    case StopDone => s.lib.stopping.Some?
    case DestroyGroup(g) => g in s.lib.destroying
    case DestroyDone => s.lib.gone > 0
    case TargetDestroyed => s.lib.tgtDying
    case FiniDone => s.lib.finishing
    case Signal => true
    case ShutdownMsg => s.lib.shutdowns > 0
  }

  function StartNext(s: State, i: nat, o: Oracle): State {
    if i + 1 < s.cfg.subsystems then
      if i + 1 in o.startFails then StopAll(s, o) else AcceptStart(s, i + 1)
    else Run(s)
  }

  function CountCreated(s: State, g: nat, o: Oracle): State {
    var s1 := s.(groups := s.groups + [g], num := s.num + 1);
    if s1.num == s.cfg.cores then Advance(s1.(st := INIT_START_SUBSYSTEMS), o) else s1
  }

  function CountDestroyed(s: State, o: Oracle): State
    requires s.num > 0
  {
    var s1 := s.(num := s.num - 1);
    if s1.num == 0 then Advance(s1.(st := FINI_TARGET), o) else s1
  }

  function Shutdown(s: State, o: Oracle): State {
    if s.st < RUNNING then s.(lib := s.lib.(shutdowns := s.lib.shutdowns + 1))
    else if s.st > RUNNING then s
    else StopAll(s, o)
  }

  /** The asserts of the source: the group counters never run over or under. */
  predicate Asserts(s: State, e: Event) {
    && (e.CreateDone? ==> s.num < s.cfg.cores)
    && (e.DestroyDone? ==> s.num > 0)
    && (e.StopDone? && s.lib.stopping.Some? ==> s.lib.stopping.value < s.cfg.subsystems)
  }

  function Deliver(s: State, e: Event, o: Oracle): State
    requires Pending(s, e) && Asserts(s, e)
  {
    match e
    case InitDone(rpcOk) =>
      var s1 := s.(lib := s.lib.(initing := false));
      if rpcOk then Advance(s1.(st := INIT_TARGET), o) else s1
    case CreateGroup(g) => s.(lib := s.lib.(creating := s.lib.creating - {g}, created := s.lib.created + {g}))
    case CreateDone(g) => CountCreated(s.(lib := s.lib.(created := s.lib.created - {g})), g, o)
    case StartDone => StartNext(s.(lib := s.lib.(starting := None)), s.lib.starting.value, o)
    case StopDone => StopFrom(s.(lib := s.lib.(stopping := None)), s.lib.stopping.value + 1, o.stopFails)
    case DestroyGroup(g) => s.(lib := s.lib.(destroying := s.lib.destroying - {g}, gone := s.lib.gone + 1))
    case DestroyDone => CountDestroyed(s.(lib := s.lib.(gone := s.lib.gone - 1)), o)
    case TargetDestroyed => Finish(s.(lib := s.lib.(tgtDying := false)))
    case FiniDone => s.(exit := true, lib := s.lib.(finishing := false))
    case Signal => if s.intr then s else s.(intr := true, lib := s.lib.(shutdowns := s.lib.shutdowns + 1))
    case ShutdownMsg => Shutdown(s.(lib := s.lib.(shutdowns := s.lib.shutdowns - 1)), o)
  }
}
