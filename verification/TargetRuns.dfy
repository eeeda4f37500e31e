/** Ordering, conservation, chains and shutdown of the target over every run. */
module TargetRuns {
  import opened Options
  import opened TargetModel

  /** The state after `nvmf_target_app_start`; a signal may have come before. */
  function Begin(cfg: Config, early: bool): State {
    Initial(cfg).(intr := early, lib := QUIET_LIB.(initing := true, shutdowns := if early then 1 else 0))
  }

  ghost predicate Step(s: State, e: Event, o: Oracle, s': State) {
    Pending(s, e) && Asserts(s, e) && s' == Deliver(s, e, o)
  }

  ghost predicate IsRun(states: seq<State>, events: seq<Event>, oracles: seq<Oracle>) {
    && |states| == |events| + 1 && |oracles| == |events|
    && states[0].cfg.cores > 0 && (exists early :: states[0] == Begin(states[0].cfg, early))
    && forall i | 0 <= i < |events| :: Step(states[i], events[i], oracles[i], states[i + 1])
  }

  // ---- The invariant, state by state

  ghost predicate NoDup(s: seq<nat>) { forall i, j | 0 <= i < j < |s| :: s[i] != s[j] }

  /** Each group once. */
  ghost predicate AllGroups(s: seq<nat>, cores: nat) {
    NoDup(s) && |s| == cores && forall g: nat :: g in s <==> g < cores
  }

  ghost predicate NoGroup(s: State) {
    && s.groups == [] && s.num == 0
    && s.lib.creating == {} && s.lib.created == {} && s.lib.destroying == {} && s.lib.gone == 0
  }

  ghost predicate Full(s: State) {
    && AllGroups(s.groups, s.cfg.cores) && s.num == s.cfg.cores && s.tgt
    && s.lib.creating == {} && s.lib.created == {} && s.lib.destroying == {} && s.lib.gone == 0
    && s.lib.destroySent == []
  }

  ghost predicate NoChain(s: State) { s.lib.starting == None && s.lib.stopping == None }

  ghost predicate Undone(s: State) {
    !s.lib.tgtDying && !s.lib.finishing && s.lib.tgtDestroys == 0 && s.lib.finis == 0 && !s.exit
  }

  ghost predicate Creating(s: State) {
    && s.tgt && NoChain(s) && Undone(s) && s.lib.starts == [] && s.lib.stops == [] && s.lib.destroySent == []
    && s.lib.destroying == {} && s.lib.gone == 0
    && s.num == |s.groups| && NoDup(s.groups)
    && s.num + |s.lib.creating| + |s.lib.created| == s.cfg.cores && s.num < s.cfg.cores
    && (forall g: nat :: g in s.groups || g in s.lib.creating || g in s.lib.created <==> g < s.cfg.cores)
    && (forall g | g in s.groups :: g !in s.lib.creating && g !in s.lib.created)
    && (forall g | g in s.lib.creating :: g !in s.lib.created)
  }

  ghost predicate Destroying(s: State) {
    && s.tgt && NoChain(s) && Undone(s) && s.groups == [] && s.lib.creating == {} && s.lib.created == {}
    && s.lib.stops == Range(0, s.cfg.subsystems)
    && AllGroups(s.lib.destroySent, s.cfg.cores)
    && s.num == |s.lib.destroying| + s.lib.gone && s.num > 0
  }

  ghost predicate Fresh(s: State) {
    && NoGroup(s) && NoChain(s) && Undone(s) && !s.tgt
    && s.lib.starts == [] && s.lib.stops == [] && s.lib.destroySent == []
  }

  ghost predicate Starting(s: State) {
    && Full(s) && Undone(s) && s.lib.stops == [] && s.lib.stopping == None
    && s.lib.starting.Some? && s.lib.starting.value < s.cfg.subsystems
    && s.lib.starts == Range(0, s.lib.starting.value + 1)
  }

  ghost predicate Up(s: State) {
    Full(s) && Undone(s) && s.lib.stops == [] && NoChain(s) && s.lib.starts == Range(0, s.cfg.subsystems)
  }

  ghost predicate Stopping(s: State) {
    && Full(s) && Undone(s) && s.lib.starting == None
    && s.lib.stopping.Some? && s.lib.stopping.value < s.cfg.subsystems
    && s.lib.stops == Range(0, s.lib.stopping.value + 1)
  }

  /** Either nothing was ever built, or every subsystem was stopped and every group told to go, once each. */
  ghost predicate Unwound(s: State) {
    || (s.lib.stops == [] && s.lib.destroySent == [])
    || (s.lib.stops == Range(0, s.cfg.subsystems) && AllGroups(s.lib.destroySent, s.cfg.cores))
  }

  ghost predicate Dying(s: State) {
    && Unwound(s) && NoGroup(s) && NoChain(s) && s.tgt && s.lib.tgtDying && s.lib.tgtDestroys == 1
    && !s.lib.finishing && s.lib.finis == 0 && !s.exit
  }

  ghost predicate Ending(s: State) {
    && Unwound(s) && NoGroup(s) && NoChain(s) && !s.lib.tgtDying && s.lib.finis == 1
    && s.lib.tgtDestroys == (if s.tgt then 1 else 0) && s.lib.finishing == !s.exit
  }

  ghost predicate ByState(s: State) {
    if s.st == INIT_SUBSYSTEM then Fresh(s)
    else
      !s.lib.initing &&
      if s.st == INIT_POLL_GROUPS then Creating(s)
      else if s.st == INIT_START_SUBSYSTEMS then Starting(s)
      else if s.st == RUNNING then Up(s)
      else if s.st == FINI_STOP_SUBSYSTEMS then Stopping(s)
      else if s.st == FINI_POLL_GROUPS then Destroying(s)
      else if s.st == FINI_TARGET then Dying(s)
      else s.st == FINI_SUBSYSTEM && Ending(s)
  }

  ghost predicate SignalInv(s: State) {
    && s.lib.shutdowns <= 1 && (!s.intr ==> s.lib.shutdowns == 0)
    && (s.intr ==> s.lib.shutdowns == 1 || s.st > RUNNING)
  }

  ghost predicate Inv(s: State) {
    && s.cfg.cores > 0 && ByState(s) && SignalInv(s)
    && (s.poller <==> s.st == RUNNING && s.cfg.period != 0)
  }

  // ---- Small facts

  lemma {:induction false} UptoSize(n: nat)
    ensures |Upto(n)| == n
  {
    if n > 0 {
      UptoSize(n - 1);
    }
  }

  lemma {:induction false} ElementsSize(s: seq<nat>)
    requires NoDup(s)
    ensures |Elements(s)| == |s|
  {
    if s != [] {
      var n := |s| - 1;
      ElementsSize(s[..n]);
      assert s == s[..n] + [s[n]];
      assert Elements(s) == Elements(s[..n]) + {s[n]};
      assert s[n] !in s[..n];
    }
  }

  lemma Append(s: seq<nat>, g: nat)
    requires NoDup(s) && g !in s
    ensures NoDup(s + [g]) && forall x: nat :: x in s + [g] <==> x in s || x == g
  {
    assert forall i | 0 <= i < |s| :: s[i] in s;
  }

  lemma OnlyOne(a: set<nat>, b: set<nat>, g: nat)
    requires g in b && |a| + |b| == 1
    ensures a == {} && b == {g}
  {
    assert |b - {g}| == |b| - 1;
    assert b == (b - {g}) + {g};
  }

  /** Stopping from a state with every group listed waits for one subsystem, or tells every group to go. */
  lemma StopChain(s: State, i: nat, fails: set<nat>)
    requires s.cfg.cores > 0 && Full(s) && NoChain(s) && Undone(s) && !s.lib.initing && !s.poller
    requires s.st == FINI_STOP_SUBSYSTEMS && i <= s.cfg.subsystems && s.lib.stops == Range(0, i)
    ensures var t := StopFrom(s, i, fails); ByState(t) && t.st >= s.st && !t.poller
  {
    var n := s.cfg.subsystems;
    var j := FirstAccepted(i, n, fails);
    if j < n {
      assert Range(0, i) + Range(i, j + 1) == Range(0, j + 1);
    } else {
      assert Range(0, i) + Range(i, n) == Range(0, n);
      assert [] + s.groups == s.groups;
      assert {} + Elements(s.groups) == Elements(s.groups);
      ElementsSize(s.groups);
    }
  }

  // ---- Every callback keeps it

  lemma GroupsBegin(s: State)
    requires s.cfg.cores > 0 && Fresh(s.(tgt := false)) && s.tgt
    ensures Creating(CreateGroups(s))
  {
    var t := CreateGroups(s);
    UptoSize(s.cfg.cores);
    assert t.lib.creating == Upto(s.cfg.cores);
  }

  lemma InitDoneKeeps(s: State, rpcOk: bool, o: Oracle)
    requires Inv(s) && Pending(s, InitDone(rpcOk))
    ensures Inv(Deliver(s, InitDone(rpcOk), o))
  {
    assert s.st == INIT_SUBSYSTEM && Fresh(s);
    if rpcOk {
      var s1 := s.(st := INIT_TARGET, lib := s.lib.(initing := false));
      match o.create
      case NoTarget => assert Ending(Finish(s1.(tgt := false)));
      case NoDiscovery => assert Dying(DestroyTarget(s1.(tgt := true)));
      case TargetReady => GroupsBegin(s1.(tgt := true));
    }
  }

  lemma CreateGroupKeeps(s: State, g: nat, o: Oracle)
    requires Inv(s) && Pending(s, CreateGroup(g))
    ensures Inv(Deliver(s, CreateGroup(g), o))
  {
    assert |s.lib.creating - {g}| == |s.lib.creating| - 1;
    assert |s.lib.created + {g}| == |s.lib.created| + 1;
  }

  /** Every group is listed and no chain is under way: the ground on which starts and stops are tried. */
  ghost predicate Ready(s: State) {
    && s.cfg.cores > 0 && Full(s) && NoChain(s) && Undone(s) && !s.lib.initing && s.lib.stops == []
    && (s.st == INIT_START_SUBSYSTEMS || s.st == RUNNING)
    && s.lib.shutdowns <= 1 && (!s.intr ==> s.lib.shutdowns == 0)
  }

  lemma RunBegins(s: State)
    requires Ready(s) && s.st == INIT_START_SUBSYSTEMS && !s.poller && SignalInv(s)
    requires s.lib.starts == Range(0, s.cfg.subsystems)
    ensures Inv(Run(s))
  {
    assert Up(Run(s));
  }

  lemma StartContinues(s: State, i: nat)
    requires Ready(s) && s.st == INIT_START_SUBSYSTEMS && !s.poller && SignalInv(s)
    requires i < s.cfg.subsystems && s.lib.starts == Range(0, i)
    ensures Inv(AcceptStart(s, i))
  {
    assert Range(0, i) + [i] == Range(0, i + 1);
    assert Starting(AcceptStart(s, i));
  }

  lemma StopBegins(s: State, o: Oracle)
    requires Ready(s)
    ensures Inv(StopAll(s, o))
  {
    assert Range(0, 0) == [];
    StopChain(s.(st := FINI_STOP_SUBSYSTEMS, poller := false), 0, o.stopFails);
  }

  lemma StartDoneKeeps(s: State, o: Oracle)
    requires Inv(s) && Pending(s, StartDone)
    ensures Inv(Deliver(s, StartDone, o))
  {
    var i := s.lib.starting.value;
    var s1 := s.(lib := s.lib.(starting := None));
    assert s.st == INIT_START_SUBSYSTEMS && Starting(s);
    assert Ready(s1);
    if i + 1 == s.cfg.subsystems {
      RunBegins(s1);
    } else if i + 1 in o.startFails {
      StopBegins(s1, o);
    } else {
      StartContinues(s1, i + 1);
    }
  }

  /** Every group is there: the start of the subsystems is tried. */
  lemma FullAdvances(s: State, o: Oracle)
    requires Ready(s) && s.st == INIT_START_SUBSYSTEMS && !s.poller && SignalInv(s) && s.lib.starts == []
    ensures Inv(Advance(s, o))
  {
    assert Range(0, 0) == [];
    if s.cfg.subsystems == 0 {
      RunBegins(s);
    } else if 0 in o.startFails {
      StopBegins(s, o);
    } else {
      StartContinues(s, 0);
    }
  }

  lemma GroupCounted(s: State, g: nat)
    requires Inv(s) && Pending(s, CreateDone(g))
    ensures Creating(s) && s.st == INIT_POLL_GROUPS
    ensures var s1 := s.(groups := s.groups + [g], num := s.num + 1, lib := s.lib.(created := s.lib.created - {g}));
            if s1.num < s.cfg.cores then Creating(s1) else Full(s1)
  {
    assert Creating(s);
    var cr := s.lib.created - {g};
    assert |cr| == |s.lib.created| - 1;
    Append(s.groups, g);
    if s.num + 1 == s.cfg.cores {
      OnlyOne(s.lib.creating, s.lib.created, g);
    }
  }

  lemma CreateDoneKeeps(s: State, g: nat, o: Oracle)
    requires Inv(s) && Pending(s, CreateDone(g))
    ensures Asserts(s, CreateDone(g)) && Inv(Deliver(s, CreateDone(g), o))
  {
    GroupCounted(s, g);
    var s1 := s.(groups := s.groups + [g], num := s.num + 1, lib := s.lib.(created := s.lib.created - {g}));
    if s1.num == s.cfg.cores {
      FullAdvances(s1.(st := INIT_START_SUBSYSTEMS), o);
    }
  }

  lemma StopDoneKeeps(s: State, o: Oracle)
    requires Inv(s) && Pending(s, StopDone)
    ensures Asserts(s, StopDone) && Inv(Deliver(s, StopDone, o))
  {
    assert Stopping(s);
    StopChain(s.(lib := s.lib.(stopping := None)), s.lib.stopping.value + 1, o.stopFails);
  }

  lemma DestroyGroupKeeps(s: State, g: nat, o: Oracle)
    requires Inv(s) && Pending(s, DestroyGroup(g))
    ensures Inv(Deliver(s, DestroyGroup(g), o))
  {
    assert |s.lib.destroying - {g}| == |s.lib.destroying| - 1;
  }

  lemma DestroyDoneKeeps(s: State, o: Oracle)
    requires Inv(s) && Pending(s, DestroyDone)
    ensures Asserts(s, DestroyDone) && Inv(Deliver(s, DestroyDone, o))
  {
    assert Destroying(s);
  }

  lemma ShutdownKeeps(s: State, o: Oracle)
    requires Inv(s) && Pending(s, ShutdownMsg)
    ensures Inv(Deliver(s, ShutdownMsg, o))
  {
    if s.st == RUNNING {
      StopBegins(s.(lib := s.lib.(shutdowns := s.lib.shutdowns - 1)), o);
    }
  }

  lemma EndKeeps(s: State, e: Event, o: Oracle)
    requires Inv(s) && Pending(s, e) && (e.TargetDestroyed? || e.FiniDone? || e.Signal?)
    ensures Inv(Deliver(s, e, o))
  {
  }

  lemma StepKeeps(s: State, e: Event, o: Oracle)
    requires Inv(s) && Pending(s, e)
    ensures Asserts(s, e) && Inv(Deliver(s, e, o))
  {
    match e
    case InitDone(ok) => InitDoneKeeps(s, ok, o);
    case CreateGroup(g) => CreateGroupKeeps(s, g, o);
    case CreateDone(g) => CreateDoneKeeps(s, g, o);
    case StartDone => StartDoneKeeps(s, o);
    case StopDone => StopDoneKeeps(s, o);
    case DestroyGroup(g) => DestroyGroupKeeps(s, g, o);
    case DestroyDone => DestroyDoneKeeps(s, o);
    case ShutdownMsg => ShutdownKeeps(s, o);
    case _ => EndKeeps(s, e, o);
  }

  lemma BeginKeeps(cfg: Config, early: bool)
    requires cfg.cores > 0
    ensures Inv(Begin(cfg, early))
  {
  }

  lemma {:induction false} RunKeeps(states: seq<State>, events: seq<Event>, oracles: seq<Oracle>, i: nat)
    requires IsRun(states, events, oracles) && i < |states|
    ensures Inv(states[i])
  {
    if i == 0 {
      var early :| states[0] == Begin(states[0].cfg, early);
      BeginKeeps(states[0].cfg, early);
    } else {
      var j := i - 1;
      RunKeeps(states, events, oracles, j);
      assert Step(states[j], events[j], oracles[j], states[j + 1]);
      StepKept(states[j], events[j], oracles[j], states[i]);
    }
  }

  lemma StepKept(s: State, e: Event, o: Oracle, s': State)
    requires Inv(s) && Step(s, e, o, s')
    ensures Inv(s')
  {
    StepKeeps(s, e, o);
  }

  // ---- The theorems

  ghost predicate Advances(s: State, s': State) {
    s'.st >= s.st && s'.cfg == s.cfg && (s.intr ==> s'.intr)
  }

  lemma StepAdvances(s: State, e: Event, o: Oracle)
    requires Inv(s) && Pending(s, e) && Asserts(s, e)
    ensures Advances(s, Deliver(s, e, o))
  {
    match e
    case InitDone(_) => assert s.st == INIT_SUBSYSTEM;
    case CreateDone(_) => assert s.st == INIT_POLL_GROUPS;
    case StartDone => assert s.st == INIT_START_SUBSYSTEMS;
    case StopDone => assert s.st == FINI_STOP_SUBSYSTEMS;
    case DestroyDone => assert s.st == FINI_POLL_GROUPS;
    case TargetDestroyed => assert s.st == FINI_TARGET;
    case _ =>
  }

  lemma RunAdvances(states: seq<State>, events: seq<Event>, oracles: seq<Oracle>, i: nat)
    requires IsRun(states, events, oracles) && i + 1 < |states|
    ensures Advances(states[i], states[i + 1])
  {
    RunKeeps(states, events, oracles, i);
    assert Step(states[i], events[i], oracles[i], states[i + 1]);
    StepAdvances(states[i], events[i], oracles[i]);
  }

  lemma AdvancesOn(s: State, s1: State, s2: State)
    requires Advances(s, s1) && Advances(s1, s2)
    ensures Advances(s, s2)
  {
  }

  /** The state never goes back, so the target leaves RUNNING at most once, and a signal is never forgotten. */
  lemma {:induction false} StateNeverDecreases(states: seq<State>, events: seq<Event>, oracles: seq<Oracle>,
      i: nat, j: nat)
    requires IsRun(states, events, oracles) && i <= j < |states|
    ensures Advances(states[i], states[j])
    decreases j
  {
    if i < j {
      var k := j - 1;
      StateNeverDecreases(states, events, oracles, i, k);
      RunAdvances(states, events, oracles, k);
      AdvancesOn(states[i], states[k], states[j]);
    }
  }

  /** What a step of the teardown may do, and after what. */
  ghost predicate InOrder(s: State, s': State) {
    && s'.lib.tgtDestroys <= 1 && s'.lib.finis <= 1
    // the target is destroyed when no group exists, listed or in the making or on its way out
    && (s'.lib.tgtDestroys > s.lib.tgtDestroys ==> NoGroup(s') && s'.lib.tgtDying)
    // the bdev layer is finished after the target's destruction has been reported, if there is a target
    && (s'.lib.finis > s.lib.finis ==> NoGroup(s') && !s'.lib.tgtDying && (s'.tgt ==> s'.lib.tgtDestroys == 1))
    // the reactors are told to exit last
    && (s'.exit && !s.exit ==> s.lib.finis == 1 && s.lib.finishing && NoGroup(s') && NoChain(s') && !s'.lib.tgtDying
                               && !s'.lib.initing && !s'.lib.finishing)
    && (s.exit ==> s'.exit)
  }

  lemma StepInOrder(s: State, e: Event, o: Oracle)
    requires Inv(s) && Pending(s, e) && Asserts(s, e)
    ensures InOrder(s, Deliver(s, e, o))
  {
    StepKeeps(s, e, o);
    var s' := Deliver(s, e, o);
    assert ByState(s) && ByState(s');
  }

  lemma TeardownOrder(states: seq<State>, events: seq<Event>, oracles: seq<Oracle>, i: nat)
    requires IsRun(states, events, oracles) && i + 1 < |states|
    ensures InOrder(states[i], states[i + 1])
  {
    RunKeeps(states, events, oracles, i);
    assert Step(states[i], events[i], oracles[i], states[i + 1]);
    StepInOrder(states[i], events[i], oracles[i]);
  }

  /**
   No group is forgotten or counted twice: the counter agrees with the groups listed,
   being created or being destroyed, the asserts of the source hold for whatever is
   delivered next, and once teardown has reached the groups each has one destroy message.
   */
  lemma PollGroupConservation(states: seq<State>, events: seq<Event>, oracles: seq<Oracle>, i: nat)
    requires IsRun(states, events, oracles) && i < |states|
    ensures var s := states[i];
            && (s.st == INIT_POLL_GROUPS ==> s.num + |s.lib.creating| + |s.lib.created| == s.cfg.cores)
            && (INIT_START_SUBSYSTEMS <= s.st <= FINI_POLL_GROUPS
                ==> s.num == |s.groups| + |s.lib.destroying| + s.lib.gone > 0)
            && (s.st == FINI_POLL_GROUPS ==> AllGroups(s.lib.destroySent, s.cfg.cores))
            && NoDup(s.lib.destroySent)
    ensures forall e | Pending(states[i], e) :: Asserts(states[i], e)
  {
    RunKeeps(states, events, oracles, i);
    forall e | Pending(states[i], e) ensures Asserts(states[i], e) {
      StepKeeps(states[i], e, Oracle(NoTarget, {}, {}));
    }
  }

  /** Stops are attempted once each in list order, whichever of them fail; RUNNING means every start was accepted. */
  lemma SubsystemChains(states: seq<State>, events: seq<Event>, oracles: seq<Oracle>, i: nat)
    requires IsRun(states, events, oracles) && i < |states|
    ensures var s := states[i];
            && (s.st == RUNNING ==> s.lib.starts == Range(0, s.cfg.subsystems))
            && |s.lib.stops| <= s.cfg.subsystems && s.lib.stops == Range(0, |s.lib.stops|)
            && (s.st == FINI_POLL_GROUPS ==> s.lib.stops == Range(0, s.cfg.subsystems))
  {
    RunKeeps(states, events, oracles, i);
    assert Range(0, 0) == [];
  }

  /** From the first signal on, one shutdown message is queued or teardown has begun; never two messages. */
  lemma ShutdownKept(states: seq<State>, events: seq<Event>, oracles: seq<Oracle>, i: nat)
    requires IsRun(states, events, oracles) && i < |states|
    ensures states[i].lib.shutdowns <= 1
    ensures states[i].intr ==> states[i].lib.shutdowns == 1 || states[i].st > RUNNING
    ensures states[i].poller <==> states[i].st == RUNNING && states[i].cfg.period != 0
  {
    RunKeeps(states, events, oracles, i);
  }
}
