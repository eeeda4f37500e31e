/** What each callback and message has to do, said without the functions that do it. */
module TargetDuties {
  import opened Options
  import opened TargetModel
  import opened TargetRuns

  // ---- Shutdown

  /** Put off before RUNNING, dropped after it; in RUNNING it begins the teardown. */
  lemma ShutdownDoes(s: State, o: Oracle)
    requires Inv(s) && Pending(s, ShutdownMsg)
    ensures var s' := Deliver(s, ShutdownMsg, o);
            && (s.st < RUNNING ==> s' == s)
            && (s.st > RUNNING ==> s' == s.(lib := s.lib.(shutdowns := s.lib.shutdowns - 1)))
            && (s.st == RUNNING ==>
                  && s'.st > RUNNING && s'.lib.shutdowns == s.lib.shutdowns - 1 && !s'.poller
                  && (s.cfg.subsystems > 0 ==> s'.lib.stops != [] && s'.lib.stops[0] == 0))
  {
  }

  /** Over every run, a shutdown message delivered in RUNNING ends it, uses the message up and takes the poller away. */
  lemma ShutdownEndsRunning(states: seq<State>, events: seq<Event>, oracles: seq<Oracle>, i: nat)
    requires IsRun(states, events, oracles) && i < |events| && events[i] == ShutdownMsg && states[i].st == RUNNING
    ensures states[i + 1].st > RUNNING && !states[i + 1].poller
    ensures states[i + 1].lib.shutdowns == states[i].lib.shutdowns - 1 == 0
  {
    RunKeeps(states, events, oracles, i);
    assert Step(states[i], events[i], oracles[i], states[i + 1]);
    ShutdownDoes(states[i], oracles[i]);
  }

  /** ... so at most one message is delivered in RUNNING. */
  lemma ShutdownOnce(states: seq<State>, events: seq<Event>, oracles: seq<Oracle>, i: nat, j: nat)
    requires IsRun(states, events, oracles) && i < j < |events| && events[i] == events[j] == ShutdownMsg
    ensures !(states[i].st == RUNNING && states[j].st == RUNNING)
  {
    if states[i].st == RUNNING {
      ShutdownEndsRunning(states, events, oracles, i);
      StateNeverDecreases(states, events, oracles, i + 1, j);
    }
  }

  // ---- Starts

  /** The next start is tried when the last one is done: awaited if accepted, the end of the start if refused. */
  lemma StartDoes(s: State, o: Oracle)
    requires Inv(s) && Pending(s, StartDone)
    ensures var s', i := Deliver(s, StartDone, o), s.lib.starting.value + 1;
            && (i == s.cfg.subsystems ==> s'.st == RUNNING && s'.lib.starts == s.lib.starts)
            && (i < s.cfg.subsystems && i !in o.startFails ==>
                  s'.st == s.st && s'.lib.starting == Some(i) && s'.lib.starts == s.lib.starts + [i])
            && (i < s.cfg.subsystems && i in o.startFails ==>
                  s'.st > RUNNING && s'.lib.starting == None && s'.lib.starts == s.lib.starts)
  {
  }

  /** The last group's reply begins the starts in the same way, and runs at once if there is nothing to start. */
  lemma GroupDoes(s: State, g: nat, o: Oracle)
    requires Inv(s) && Pending(s, CreateDone(g))
    ensures Asserts(s, CreateDone(g))
    ensures var s', n := Deliver(s, CreateDone(g), o), s.cfg.subsystems;
            if s.num + 1 < s.cfg.cores then s'.st == s.st && s'.groups == s.groups + [g] && s'.num == s.num + 1
            else if n == 0 then s'.st == RUNNING
            else if 0 in o.startFails then s'.st > RUNNING && s'.lib.starts == []
            else s'.st == INIT_START_SUBSYSTEMS && s'.lib.starting == Some(0) && s'.lib.starts == [0]
  {
    StepKeeps(s, CreateDone(g), o);
    assert Creating(s);
  }

  /** No step records a start that was refused. */
  lemma StartsStep(s: State, e: Event, o: Oracle)
    requires Inv(s) && Pending(s, e) && Asserts(s, e)
    ensures var s' := Deliver(s, e, o);
            s'.lib.starts == s.lib.starts
            || exists m :: m !in o.startFails && s'.lib.starts == s.lib.starts + [m] && s'.lib.starting == Some(m)
  {
    match e
    case StartDone => StartDoes(s, o);
    case CreateDone(g) => GroupStarts(s, g, o);
    case _ =>
  }

  lemma GroupStarts(s: State, g: nat, o: Oracle)
    requires Inv(s) && Pending(s, CreateDone(g)) && Asserts(s, CreateDone(g))
    ensures var s' := Deliver(s, CreateDone(g), o);
            s'.lib.starts == s.lib.starts
            || (0 !in o.startFails && s'.lib.starts == s.lib.starts + [0] && s'.lib.starting == Some(0))
  {
  }

  /** Step `j` had subsystem `m` accepted for start. */
  ghost predicate AcceptedIn(states: seq<State>, oracles: seq<Oracle>, j: nat, m: nat) {
    && j + 1 < |states| && j < |oracles|
    && m !in oracles[j].startFails && states[j + 1].lib.starts == states[j].lib.starts + [m]
  }

  lemma {:induction false} StartsWereAccepted(
    states: seq<State>, events: seq<Event>, oracles: seq<Oracle>, k: nat, m: nat) returns (j: nat)
    requires IsRun(states, events, oracles) && k < |states| && m in states[k].lib.starts
    ensures j < k && AcceptedIn(states, oracles, j, m)
    decreases k
  {
    RunKeeps(states, events, oracles, k);
    assert k > 0;
    var i := k - 1;
    RunKeeps(states, events, oracles, i);
    assert Step(states[i], events[i], oracles[i], states[i + 1]);
    StartsStep(states[i], events[i], oracles[i]);
    if m in states[i].lib.starts {
      j := StartsWereAccepted(states, events, oracles, i, m);
    } else {
      j := i;
    }
  }

  /** RUNNING is reached only after every subsystem's start was accepted by the library, each in a step of its own. */
  lemma RunningMeansStarted(states: seq<State>, events: seq<Event>, oracles: seq<Oracle>, k: nat, m: nat)
    returns (j: nat)
    requires IsRun(states, events, oracles) && k < |states| && states[k].st == RUNNING && m < states[k].cfg.subsystems
    ensures j < k && AcceptedIn(states, oracles, j, m)
  {
    RunKeeps(states, events, oracles, k);
    assert Range(0, states[k].cfg.subsystems)[m] == m;
    j := StartsWereAccepted(states, events, oracles, k, m);
  }

  // ---- Initialisation and teardown

  /** With the RPC server up: the target is built, or what was built of it is taken down. */
  lemma InitDoes(s: State, o: Oracle)
    requires Inv(s) && Pending(s, InitDone(true))
    ensures var s' := Deliver(s, InitDone(true), o);
            match o.create
            case NoTarget => s'.st == FINI_SUBSYSTEM && !s'.tgt && s'.lib.finishing && s'.lib.tgtDestroys == 0
            case NoDiscovery => s'.st == FINI_TARGET && s'.tgt && s'.lib.tgtDying && s'.lib.tgtDestroys == 1
            case TargetReady =>
              s'.st == INIT_POLL_GROUPS && s'.tgt && forall g: nat :: g in s'.lib.creating <==> g < s.cfg.cores
  {
  }

  /**
   When a stop is done, the following ones are tried until one is accepted, which is then
   awaited; if none is, every group is told to go.
   */
  lemma StopDoes(s: State, o: Oracle)
    requires Inv(s) && Pending(s, StopDone) && Asserts(s, StopDone)
    ensures var s', i := Deliver(s, StopDone, o), s.lib.stopping.value + 1;
            if forall j | i <= j < s.cfg.subsystems :: j in o.stopFails then
              s'.st == FINI_POLL_GROUPS && s'.lib.stopping == None && s'.groups == [] && s'.lib.destroySent == s.groups
            else
              && s'.st == FINI_STOP_SUBSYSTEMS && s'.lib.stopping.Some? && s'.groups == s.groups
              && i <= s'.lib.stopping.value < s.cfg.subsystems && s'.lib.stopping.value !in o.stopFails
              && forall j | i <= j < s'.lib.stopping.value :: j in o.stopFails
  {
    assert Stopping(s);
    assert [] + s.groups == s.groups;
  }

  /** The last group's reply has the target destroyed, that the bdev layer finished, and that the reactors exit. */
  lemma EndDoes(s: State, e: Event, o: Oracle)
    requires Inv(s) && Pending(s, e) && Asserts(s, e)
    ensures var s' := Deliver(s, e, o);
            && (e.DestroyDone? ==> s'.num == s.num - 1)
            && (e.DestroyDone? && s.num > 1 ==> s'.st == s.st)
            && (e.DestroyDone? && s.num == 1 ==> s'.st == FINI_TARGET && s'.lib.tgtDying)
            && (e.TargetDestroyed? ==> s'.st == FINI_SUBSYSTEM && s'.lib.finishing && !s'.lib.tgtDying)
            && (e.FiniDone? ==> s'.exit)
            && (e.Signal? ==> s'.intr && s'.st == s.st && s'.lib.shutdowns == s.lib.shutdowns + if s.intr then 0 else 1)
  {
    assert e.DestroyDone? ==> s.st == FINI_POLL_GROUPS && Destroying(s);
  }
}
