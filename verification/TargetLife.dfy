/** How long the target lives, how its life ends, and when it hangs. */
module TargetLife {
  import opened Options
  import opened TargetModel
  import opened TargetRuns

  /** A bound on the number of callbacks the library can still deliver. */
  function Rank(s: State): nat {
    var n, c := s.cfg.subsystems, s.cfg.cores;
    if s.st == FINI_SUBSYSTEM then if s.exit then 0 else 1
    else if s.st == FINI_TARGET then 2
    else if s.st == FINI_POLL_GROUPS then 2 + 2 * |s.lib.destroying| + s.lib.gone
    else if s.st == FINI_STOP_SUBSYSTEMS then
      3 + 2 * c + if s.lib.stopping.Some? && s.lib.stopping.value < n then n - s.lib.stopping.value else 0
    else if s.st == RUNNING then 4 + 2 * c + n
    else if s.st == INIT_START_SUBSYSTEMS then
      5 + 2 * c + n + if s.lib.starting.Some? && s.lib.starting.value < n then n - s.lib.starting.value else 0
    else if s.st == INIT_POLL_GROUPS then 6 + 2 * c + 2 * n + 2 * |s.lib.creating| + |s.lib.created|
    else if s.lib.initing then 7 + 4 * c + 2 * n
    else 0
  }

  predicate IsCallback(e: Event) { !e.Signal? && !e.ShutdownMsg? }

  /** Once the stop chain has been entered at `i`, little is left to do. */
  lemma StopRank(s: State, i: nat, fails: set<nat>)
    requires s.st == FINI_STOP_SUBSYSTEMS && i <= s.cfg.subsystems && Full(s)
    ensures Rank(StopFrom(s, i, fails)) <= 3 + 2 * s.cfg.cores + s.cfg.subsystems - i
  {
    ElementsSize(s.groups);
    assert {} + Elements(s.groups) == Elements(s.groups);
  }

  lemma InitDoneRanks(s: State, rpcOk: bool, o: Oracle)
    requires Inv(s) && Pending(s, InitDone(rpcOk))
    ensures Rank(Deliver(s, InitDone(rpcOk), o)) < Rank(s)
  {
    UptoSize(s.cfg.cores);
    assert {} + Upto(s.cfg.cores) == Upto(s.cfg.cores);
  }

  lemma CreateGroupRanks(s: State, g: nat, o: Oracle)
    requires Inv(s) && Pending(s, CreateGroup(g))
    ensures Rank(Deliver(s, CreateGroup(g), o)) < Rank(s)
  {
    assert |s.lib.creating - {g}| == |s.lib.creating| - 1;
    assert |s.lib.created + {g}| == |s.lib.created| + 1;
  }

  lemma StartDoneRanks(s: State, o: Oracle)
    requires Inv(s) && Pending(s, StartDone)
    ensures Rank(Deliver(s, StartDone, o)) < Rank(s)
  {
    var s1 := s.(lib := s.lib.(starting := None));
    StopRank(s1.(st := FINI_STOP_SUBSYSTEMS, poller := false), 0, o.stopFails);
  }

  lemma CreateDoneRanks(s: State, g: nat, o: Oracle)
    requires Inv(s) && Pending(s, CreateDone(g)) && Asserts(s, CreateDone(g))
    ensures Rank(Deliver(s, CreateDone(g), o)) < Rank(s)
  {
    GroupCounted(s, g);
    assert |s.lib.created - {g}| == |s.lib.created| - 1;
    var s1 := s.(groups := s.groups + [g], num := s.num + 1, lib := s.lib.(created := s.lib.created - {g}));
    if s1.num == s.cfg.cores {
      FullRanks(s1.(st := INIT_START_SUBSYSTEMS), o);
    }
  }

  lemma FullRanks(s: State, o: Oracle)
    requires s.st == INIT_START_SUBSYSTEMS && Full(s)
    ensures Rank(Advance(s, o)) <= 5 + 2 * s.cfg.cores + 2 * s.cfg.subsystems
  {
    StopRank(s.(st := FINI_STOP_SUBSYSTEMS, poller := false), 0, o.stopFails);
  }

  lemma FiniRanks(s: State, e: Event, o: Oracle)
    requires Inv(s) && Pending(s, e) && Asserts(s, e)
    requires e.StopDone? || e.DestroyGroup? || e.DestroyDone? || e.TargetDestroyed? || e.FiniDone?
    ensures Rank(Deliver(s, e, o)) < Rank(s)
  {
    match e
    case StopDone =>
      StopRank(s.(lib := s.lib.(stopping := None)), s.lib.stopping.value + 1, o.stopFails);
    case DestroyGroup(g) =>
      assert |s.lib.destroying - {g}| == |s.lib.destroying| - 1;
    case _ =>
  }

  /** Every callback uses up rank, as does the shutdown that ends RUNNING; signals and other messages add none. */
  lemma CallbacksRunOut(s: State, e: Event, o: Oracle)
    requires Inv(s) && Pending(s, e) && Asserts(s, e)
    ensures IsCallback(e) || (e.ShutdownMsg? && s.st == RUNNING) ==> Rank(Deliver(s, e, o)) < Rank(s)
    ensures !IsCallback(e) ==> Rank(Deliver(s, e, o)) <= Rank(s)
  {
    match e
    case InitDone(rpcOk) => InitDoneRanks(s, rpcOk, o);
    case CreateGroup(g) => CreateGroupRanks(s, g, o);
    case CreateDone(g) => CreateDoneRanks(s, g, o);
    case StartDone => StartDoneRanks(s, o);
    case Signal =>
    case ShutdownMsg =>
      if s.st == RUNNING {
        var s1 := s.(lib := s.lib.(shutdowns := s.lib.shutdowns - 1));
        StopRank(s1.(st := FINI_STOP_SUBSYSTEMS, poller := false), 0, o.stopFails);
      }
    case _ => FiniRanks(s, e, o);
  }

  /** The bdev layer is up, the RPC server is not, and nothing is under way. */
  ghost predicate Hung(s: State) { s.st == INIT_SUBSYSTEM && !s.lib.initing }

  /**
   Except in RUNNING, where only a shutdown message moves the target on, a callback is
   owed as long as rank is left, and nothing is owed exactly when the reactors have been
   told to exit or the target hangs.
   */
  lemma NeverStuck(s: State)
    requires Inv(s)
    ensures s.st != RUNNING ==> (Rank(s) > 0 <==> exists e :: Pending(s, e) && IsCallback(e))
    ensures s.st == RUNNING ==> forall e | Pending(s, e) :: !IsCallback(e)
    ensures s.st != RUNNING ==> (Rank(s) == 0 <==> s.exit || Hung(s))
    ensures !(s.exit && Hung(s))
  {
    if s.st == INIT_SUBSYSTEM {
      assert s.lib.initing ==> Pending(s, InitDone(true));
    } else if s.st == INIT_POLL_GROUPS {
      if s.lib.creating != {} {
        var g :| g in s.lib.creating;
        assert Pending(s, CreateGroup(g));
      } else {
        assert s.lib.created != {};
        var g :| g in s.lib.created;
        assert Pending(s, CreateDone(g));
      }
    } else if s.st == INIT_START_SUBSYSTEMS {
      assert Pending(s, StartDone);
    } else if s.st == FINI_STOP_SUBSYSTEMS {
      assert Pending(s, StopDone);
    } else if s.st == FINI_POLL_GROUPS {
      if s.lib.destroying != {} {
        var g :| g in s.lib.destroying;
        assert Pending(s, DestroyGroup(g));
      } else {
        assert Pending(s, DestroyDone);
      }
    } else if s.st == FINI_TARGET {
      assert Pending(s, TargetDestroyed);
    } else if s.st == FINI_SUBSYSTEM {
      assert !s.exit ==> Pending(s, FiniDone);
    }
  }

  function Callbacks(events: seq<Event>): nat {
    if events == [] then 0
    else Callbacks(events[..|events| - 1]) + if IsCallback(events[|events| - 1]) then 1 else 0
  }

  lemma {:induction false} RankLeft(states: seq<State>, events: seq<Event>, oracles: seq<Oracle>, i: nat)
    requires IsRun(states, events, oracles) && i < |states|
    ensures Callbacks(events[..i]) + Rank(states[i]) <= Rank(states[0])
  {
    if i > 0 {
      RankLeft(states, events, oracles, i - 1);
      RunKeeps(states, events, oracles, i - 1);
      assert Step(states[i - 1], events[i - 1], oracles[i - 1], states[i]);
      CallbacksRunOut(states[i - 1], events[i - 1], oracles[i - 1]);
      assert events[..i][..i - 1] == events[..i - 1];
    }
  }

  // ---- The hang

  /** Whatever is delivered to a hung target, it stays so; the shutdown message only sends itself again. */
  lemma HungStays(s: State, e: Event, o: Oracle)
    requires Inv(s) && Hung(s) && Pending(s, e) && Asserts(s, e)
    ensures Hung(Deliver(s, e, o)) && !Deliver(s, e, o).exit
    ensures e.ShutdownMsg? ==> Deliver(s, e, o) == s
  {
  }

  /** A target that does not hang comes to hang exactly by a failed start of the RPC server. */
  lemma HangBegins(s: State, e: Event, o: Oracle)
    requires Inv(s) && !Hung(s) && Pending(s, e) && Asserts(s, e)
    ensures Hung(Deliver(s, e, o)) <==> e == InitDone(false)
  {
    StepAdvances(s, e, o);
    StepKeeps(s, e, o);
    if s.st > INIT_SUBSYSTEM {
      assert !e.InitDone?;
    }
  }

  /** In every run the target hangs exactly after a failed start of the RPC server. */
  lemma {:induction false} HungExactly(states: seq<State>, events: seq<Event>, oracles: seq<Oracle>, i: nat)
    requires IsRun(states, events, oracles) && i < |states|
    ensures Hung(states[i]) <==> InitDone(false) in events[..i]
    ensures Hung(states[i]) ==> !states[i].exit
  {
    RunKeeps(states, events, oracles, i);
    if i > 0 {
      HungExactly(states, events, oracles, i - 1);
      RunKeeps(states, events, oracles, i - 1);
      var s, e, o := states[i - 1], events[i - 1], oracles[i - 1];
      assert Step(s, e, o, states[i]);
      assert events[..i] == events[..i - 1] + [e];
      if Hung(s) {
        HungStays(s, e, o);
      } else {
        HangBegins(s, e, o);
      }
    }
  }

  /** Any target can be brought to hang with a shutdown asked for that is never carried out. */
  lemma RpcFailureHangs(cfg: Config, o: Oracle) returns (states: seq<State>, events: seq<Event>, oracles: seq<Oracle>)
    requires cfg.cores > 0
    ensures IsRun(states, events, oracles) && states[0].cfg == cfg
    ensures Hung(states[|events|]) && states[|events|].intr && Pending(states[|events|], ShutdownMsg)
  {
    var s := Begin(cfg, true);
    assert Step(s, InitDone(false), o, Deliver(s, InitDone(false), o));
    states, events, oracles := [s, Deliver(s, InitDone(false), o)], [InitDone(false)], [o];
  }

  /**
   A whole life of the target takes at most seven callbacks, four per core and two per
   subsystem. When none is owed any more, outside RUNNING, the reactors have been told to
   exit exactly if the RPC server was never refused; if it was, they never are.
   */
  lemma LifeIsBounded(states: seq<State>, events: seq<Event>, oracles: seq<Oracle>)
    requires IsRun(states, events, oracles)
    ensures Callbacks(events) <= 7 + 4 * states[0].cfg.cores + 2 * states[0].cfg.subsystems
    ensures var s := states[|events|];
            && (InitDone(false) in events ==> Hung(s) && !s.exit)
            && (s.st != RUNNING && (forall e | Pending(s, e) :: !IsCallback(e))
                ==> (s.exit <==> InitDone(false) !in events))
  {
    RankLeft(states, events, oracles, |events|);
    assert events[..|events|] == events;
    RunKeeps(states, events, oracles, |events|);
    NeverStuck(states[|events|]);
    HungExactly(states, events, oracles, |events|);
  }
}
