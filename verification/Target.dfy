/** The code of nvmf.cc that drives the target, with its loop and its re-entry, against the closed forms. */
module Target {
  import opened Options
  import opened TargetModel

  lemma StopFromRefused(s: State, i: nat, fails: set<nat>)
    requires i < s.cfg.subsystems && i in fails
    ensures StopFrom(s, i, fails) == StopFrom(s.(lib := s.lib.(stops := s.lib.stops + [i])), i + 1, fails)
  {
    var n := s.cfg.subsystems;
    var j := FirstAccepted(i + 1, n, fails);
    var k := if j < n then j + 1 else n;
    assert s.lib.stops + Range(i, k) == s.lib.stops + [i] + Range(i + 1, k);
  }

  lemma StopFromAccepted(s: State, i: nat, fails: set<nat>)
    requires i < s.cfg.subsystems && i !in fails
    ensures StopFrom(s, i, fails) == s.(lib := s.lib.(stops := s.lib.stops + [i], stopping := Some(i)))
  {
    assert Range(i, i + 1) == [i];
  }

  /** Telling the groups to go twice tells each of them once. */
  lemma DestroyGroupsOnce(s: State)
    ensures DestroyGroups(DestroyGroups(s)) == DestroyGroups(s)
  {
    var t := DestroyGroups(s);
    assert t.lib.destroySent + [] == t.lib.destroySent && t.lib.destroying + Elements([]) == t.lib.destroying;
  }

  lemma StopFromEnd(s: State, fails: set<nat>)
    ensures StopFrom(s, s.cfg.subsystems, fails) == DestroyGroups(s)
  {
    var n := s.cfg.subsystems;
    assert s.lib.stops + Range(n, n) == s.lib.stops;
  }

  class NvmfTarget {
    const cfg: Config
    var targetState: nat
    var tgt: bool
    var pollGroups: seq<nat>
    var numPollGroups: nat
    var poller: bool
    var intrReceived: bool
    var reactorsExit: bool
    var lib: Lib

    function Model(): State reads this {
      State(cfg, targetState, tgt, pollGroups, numPollGroups, poller, intrReceived, reactorsExit, lib)
    }

    constructor (cfg: Config)
      ensures Model() == Initial(cfg)
    {
      this.cfg := cfg;
      targetState, tgt, pollGroups, numPollGroups := INIT_SUBSYSTEM, false, [], 0;
      poller, intrReceived, reactorsExit, lib := false, false, false, QUIET_LIB;
    }

    /** `nvmf_create_nvmf_tgt`. */
    method CreateNvmfTgt(o: Oracle)
      modifies this`targetState, this`tgt
      ensures tgt == !o.create.NoTarget?
      ensures targetState == if o.create.TargetReady? then INIT_POLL_GROUPS else FINI_TARGET
    {
      tgt := !o.create.NoTarget?;
      if !tgt {
        targetState := FINI_TARGET;
        return;
      }
      if o.create.NoDiscovery? {
        targetState := FINI_TARGET;
        return;
      }
      targetState := INIT_POLL_GROUPS;
    }

    /** `nvmf_destroy_nvmf_tgt`. */
    method DestroyNvmfTgt()
      modifies this`targetState, this`lib
      ensures tgt ==> targetState == old(targetState)
      ensures tgt ==> lib == old(lib).(tgtDying := true, tgtDestroys := old(lib).tgtDestroys + 1)
      ensures !tgt ==> targetState == FINI_SUBSYSTEM && lib == old(lib)
    {
      if tgt {
        lib := lib.(tgtDying := true, tgtDestroys := lib.tgtDestroys + 1);
      } else {
        targetState := FINI_SUBSYSTEM;
      }
    }

    /** `nvmf_poll_groups_create`: one message per core. */
    method PollGroupsCreate()
      modifies this`lib
      ensures lib == old(lib).(creating := old(lib).creating + Upto(cfg.cores))
    {
      for i := 0 to cfg.cores
        invariant lib == old(lib).(creating := old(lib).creating + Upto(i))
      {
        lib := lib.(creating := lib.creating + {i});
        assert Upto(i + 1) == Upto(i) + {i};
      }
    }

    /** `nvmf_poll_groups_destroy`: every listed group is unlinked and told to go. */
    method PollGroupsDestroy()
      requires targetState == FINI_POLL_GROUPS
      modifies this`pollGroups, this`lib
      ensures Model() == DestroyGroups(old(Model()))
    {
      ghost var sent := 0;
      while pollGroups != []
        invariant 0 <= sent <= |old(pollGroups)| && pollGroups == old(pollGroups)[sent..]
        invariant lib == old(lib).(destroySent := old(lib).destroySent + old(pollGroups)[..sent],
                                   destroying := old(lib).destroying + Elements(old(pollGroups)[..sent]))
        decreases |pollGroups|
      {
        var pg := pollGroups[0];
        pollGroups := pollGroups[1..];
        lib := lib.(destroySent := lib.destroySent + [pg], destroying := lib.destroying + {pg});
        assert old(pollGroups)[..sent + 1] == old(pollGroups)[..sent] + [pg];
        sent := sent + 1;
      }
      assert old(pollGroups)[..sent] == old(pollGroups);
    }

    /** `nvmf_tgt_subsystem_stop_next` after subsystem `i`. */
    method SubsystemStopNext(i: nat, o: Oracle)
      requires targetState == FINI_STOP_SUBSYSTEMS && i < cfg.subsystems
      modifies this
      ensures Model() == StopFrom(old(Model()), i + 1, o.stopFails)
      decreases 9 - targetState, cfg.subsystems - i
    {
      var next := i + 1;
      if next < cfg.subsystems {
        lib := lib.(stops := lib.stops + [next]);
        if next in o.stopFails {
          StopFromRefused(old(Model()), next, o.stopFails);
          SubsystemStopNext(next, o);
        } else {
          StopFromAccepted(old(Model()), next, o.stopFails);
          lib := lib.(stopping := Some(next));
        }
        return;
      }
      StopFromEnd(old(Model()), o.stopFails);
      targetState := FINI_POLL_GROUPS;
      AdvanceState(o);
    }

    /** `nvmf_tgt_stop_subsystems`. */
    method StopSubsystems(o: Oracle)
      requires targetState == FINI_STOP_SUBSYSTEMS
      modifies this
      ensures cfg.subsystems > 0 ==> Model() == StopFrom(old(Model()), 0, o.stopFails)
      ensures cfg.subsystems == 0 ==> Model() == old(Model()).(st := FINI_POLL_GROUPS)
      decreases 9 - targetState, cfg.subsystems + 1
    {
      if 0 < cfg.subsystems {
        lib := lib.(stops := lib.stops + [0]);
        if 0 in o.stopFails {
          StopFromRefused(old(Model()), 0, o.stopFails);
          SubsystemStopNext(0, o);
        } else {
          StopFromAccepted(old(Model()), 0, o.stopFails);
          lib := lib.(stopping := Some(0));
        }
      } else {
        targetState := FINI_POLL_GROUPS;
      }
    }

    /** `nvmf_tgt_start_subsystems`. */
    method StartSubsystems(o: Oracle)
      requires targetState == INIT_START_SUBSYSTEMS
      modifies this`targetState, this`lib
      ensures targetState == if cfg.subsystems == 0 then RUNNING
                             else if 0 in o.startFails then FINI_STOP_SUBSYSTEMS else old(targetState)
      ensures lib == if cfg.subsystems == 0 || 0 in o.startFails then old(lib) else AcceptStart(old(Model()), 0).lib
    {
      if 0 < cfg.subsystems {
        if 0 in o.startFails {
          targetState := FINI_STOP_SUBSYSTEMS;
        } else {
          lib := lib.(starts := lib.starts + [0], starting := Some(0));
        }
      } else {
        targetState := RUNNING;
      }
    }

    /** The teardown branch: the poller is unregistered and the stop chain begun. */
    method StopPhase(o: Oracle)
      requires targetState == FINI_STOP_SUBSYSTEMS
      modifies this
      ensures targetState == FINI_STOP_SUBSYSTEMS || targetState == FINI_POLL_GROUPS
      ensures targetState == FINI_STOP_SUBSYSTEMS ==> Model() == StopAll(old(Model()), o)
      ensures targetState == FINI_POLL_GROUPS ==> DestroyGroups(Model()) == StopAll(old(Model()), o)
      decreases 9 - targetState, cfg.subsystems + 2
    {
      poller := false;
      ghost var here := Model();
      StopSubsystems(o);
      if cfg.subsystems == 0 {
        StopFromEnd(here, o.stopFails);
      } else if targetState == FINI_POLL_GROUPS {
        DestroyGroupsOnce(here.(lib := here.lib.(stops := here.lib.stops + Range(0, cfg.subsystems))));
      }
    }

    /** One round of the switch in `nvmf_target_advance_state`, in the initialisation states. */
    method DispatchInit(o: Oracle)
      requires targetState < RUNNING
      modifies this
      ensures old(targetState) <= targetState <= FINI_SUBSYSTEM
      ensures targetState == old(targetState) ==> Model() == Advance(old(Model()), o)
      ensures targetState != old(targetState) ==> Advance(Model(), o) == Advance(old(Model()), o)
    {
      if targetState == INIT_SUBSYSTEM {
        lib := lib.(initing := true);
      } else if targetState == INIT_TARGET {
        CreateNvmfTgt(o);
      } else if targetState == INIT_POLL_GROUPS {
        PollGroupsCreate();
      } else {
        StartSubsystems(o);
      }
    }

    /** The same from the running state on. */
    method DispatchFini(o: Oracle)
      requires RUNNING <= targetState <= FINI_SUBSYSTEM
      modifies this
      ensures old(targetState) <= targetState <= FINI_SUBSYSTEM
      ensures targetState == old(targetState) ==> Model() == Advance(old(Model()), o)
      ensures targetState != old(targetState) ==> Advance(Model(), o) == Advance(old(Model()), o)
      decreases 9 - targetState, cfg.subsystems + 3
    {
      if targetState == RUNNING {
        if cfg.period != 0 {
          poller := true;
        }
      } else if targetState == FINI_STOP_SUBSYSTEMS {
        StopPhase(o);
      } else if targetState == FINI_POLL_GROUPS {
        PollGroupsDestroy();
      } else if targetState == FINI_TARGET {
        DestroyNvmfTgt();
      } else {
        lib := lib.(finishing := true, finis := lib.finis + 1);
      }
    }

    /**
     `nvmf_target_advance_state`. A refused stop runs the rest of the chain inside this
     loop and calls it again; the method still terminates and does what the flat
     description says, each poll group being told to go once.
     */
    method AdvanceState(o: Oracle)
      requires targetState <= FINI_SUBSYSTEM
      modifies this
      ensures Model() == Advance(old(Model()), o)
      decreases 9 - targetState, cfg.subsystems + 4
    {
      ghost var final := Advance(Model(), o);
      while true
        invariant old(targetState) <= targetState <= FINI_SUBSYSTEM
        invariant Advance(Model(), o) == final
        decreases 9 - targetState
      {
        var prev := targetState;
        if targetState < RUNNING {
          DispatchInit(o);
        } else {
          DispatchFini(o);
        }
        if targetState == prev {
          return;
        }
      }
    }

    /** `nvmf_target_app_start`: the initialisation of the bdev layer is asked for, and nothing else. */
    method AppStart(o: Oracle)
      modifies this
      ensures Model() == old(Model()).(st := INIT_SUBSYSTEM, lib := old(lib).(initing := true))
    {
      targetState := INIT_SUBSYSTEM;
      AdvanceState(o);
    }

    /** `migrate_poll_groups_by_rr`: each listed group is sent one migration message. */
    method MigratePollGroupsByRr() returns (sent: seq<nat>)
      ensures sent == pollGroups
    {
      sent := [];
      for i := 0 to |pollGroups|
        invariant sent == pollGroups[..i]
      {
        sent := sent + [pollGroups[i]];
      }
    }

    // ---- The callbacks

    /** `nvmf_subsystem_init_done`. */
    method SubsystemInitDone(rpcOk: bool, o: Oracle)
      modifies this
      ensures !rpcOk ==> Model() == old(Model())
      ensures rpcOk ==> Model() == Advance(old(Model()).(st := INIT_TARGET), o)
    {
      if !rpcOk {
        return;
      }
      targetState := INIT_TARGET;
      AdvanceState(o);
    }

    /** `nvmf_tgt_create_poll_groups_done`. */
    method CreatePollGroupsDone(pg: nat, o: Oracle)
      requires numPollGroups < cfg.cores
      modifies this
      ensures Model() == CountCreated(old(Model()), pg, o)
    {
      pollGroups := pollGroups + [pg];
      numPollGroups := numPollGroups + 1;
      if numPollGroups == cfg.cores {
        targetState := INIT_START_SUBSYSTEMS;
        AdvanceState(o);
      }
    }

    /** `nvmf_tgt_subsystem_start_next` after subsystem `i`. */
    method SubsystemStartNext(i: nat, o: Oracle)
      modifies this
      ensures Model() == StartNext(old(Model()), i, o)
      ensures i + 1 >= cfg.subsystems ==> targetState == RUNNING && lib == old(lib)
      ensures i + 1 < cfg.subsystems && i + 1 !in o.startFails ==>
                && targetState == old(targetState)
                && lib.starting == Some(i + 1) && lib.starts == old(lib.starts) + [i + 1]
      ensures i + 1 < cfg.subsystems && i + 1 in o.startFails ==>
                targetState > RUNNING && lib.starting == old(lib.starting) && lib.starts == old(lib.starts)
    {
      var next := i + 1;
      if next < cfg.subsystems {
        if next in o.startFails {
          targetState := FINI_STOP_SUBSYSTEMS;
          AdvanceState(o);
        } else {
          lib := lib.(starts := lib.starts + [next], starting := Some(next));
        }
        return;
      }
      targetState := RUNNING;
      AdvanceState(o);
    }

    /** `_nvmf_tgt_destroy_poll_groups_done`. */
    method DestroyPollGroupsDone(o: Oracle)
      requires numPollGroups > 0
      modifies this
      ensures Model() == CountDestroyed(old(Model()), o)
    {
      numPollGroups := numPollGroups - 1;
      if numPollGroups == 0 {
        targetState := FINI_TARGET;
        AdvanceState(o);
      }
    }

    /** `nvmf_tgt_destroy_done`. */
    method TgtDestroyDone(o: Oracle)
      modifies this
      ensures Model() == Finish(old(Model()))
    {
      targetState := FINI_SUBSYSTEM;
      AdvanceState(o);
    }

    /** `nvmf_shutdown_cb`: only the first signal sends a message. */
    method ShutdownCb()
      modifies this`intrReceived, this`lib
      ensures intrReceived
      ensures lib == if old(intrReceived) then old(lib) else old(lib).(shutdowns := old(lib).shutdowns + 1)
    {
      if !intrReceived {
        intrReceived := true;
        lib := lib.(shutdowns := lib.shutdowns + 1);
      }
    }

    /** `_nvmf_shutdown_cb`. */
    method ShutdownMessage(o: Oracle)
      modifies this
      ensures Model() == Shutdown(old(Model()), o)
      ensures old(targetState) < RUNNING ==> targetState == old(targetState) && lib.shutdowns == old(lib.shutdowns) + 1
      ensures old(targetState) > RUNNING ==> Model() == old(Model())
      ensures old(targetState) == RUNNING ==> targetState > RUNNING && !poller && lib.shutdowns == old(lib.shutdowns)
    {
      if targetState < RUNNING {
        lib := lib.(shutdowns := lib.shutdowns + 1);
        return;
      } else if targetState > RUNNING {
        return;
      }
      targetState := FINI_STOP_SUBSYSTEMS;
      AdvanceState(o);
    }

    /** The library delivers one of the callbacks or messages of the initialisation. */
    method InitCallback(e: Event, o: Oracle)
      requires Pending(Model(), e) && Asserts(Model(), e)
      requires e.InitDone? || e.CreateGroup? || e.CreateDone? || e.StartDone?
      modifies this
      ensures Model() == Deliver(old(Model()), e, o)
    {
      match e
      case InitDone(rpcOk) =>
        lib := lib.(initing := false);
        SubsystemInitDone(rpcOk, o);
      case CreateGroup(g) =>
        lib := lib.(creating := lib.creating - {g}, created := lib.created + {g});
      case CreateDone(g) =>
        lib := lib.(created := lib.created - {g});
        CreatePollGroupsDone(g, o);
      case StartDone =>
        var i := lib.starting.value;
        lib := lib.(starting := None);
        SubsystemStartNext(i, o);
    }

    /** The library delivers one of the callbacks or messages of the teardown, or a signal. */
    method FiniCallback(e: Event, o: Oracle)
      requires Pending(Model(), e) && Asserts(Model(), e)
      requires !(e.InitDone? || e.CreateGroup? || e.CreateDone? || e.StartDone?)
      requires e.StopDone? ==> targetState == FINI_STOP_SUBSYSTEMS
      modifies this
      ensures Model() == Deliver(old(Model()), e, o)
    {
      match e
      case StopDone =>
        var i := lib.stopping.value;
        lib := lib.(stopping := None);
        SubsystemStopNext(i, o);
      case DestroyGroup(g) =>
        lib := lib.(destroying := lib.destroying - {g}, gone := lib.gone + 1);
      case DestroyDone =>
        lib := lib.(gone := lib.gone - 1);
        DestroyPollGroupsDone(o);
      case TargetDestroyed =>
        lib := lib.(tgtDying := false);
        TgtDestroyDone(o);
      case FiniDone =>
        lib := lib.(finishing := false);
        reactorsExit := true;
      case Signal =>
        ShutdownCb();
      case ShutdownMsg =>
        lib := lib.(shutdowns := lib.shutdowns - 1);
        ShutdownMessage(o);
    }
  }
}
