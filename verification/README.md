# A verified model of the repository's protocols and schedulers

Most of the repository drives storage devices for measurements. Five of its programs hold logic of their own
that is hard to get right, and this project models those and proves what they are for:

- `examples/zookeeper/zklock.cc` and `examples/zookeeper/zkleader.cc`: a lock and a leader election over
  ephemeral sequential znodes;
- `examples/nvmf.cc`: reactors that run lightweight threads from FIFO rings, place and migrate them, and the
  nine-state life of an NVMe-oF target;
- `examples/arbitration/arbitration_read.cc`: a closed-loop read engine over a shared task pool, with latency
  statistics;
- `examples/multipath/verification.cc`: the same engine appending to a zone and reading every append back.

Each program is there twice. Its code is a class whose methods update the fields the source updates, loop where
the source loops and are proved against specification functions. The same functions, together with what the
environment may do, make a step relation; the theorems are about every run of it: any number of clients, of
reactors and threads, of subsystems, of contexts of the read engine; every interleaving, every order of
completion, every failure the source handles. verification.cc is modelled with the one context its
`associate_workers_with_ns` makes. `dafny verify dfyconfig.toml` checks all of it.

| files | subject |
|---|---|
| `Options.dfy`, `Trails.dfy`, `TaskPools.dfy`, `Arithmetic.dfy`, `Decimal.dfy` | shared notions; numerals as `std::to_string`, `sscanf` and `std::string::operator<` treat them |
| `ZkSearch.dfy`, `ZkLock.dfy`, `ZkLeader.dfy`, `ZkClients.dfy` | the two predecessor searches, the callbacks, the protocol clients they stand for |
| `ZkProtocol.dfy`, `ZkSafety.dfy`, `ZkRuns.dfy`, `ZkOrder.dfy` | server, clients, the invariant, the theorems over runs |
| `ZkPaths.dfy`, `ZkHarmless.dfy`, `ZkExclusion.dfy` | continuations of a run, and exactly when exclusion is safe |
| `ZkWaking.dfy`, `ZkLook.dfy`, `ZkHope.dfy`, `ZkConclude.dfy` | exactly which waiters can be woken and which can conclude |
| `ZkRelease.dfy`, `ZkProgress.dfy`, `ZkLimits.dfy` | holders release the lock, exactly when all can get it without a crash; runs that show the limits |
| `Placement.dfy`, `Reactors.dfy`, `ReactorRuns.dfy`, `ReactorOrder.dfy`, `ReactorPaths.dfy`, `ReactorLoop.dfy`, `ReactorLimits.dfy` | placement, reactors side by side, conservation and rotation, what one step does and in what order, the reactor's loops, threads that are lost or left behind |
| `TargetModel.dfy`, `Target.dfy`, `TargetRuns.dfy`, `TargetDuties.dfy`, `TargetLife.dfy` | the target in closed form, its code, the theorems over runs, what each callback has to do, how its life ends |
| `Latency.dfy`, `IoEngine.dfy`, `IoWorker.dfy`, `IoRuns.dfy`, `IoLog.dfy` | the statistics, one context, its code, many contexts on one pool, what they record |
| `ReadBack.dfy`, `VerifyModel.dfy`, `Verifier.dfy`, `VerifyRuns.dfy`, `VerifyLoop.dfy`, `VerifyZones.dfy`, `VerifyOwn.dfy`, `VerifyLimits.dfy` | the patterns, one context, its code, runs against a zoned device, where they pass and where they fail |

## What the environment promises

- ZooKeeper: sequence numbers only grow and are never negative; requests and replies of one session stay in
  order; a watch fires once; a snapshot is the children at the time the request is served and may be handled
  arbitrarily late; a session may expire at any step, taking its znode with it. For zklock.cc, no session event
  is delivered before `main` has issued the create request (`ZkProtocol.Polite`).
- SPDK: accepted starts and stops, messages and destructions complete later, once; refused ones return at once.
  Rings do not overflow and allocation succeeds.
- The devices complete outstanding commands in any order and may refuse any submission. A zone append lands on
  vacant blocks of its zone, as section 3.4.1 of the NVM Express Zoned Namespace Command Set Specification,
  revision 1.1, has it, and the address comes back in the completion; other hosts may append too. The clock
  never runs backwards.

## Where the code falls short

The code is modelled as it is. Where a property one would expect of it is false, there is a run that shows it
and the exact condition under which it holds.

- Mutual exclusion. A session event handled before zklock.cc has stored its own number matches the empty watch
  name and lets the client judge a snapshot by number 0: two clients hold the lock, and one asks for the other's
  znode to be deleted (`ZkLimits.EarlySessionEventBreaksExclusion`). A run is safe, in that none of its states has a
  polite continuation into a violation, exactly when each such early event finds its client's session closed or
  the client without a rival, present or to come (`ZkExclusion.ExclusionExactly`).
- Wake-up. Both programs ignore an `exists` call that finds no node, and the waiter may then sleep for ever, even
  as the only client left (`ZkLimits.MissedPredecessorStrands`). A waiter can be brought to look at the children
  again exactly when it is wakeable (`ZkLook.WakeableExactly`), and can still become the holder exactly when going
  through its inbox leads it to a conclusion, a children request or a live watched node
  (`ZkConclude.ConcludesExactly`). All that hold a znode can get the lock one after the other, without any session
  ending, exactly when each has had it or has that hope (`ZkProgress.ProgressExactly`).
- Strict FIFO order. A client may conclude twice with the same znode (`ZkLimits.ConcludesTwice`), so the order of
  granting is strict exactly for first conclusions (`ZkOrder.FirstClaimsAreStrict`).
- Threads. One whose mask has no reactor when it is placed is in no ring ever after
  (`ReactorLimits.AskingForNothingLoses`, `ReactorRuns.LostExactly`, `ReactorRuns.LostForever`); one that the scheduler
  places on a reactor that has finished stays in its ring, neither run nor destroyed (`ReactorLimits.LeftBehind`).
  When all reactors have finished every thread is destroyed or lost exactly if no step placed one so
  (`ReactorLimits.AllGoneExactly`).
- The target's end. If the RPC server cannot be started the target hangs for ever, and a shutdown message only
  sends itself again (`TargetLife.RpcFailureHangs`); with nothing owed and the target not running, the reactors
  have been told to exit exactly if that never happened (`TargetLife.LifeIsBounded`).
- Refused reads. In arbitration_read.cc they keep their task and their start time
  (`IoRuns.RefusalShortens`): the pool ends up short, and the latency loop reads past the end of `etimes`, each
  exactly when some submission was refused (`IoRuns.DrainedRun`, `IoEngine.StatisticsInBounds`). verification.cc
  gives the task back but forgets the pair to be read (`VerifyLimits.RefusedReadIsDropped`), once for each
  append that completes before draining while the device refuses its read, and never otherwise
  (`VerifyRuns.ForgottenExactly`).
- The pool. Its size is computed in 32 bits and may overflow (`IoRuns.OverflowStarves`); a run can
  end for want of a task exactly when it is smaller than a queue depth per context (`IoRuns.ExitsExactly`).
- High zones. The 32 bits of the append address that verification.cc keeps are the address exactly in the first
  8192 zones (`ReadBack.AddressExact`); in later zones, on a device that holds nothing else, every verification fails
  (`VerifyLimits.HighZoneFails`, `VerifyZones.PassesExactlyInLowZones`). The program writes to zone 0.

## Model

| member | source | states |
|---|---|---|
| `Decimal.ToStringRoundTrip` | examples/multipath/verification.cc:200-202 | the numeral `std::to_string` writes denotes the number |
| `Decimal.ToString` | examples/multipath/verification.cc:200-202 | ... without leading zeros |
| `Decimal.ScanIntOfPad` | examples/zookeeper/zklock.cc:51 | `sscanf("%d")` reads a zero-padded numeral back to its number |
| `Decimal.PadOrder` | examples/zookeeper/zkleader.cc:34 | lexicographic order of fixed-width numerals is numeric order, both ways |
| `ZkSearch.VerdictOf` | examples/zookeeper/zklock.cc:50-77 | the reference verdict: smallest, or the greatest smaller number |
| `ZkSearch.VerdictUnique` | examples/zookeeper/zklock.cc:50-77 | any answer with that property is the reference verdict |
| `ZkSearch.StoredNumberExact` | examples/zookeeper/zklock.cc:52-62 | the callback's conclusion agrees with the client's own number on every children set exactly when the stored number is that number |
| `ZkSearch.NumberOfName` | examples/zookeeper/zklock.cc:51 | the scan recovers the sequence number from a znode's name |
| `ZkSearch.NameOrder` | examples/zookeeper/zkleader.cc:34 | names compare as their numbers do |
| `ZkSearch.NumbersOfListing` | examples/zookeeper/zklock.cc:50-51 | scanning a listing in any order yields exactly the numbers of its znodes |
| `ZkLock.LockClient.OnCreate` | examples/zookeeper/zklock.cc:85-107 | stores the number in the created path; number 0 deletes that path at once, any other asks for the children; a failed create changes nothing |
| `ZkLock.LockClient.OnChildren` | examples/zookeeper/zklock.cc:40-79 | one pass over the children in any order: nobody smaller deletes the path of the name that scans to the own number; otherwise the path of the greatest smaller number is watched; the request is the reference one |
| `ZkLock.LockClient.Scan` | examples/zookeeper/zklock.cc:50-65 | the loop ends with the reference verdict on the scanned numbers, in whatever order they come, and with the names that carry it |
| `ZkLock.ScanIsLockAction` | examples/zookeeper/zklock.cc:50-77 | what the scan kept, written as a path, is the reference request |
| `ZkLeader.SortSorts` | examples/zookeeper/zkleader.cc:34 | the sorted vector is in lexicographic order |
| `ZkLeader.SortKeeps` | examples/zookeeper/zkleader.cc:31-34 | sorting neither adds nor loses a name |
| `ZkLeader.BeforeFirst` | examples/zookeeper/zkleader.cc:37-44 | in a sorted vector the element before the first occurrence is the greatest one below |
| `ZkLeader.SortVerdict` | examples/zookeeper/zkleader.cc:37-48 | own name first exactly when its number is smallest; otherwise the name before it is that of the greatest smaller number |
| `ZkLeader.SortIsLeaderAction` | examples/zookeeper/zkleader.cc:37-48 | sort, find and prev make the reference decision, own name present or not |
| `ZkLeader.SortDecides` | examples/zookeeper/zkleader.cc:37-48 | on any children at all: leading if the own name is listed first or nothing is listed, else the name just before the own one, or the last if the own one is missing |
| `ZkLeader.SearchesAgree` | examples/zookeeper/zkleader.cc:29-48 | on any two listings of the same znodes the numeric scan and the sort come to the same verdict and the same predecessor |
| `ZkLeader.LeaderClient.CheckLeadership` | examples/zookeeper/zkleader.cc:20-49 | decides so on any children, which on a listing is the reference decision; the predecessor changes only when one is watched; a failed listing does nothing |
| `ZkClients.WatchPathExact` | examples/zookeeper/zklock.cc:116 | comparing paths tells exactly whether the deleted node is the watched one |
| `ZkClients.LockCreated` | examples/zookeeper/zklock.cc:85-107 | the create completion leaves the globals, and makes the request, of the protocol client it stands for |
| `ZkClients.LockSnapshot` | examples/zookeeper/zklock.cc:40-79 | so does the children callback on any listing of a snapshot |
| `ZkClients.LockNodeGone` | examples/zookeeper/zklock.cc:113-124 | so does the watcher on a deletion |
| `ZkClients.LockSession` | examples/zookeeper/zklock.cc:113-124 | so does the watcher on a session event, whose path is empty |
| `ZkClients.LockDeleted` | examples/zookeeper/zklock.cc:21-25 | so does the delete completion |
| `ZkClients.LeaderCreated` | examples/zookeeper/zkleader.cc:72-86 | the same for the node creation of the election |
| `ZkClients.LeaderSnapshot` | examples/zookeeper/zkleader.cc:20-49 | ... its look at the children |
| `ZkClients.LeaderNodeGone` | examples/zookeeper/zkleader.cc:51-59 | ... its watcher on a deletion |
| `ZkClients.LeaderSession` | examples/zookeeper/zkleader.cc:51-59 | ... and on a session event, which it ignores |
| `ZkSafety.ServeExistsKeeps` | examples/zookeeper/zklock.cc:73-77 | arming a watch late, or finding no node, keeps the invariant |
| `ZkSafety.DeliverCreatedKeeps` | examples/zookeeper/zklock.cc:85-107 | storing the number, with the shortcut for 0, keeps the invariant |
| `ZkSafety.DeliverSnapshotKeeps` | examples/zookeeper/zklock.cc:40-79 | handling a snapshot, however late, keeps the invariant |
| `ZkRuns.StepKeeps` | examples/zookeeper/zklock.cc:21-124 | every step of any client, the server or a crash keeps the invariant |
| `ZkRuns.RunKeeps` | examples/zookeeper/zklock.cc:21-124 | the invariant holds throughout every run |
| `ZkRuns.MutualExclusionHolds` | examples/zookeeper/zklock.cc:67-72 | in every state of every run at most one client that has concluded it is smallest still has its znode, and that znode is the smallest |
| `ZkRuns.NoHerdHolds` | examples/zookeeper/zklock.cc:73-77 | no two clients with live znodes watch the same predecessor |
| `ZkRuns.FifoHolds` | examples/zookeeper/zklock.cc:67-77 | conclusions reached with a live znode come in the order of the sequence numbers, strictly between different clients, and the record of them only grows |
| `ZkOrder.FirstClaimsAreStrict` | examples/zookeeper/zklock.cc:67-107 | such a conclusion has a number greater than all before exactly when it is the client's first |
| `ZkRuns.NoLostWakeUpHolds` | examples/zookeeper/zkleader.cc:20-59 | as long as its `exists` calls, past and under way, find their nodes, a waiter always has a live watched predecessor, a notice of its deletion, a children request, a snapshot or a request for a live node under way |
| `ZkRuns.DeletesOnlyItsOwn` | examples/zookeeper/zklock.cc:69-72 | a client asks for no znode but its own to be deleted |
| `ZkOrder.CreationDoes` | examples/zookeeper/zklock.cc:85-107 | delivering the create completion with number 0 concludes in that very step, on record and with the deletion asked for; any other number asks for the children |
| `ZkWaking.RunAims` | examples/zookeeper/zklock.cc:73-77 | a watched name that is alive is being watched or is about to be, and deletions are asked for only after a conclusion |
| `ZkWaking.StrandedForever` | examples/zookeeper/zklock.cc:31-34 | a waiter whose watched node has gone, with no notice of it, no children request and no snapshot under way, stays so and concludes nothing on any continuation |
| `ZkLook.WakeableExactly` | examples/zookeeper/zkleader.cc:43-58 | in every state of every run a waiter has a continuation in which it looks at the children again exactly when it is wakeable, and is stranded exactly when it is not |
| `ZkHope.HopelessForever` | examples/zookeeper/zklock.cc:31-79 | a waiter whose inbox leads to no conclusion, no children request and no live watched node never gets one, on any continuation |
| `ZkConclude.ConcludesExactly` | examples/zookeeper/zklock.cc:40-124 | in every state of every run a waiter has a continuation that makes it the holder exactly when its inbox leads to one of these |
| `ZkRelease.RunSound` | examples/zookeeper/zklock.cc:67-72 | in every state of every run a holder of the lock with a live znode has asked for its deletion, and its number is on record |
| `ZkProgress.ProgressExactly` | examples/zookeeper/zklock.cc:40-107 | in every state of every run all owners of live znodes can conclude in the order of their numbers and be rid of them, by service and callbacks alone, exactly when each has concluded or has hope |
| `ZkExclusion.EarlyEventBreaks` | examples/zookeeper/zklock.cc:113-124 | from any state with a live znode, a session event waiting for an unstarted client leads to a second holder |
| `ZkExclusion.ThreatBreaks` | examples/zookeeper/zklock.cc:113-124 | so does an early session event wherever a rival has or may yet have a znode |
| `ZkExclusion.UnharmedStep` | examples/zookeeper/zklock.cc:113-124 | after any number of harmless early events, a step that is polite or threatens nobody does no harm, and any other is unsafe |
| `ZkExclusion.UnharmedIsSafe` | examples/zookeeper/zklock.cc:113-124 | early session events for clients without rivals, or for closed sessions, lead to no violation |
| `ZkExclusion.StepSafeExactly` | examples/zookeeper/zklock.cc:85-124 | a step keeps exclusion safe on all polite continuations exactly when it is no such threatening event |
| `ZkExclusion.ExclusionExactly` | examples/zookeeper/zklock.cc:85-124 | of every run: no state has a polite continuation into a violation exactly when every early session event finds its client without rivals or its session closed |
| `ZkLimits.MissedPredecessorStrands` | examples/zookeeper/zklock.cc:76 | a run in which the only client left is stranded |
| `ZkLimits.EarlySessionEventBreaksExclusion` | examples/zookeeper/zklock.cc:113-124 | a run, an instance of the above, that ends with two holders, one asking for the other's znode to go |
| `ZkLimits.ConcludesTwice` | examples/zookeeper/zklock.cc:113-124 | a polite run in which one live znode concludes twice |
| `Placement.RoundCovers` | examples/nvmf.cc:242-247 | one round from any cursor meets every reactor |
| `Placement.PlaceIsFirst` | examples/nvmf.cc:241-262 | the chosen reactor is the first eligible one in circular order from the cursor; there is none exactly when no core is in the mask |
| `Placement.PlaceIsNearest` | examples/nvmf.cc:241-262 | the chosen reactor is the nearest eligible one round from the cursor; the cursor is left just behind it, and where it stood if there is none |
| `Placement.DistanceIsModulo` | examples/nvmf.cc:243-247 | where near is counted modulo the number of reactors |
| `Placement.PinnedPlacement` | examples/nvmf.cc:249-254 | a thread bound to one core goes there wherever the cursor stands |
| `Placement.Scheduler.Schedule` | examples/nvmf.cc:219-263 | probes no reactor twice, enqueues at the end of exactly one ring, leaves the cursor behind it, and returns -1 exactly when no core is eligible |
| `Reactors.ScheduleSettles` | examples/nvmf.cc:187-189 | placing a thread that is nowhere puts it in exactly one place, lost exactly when no core is eligible |
| `ReactorOrder.RingStep` | examples/nvmf.cc:179-214 | in one step a ring loses its oldest thread, which its reactor polls or destroys, gains one at the end, or stays |
| `ReactorOrder.NoOvertaking` | examples/nvmf.cc:177-195 | over every run, of two threads in a ring the one behind stays as long as the one ahead does |
| `ReactorOrder.PollDoes` | examples/nvmf.cc:265-290 | what a poll does to the polled thread and to no other; migration binds it to the next core modulo the core count |
| `ReactorOrder.ReleaseDoes` | examples/nvmf.cc:184-193 | destroyed if exited and idle, else back to this ring, else to the nearest reactor it may run on with the request cleared, else lost |
| `ReactorOrder.MigratesOne` | examples/nvmf.cc:697-711 | a migration message and the release move a thread to the end of the next ring, exactly one position round |
| `ReactorOrder.DrainsOnlyWhenStopped` | examples/nvmf.cc:195-198 | over every run no reactor leaves its main loop before it has been told to |
| `Reactors.StepKeeps` | examples/nvmf.cc:171-276 | every step of every reactor keeps each thread in exactly one place and on a core of its mask |
| `ReactorRuns.RunKeeps` | examples/nvmf.cc:171-276 | so in every state of every run |
| `ReactorRuns.ThreadConservation` | examples/nvmf.cc:171-276 | every thread is in one ring, held by one reactor, destroyed or lost, never two of these; one that has not asked to move is on a core of its mask |
| `ReactorRuns.NoThreadLost` | examples/nvmf.cc:258-261 | if every mask contains a reactor's core, none is ever lost |
| `ReactorRuns.LostExactly` | examples/nvmf.cc:184-193 | the main loop loses a thread exactly when it asked to move and no reactor is eligible |
| `ReactorRuns.LostForever` | examples/nvmf.cc:187-189 | a lost thread never reaches a ring or a reactor again |
| `ReactorRuns.SpinIsModulo` | examples/nvmf.cc:702-706 | stepping to the next core with wrap-around is addition modulo the core count |
| `ReactorRuns.StepRotates` | examples/nvmf.cc:697-711 | every step keeps each poll group exactly its number of moves past its home core |
| `ReactorRuns.MigrationIsRotation` | examples/nvmf.cc:697-723 | over every run a group is found at home plus moves, modulo the core count, and at home after a full round |
| `ReactorRuns.GroupsStayApart` | examples/nvmf.cc:605-626 | groups that have moved equally often are on different cores |
| `ReactorPaths.HistoryIsRun` | examples/nvmf.cc:171-217 | what the loops do is one of the runs above |
| `ReactorLoop.ReactorHost.Place` | examples/nvmf.cc:219-263 | placement zeroes the thread's context and does what the specification says |
| `ReactorLoop.ReactorHost.Dequeue` | examples/nvmf.cc:178-180 | takes the oldest thread of the ring |
| `ReactorLoop.ReactorHost.PollEffect` | examples/nvmf.cc:265-290 | each effect of a poll is one enabled step, and sets the thread's mask, request and flags as the source does |
| `ReactorLoop.ReactorHost.MigrateByRr` | examples/nvmf.cc:697-711 | binds the thread to the next core round the ring and asks for a move |
| `ReactorLoop.ReactorHost.PutBack` | examples/nvmf.cc:184-193 | destroy, reschedule or re-enqueue, in this order of precedence |
| `ReactorLoop.ReactorHost.Round` | examples/nvmf.cc:177-195 | a round of the main loop extends the history by this reactor's steps only, ending with the thread's release |
| `ReactorLoop.ReactorHost.DrainRound` | examples/nvmf.cc:197-214 | a round of the final loop is steps of this reactor alone, and ends with the thread destroyed if it had exited and at the end of the ring if not |
| `ReactorLimits.AskingForNothingLoses` | examples/nvmf.cc:258-261 | a run, on any machine, that loses a thread |
| `ReactorLimits.FinishedStays` | examples/nvmf.cc:184-214 | the ring of a finished reactor gains exactly the thread that is rescheduled or created with this reactor first in circular order |
| `ReactorLimits.FinishedRing` | examples/nvmf.cc:197-217 | over every run a finished reactor holds exactly the threads so placed since |
| `ReactorLimits.FinishedOnce` | examples/nvmf.cc:197-217 | it finished in one step, with an empty ring |
| `ReactorLimits.EndOfThreads` | examples/nvmf.cc:171-217 | when all reactors have finished, every thread is destroyed, lost or in the ring of a finished one |
| `ReactorLimits.AllGoneExactly` | examples/nvmf.cc:171-263 | when all reactors have finished, every thread is destroyed or lost exactly if no step of the run placed one on a reactor that had finished |
| `ReactorLimits.LeftBehind` | examples/nvmf.cc:187-217 | a run that ends with a thread in such a ring |
| `TargetModel.FirstAccepted` | examples/nvmf.cc:463-478 | the first subsystem whose stop is accepted; all before it were refused |
| `Target.StopFromRefused` | examples/nvmf.cc:472-476 | a refused stop passes the chain on to the next subsystem |
| `Target.DestroyGroupsOnce` | examples/nvmf.cc:660-672 | running the group teardown again sends nothing new |
| `Target.NvmfTarget.PollGroupsCreate` | examples/nvmf.cc:605-626 | one creation message per core |
| `Target.NvmfTarget.PollGroupsDestroy` | examples/nvmf.cc:660-672 | every listed group is unlinked and sent one destroy message, in list order |
| `Target.NvmfTarget.SubsystemStopNext` | examples/nvmf.cc:463-484 | the recursion over refused stops ends waiting for the first accepted one, or in poll-group teardown |
| `Target.NvmfTarget.StopSubsystems` | examples/nvmf.cc:486-503 | the same from the head of the list; with no subsystem only the state changes |
| `Target.NvmfTarget.AdvanceState` | examples/nvmf.cc:725-768 | the loop terminates and, although refused stops re-enter it, does what the closed form without loop says |
| `Target.NvmfTarget.AppStart` | examples/nvmf.cc:770-774 | asks for the initialisation of the bdev layer, and for nothing else |
| `Target.NvmfTarget.MigratePollGroupsByRr` | examples/nvmf.cc:713-723 | each listed group is sent one migration message, in list order |
| `Target.NvmfTarget.SubsystemInitDone` | examples/nvmf.cc:681-695 | with the RPC server up the target is built, otherwise nothing happens |
| `Target.NvmfTarget.CreatePollGroupsDone` | examples/nvmf.cc:557-575 | lists and counts the group; the last one begins the start of the subsystems |
| `Target.NvmfTarget.SubsystemStartNext` | examples/nvmf.cc:505-527 | running after the last; an accepted start is recorded and awaited; a refused one is not, and begins the teardown |
| `Target.NvmfTarget.DestroyPollGroupsDone` | examples/nvmf.cc:628-638 | counts down; the last group begins target destruction |
| `Target.NvmfTarget.TgtDestroyDone` | examples/nvmf.cc:399-405 | the bdev layer is finished next |
| `Target.NvmfTarget.ShutdownMessage` | examples/nvmf.cc:776-789 | sends itself again before RUNNING, does nothing after; in RUNNING it ends it, takes the poller away and sends nothing |
| `Target.NvmfTarget.InitCallback` | examples/nvmf.cc:505-598 | delivering any initialisation callback is the specified transition |
| `Target.NvmfTarget.FiniCallback` | examples/nvmf.cc:628-679 | delivering any teardown callback or signal is the specified transition |
| `TargetRuns.StepKeeps` | examples/nvmf.cc:399-797 | every callback keeps the invariant and meets the asserts of the source |
| `TargetRuns.RunKeeps` | examples/nvmf.cc:399-797 | the invariant holds throughout every run, failures included |
| `TargetRuns.StateNeverDecreases` | examples/nvmf.cc:725-768 | the state never goes back and a received signal is never forgotten |
| `TargetRuns.TeardownOrder` | examples/nvmf.cc:399-414 | the target is destroyed at most once and only when no group exists in any form; the bdev layer is finished once, after that; reactors are told to exit only last |
| `TargetRuns.PollGroupConservation` | examples/nvmf.cc:557-672 | counted groups plus creations in flight are the cores; the counter is the groups listed plus destructions in flight; each group gets one destroy message; no assert can fail |
| `TargetRuns.SubsystemChains` | examples/nvmf.cc:463-555 | stops are attempted once each in list order whichever fail, all of them before group teardown; running means every start was accepted |
| `TargetRuns.ShutdownKept` | examples/nvmf.cc:776-797 | after the first signal exactly one shutdown message is queued or teardown has begun; the migration poller exists exactly while running with a period |
| `TargetDuties.ShutdownDoes` | examples/nvmf.cc:776-789 | the three cases of a shutdown message; in RUNNING the teardown begins with the first subsystem's stop |
| `TargetDuties.ShutdownEndsRunning` | examples/nvmf.cc:776-789 | over every run, a shutdown message delivered in RUNNING ends it and is used up |
| `TargetDuties.ShutdownOnce` | examples/nvmf.cc:776-797 | ... so at most one is |
| `TargetDuties.StartDoes` | examples/nvmf.cc:505-527 | the next start after each, the teardown after a refusal, RUNNING after the last |
| `TargetDuties.GroupDoes` | examples/nvmf.cc:557-575 | groups are listed and counted; the last begins the starts |
| `TargetDuties.RunningMeansStarted` | examples/nvmf.cc:505-555 | over every run, RUNNING is reached only after the library accepted the start of every subsystem, each in a step of its own |
| `TargetDuties.InitDoes` | examples/nvmf.cc:416-461 | after either failure of target creation the right part of the teardown follows, else one creation message per core |
| `TargetDuties.StopDoes` | examples/nvmf.cc:463-484 | the first accepted of the remaining stops is awaited; if none is, every group is told to go |
| `TargetDuties.EndDoes` | examples/nvmf.cc:628-679 | the last group, the target, the bdev layer and the exit follow one another; a signal sends one message, once |
| `TargetLife.CallbacksRunOut` | examples/nvmf.cc:725-797 | every callback uses up a rank, as does the shutdown message that ends RUNNING; other messages never replenish it |
| `TargetLife.NeverStuck` | examples/nvmf.cc:725-768 | outside RUNNING a callback is owed exactly while rank is left, and nothing is owed exactly when the reactors have been told to exit or the target hangs |
| `TargetLife.HungStays` | examples/nvmf.cc:776-781 | a hung target stays so whatever is delivered, and its shutdown message sends itself again |
| `TargetLife.HungExactly` | examples/nvmf.cc:685-689 | over every run the target hangs exactly after a failed start of the RPC server |
| `TargetLife.RpcFailureHangs` | examples/nvmf.cc:685-689 | a run, for any configuration, that hangs with a shutdown asked for |
| `TargetLife.LifeIsBounded` | examples/nvmf.cc:674-695 | any run has at most seven callbacks plus four per core and two per subsystem; with none owed outside RUNNING, the exit was reached exactly if the RPC server never failed to start |
| `Latency.Rearrangement` | examples/arbitration/arbitration_read.cc:492-503 | for any cost that prefers uncrossed pairs, pairing by position costs no more than any order of completion |
| `Latency.OrderBlind` | examples/arbitration/arbitration_read.cc:492-503 | the paired sum is the true sum, the paired squares and the paired variance at most the true ones |
| `Latency.VarianceIsSpread` | examples/arbitration/arbitration_read.cc:499-503 | the variance is the squared difference summed over all pairs of latencies, hence never negative |
| `Latency.Statistics` | examples/arbitration/arbitration_read.cc:492-502 | the loops compute the sum and the sum of squares of the paired deltas |
| `IoEngine.RegisterNs` | examples/arbitration/arbitration_read.cc:147-186 | a namespace is accepted exactly if it holds one I/O, and the I/O whole extended sectors |
| `IoEngine.RegistersExactly` | examples/arbitration/arbitration_read.cc:177-180 | it has as many slots as fit it, each of as many blocks as fit the I/O |
| `IoEngine.RegisteredIsUsable` | examples/arbitration/arbitration_read.cc:154-180 | every slot of an accepted namespace lies inside it |
| `IoEngine.AllRegisteredUsable` | examples/arbitration/arbitration_read.cc:154-180 | so for whatever `register_ns` may have been given |
| `IoEngine.SubmitBooks` | examples/arbitration/arbitration_read.cc:278-333 | a submission, accepted or refused, keeps the books and takes one task |
| `IoEngine.SubmitKeeps` | examples/arbitration/arbitration_read.cc:278-333 | ... and the order of the times, and reads inside the namespace |
| `IoEngine.CompleteKeeps` | examples/arbitration/arbitration_read.cc:335-357 | a completion of any command in flight keeps all of it |
| `IoEngine.StatisticsInBounds` | examples/arbitration/arbitration_read.cc:493-498 | once drained, the latency loop stays inside `etimes` exactly when no submission was refused |
| `IoEngine.DrainedStatistics` | examples/arbitration/arbitration_read.cc:488-503 | then no delta is negative and the statistics are order-blind |
| `IoEngine.OncePerWrap` | examples/arbitration/arbitration_read.cc:302-307 | sequential submission reads no slot twice within a round |
| `IoEngine.EverySlotRead` | examples/arbitration/arbitration_read.cc:302-307 | ... and in a full round reads every slot |
| `IoWorker.NsWorkerCtx.SubmitSingleIo` | examples/arbitration/arbitration_read.cc:278-333 | an empty pool ends the process; otherwise one task, this start time, the random slot or the next with wrap-around, counted only if accepted |
| `IoWorker.NsWorkerCtx.TaskComplete` | examples/arbitration/arbitration_read.cc:335-357 | this end time, task given back, replacement unless draining, which always finds a task |
| `IoWorker.NsWorkerCtx.SubmitIo` | examples/arbitration/arbitration_read.cc:370-375 | takes a queue depth of tasks, none for a negative one, or ends the process exactly when the pool has fewer |
| `IoWorker.NsWorkerCtx.DrainIo` | examples/arbitration/arbitration_read.cc:377-383 | ends with nothing in flight, nothing new submitted, every task in flight given back |
| `IoWorker.NsWorkerCtx.PollLoop` | examples/arbitration/arbitration_read.cc:474-485 | any completions in any order, each replaced, leave the number of tasks in use as it was |
| `IoWorker.NsWorkerCtx.Report` | examples/arbitration/arbitration_read.cc:492-503 | reads past the end exactly after a refused submission; otherwise the true sum and at most the true squares |
| `IoWorker.NsWorkerCtx.WorkFn` | examples/arbitration/arbitration_read.cc:445-513 | the whole life of a context: the report above, all reads in range, and the pool short by exactly the refused submissions |
| `IoRuns.StepKeeps` | examples/arbitration/arbitration_read.cc:278-383 | every step of every context keeps the invariant of all |
| `IoRuns.PoolConservation` | examples/arbitration/arbitration_read.cc:278-383 | free, in-flight and lost tasks make up the pool; the counter is the number in flight and at most the queue depth; every read is in range |
| `IoLog.RecordIsTrue` | examples/arbitration/arbitration_read.cc:302-343 | over every run a context's start and end times are, in order, those of its own submissions and completions, and each read goes to the random slot or to the number of sequential ones before it, modulo the namespace |
| `IoLog.LoopIsClosed` | examples/arbitration/arbitration_read.cc:347-356 | before draining the commands in flight or about to be submitted are the queue depth less the refusals; while draining nothing is about to be submitted |
| `IoLog.DrainingSubmitsNothing` | examples/arbitration/arbitration_read.cc:377-383 | once draining a context submits nothing more |
| `IoRuns.PoolSuffices` | examples/arbitration/arbitration_read.cc:285-289 | with a queue depth of tasks per context no run ends for want of a task |
| `IoRuns.PoolTooSmall` | examples/arbitration/arbitration_read.cc:285-289 | with any fewer some run does |
| `IoRuns.ExitsExactly` | examples/arbitration/arbitration_read.cc:285-289 | some run ends for want of a task exactly when the pool is smaller than a queue depth per context |
| `IoRuns.TaskCount` | examples/arbitration/arbitration_read.cc:1215-1218 | the larger count times the depth modulo 2^32, which is the product itself if it fits |
| `IoRuns.AsInt` | examples/arbitration/arbitration_read.cc:757 | the 32-bit signed number congruent to the option |
| `IoRuns.MainPoolExactly` | examples/arbitration/arbitration_read.cc:1215-1222 | for the pool `main` makes, whatever depth was asked for: no want of tasks if the 32-bit product fits, otherwise exactly when what is left is too small; a depth that has become negative submits nothing |
| `IoRuns.OverflowStarves` | examples/arbitration/arbitration_read.cc:1215-1218 | an accepted depth that overflows to a pool of two tasks, with a run that ends for want of a third |
| `IoRuns.DrainedRun` | examples/arbitration/arbitration_read.cc:438-441 | after draining the pool is whole exactly when nothing was refused, and each context without refusals reports the true sum and at most the true squares and variance |
| `IoRuns.VisitsOncePerWrap` | examples/arbitration/arbitration_read.cc:302-307 | over every sequential run, in any round each slot is read at most once, and at least once if the round is full |
| `IoRuns.RefusalShortens` | examples/arbitration/arbitration_read.cc:328-332 | a run, on any namespace, that drains with a refused submission and a short pool |
| `ReadBack.BufferHolds` | examples/multipath/verification.cc:199-204 | a printed buffer holds its text up to its size less one |
| `ReadBack.OwnPatternMatches` | examples/multipath/verification.cc:247-251 | reading back one's own text passes exactly when the compared part fits the buffer |
| `ReadBack.ComparesFifty` | examples/multipath/verification.cc:247-251 | the comparison looks at the first 50 characters of the expected text, all of them and no others |
| `ReadBack.Discriminating` | examples/multipath/verification.cc:244-251 | the comparison of at most 50 characters never accepts another write's text |
| `ReadBack.MatchesExactly` | examples/multipath/verification.cc:244-261 | it accepts some write's buffer exactly when it is the expected write and fits |
| `ReadBack.AddressExact` | examples/multipath/verification.cc:217-223 | the 32 bits kept of an address are the address exactly in zones below 8192 |
| `ReadBack.Cdw0` | examples/multipath/verification.cc:289-290 | the 32-bit number congruent to the address |
| `ReadBack.SplitJoin` | examples/multipath/verification.cc:186-188 | a buffer written sector by sector is read back whole |
| `VerifyModel.AppendAccounted` | examples/multipath/verification.cc:189-235 | an initial append, accepted or refused, keeps the books |
| `VerifyModel.CompleteAccounted` | examples/multipath/verification.cc:238-284 | a completion with its replacement keeps the books and always finds a task |
| `Verifier.NsWorkerCtx.SubmitSingleIo` | examples/multipath/verification.cc:152-236 | an empty pool ends the process; an append has the text of its number and uses the number up even if refused; a refused submission gives the task back and forgets the pair |
| `Verifier.NsWorkerCtx.IoComplete` | examples/multipath/verification.cc:286-299 | counting, queueing or comparing, then the replacement |
| `Verifier.NsWorkerCtx.CountCompletion` | examples/multipath/verification.cc:238-270 | an append is queued with the address that came back; a read is compared and counted as passed or failed |
| `Verifier.NsWorkerCtx.FillPlace` | examples/multipath/verification.cc:272-283 | oldest queued read if there is room, else a new append, so that the place is filled if the device accepts; nothing while draining |
| `Verifier.NsWorkerCtx.SubmitIo` | examples/multipath/verification.cc:306-310 | keeps the books and never lacks a task if the pool has a queue depth of them |
| `Verifier.NsWorkerCtx.DrainIo` | examples/multipath/verification.cc:312-317 | terminates with nothing in flight and the books kept |
| `Verifier.NsWorkerCtx.WorkFn` | examples/multipath/verification.cc:495-531 | at the end the pool is whole and every completed append passed, failed, is queued or was dropped |
| `VerifyRuns.AccountingHolds` | examples/multipath/verification.cc:226-284 | over every run, device failures included: appends are reads done, in flight, queued or dropped; passed plus failed is reads done; nothing queued before draining, at most the queue depth after; no want of tasks |
| `VerifyRuns.DrainedAccounts` | examples/multipath/verification.cc:312-317 | once drained, each append is accounted for and the pool is whole |
| `VerifyLoop.LoopIsClosed` | examples/multipath/verification.cc:272-283 | over every run, until it drains, the commands in flight and the initial appends to come are the queue depth less the submissions refused so far |
| `VerifyLoop.AlwaysFull` | examples/multipath/verification.cc:272-310 | without refusals the queue is full from the last initial append to the draining |
| `VerifyLoop.DrainingSubmitsNothing` | examples/multipath/verification.cc:312-317 | once draining, nothing more is submitted |
| `VerifyLoop.CountsTries` | examples/multipath/verification.cc:206 | over every run the next number is the number of appends tried so far, in 64 bits |
| `VerifyLoop.AppendsAreNumbered` | examples/multipath/verification.cc:199-206 | the append that any step submits has the text of the number of those tried before it |
| `VerifyRuns.StepForgets` | examples/multipath/verification.cc:272-283 | a step forgets a pair exactly when it completes an append before draining and the device refuses the read |
| `VerifyRuns.ForgottenExactly` | examples/multipath/verification.cc:226-283 | over every run the forgotten pairs are exactly these steps, none if there are none |
| `VerifyRuns.RegisteredIoSize` | examples/multipath/verification.cc:346-375 | an accepted namespace is transferred in I/Os of the configured size |
| `VerifyRuns.ReadBackSectors` | examples/multipath/verification.cc:186-188 | what the device holds is what a read returns |
| `VerifyRuns.RunFaithful` | examples/multipath/verification.cc:238-299 | over every run without device failures each queued pair and each read points at its own text on the medium |
| `VerifyRuns.ReadPassesExactly` | examples/multipath/verification.cc:247-261 | each completed read passes exactly when the compared part fits the buffer |
| `VerifyRuns.EveryReadPasses` | examples/multipath/verification.cc:238-284 | with room for 50 characters no verification ever fails, in any order of completion |
| `VerifyOwn.PassesExactlyOnOwn` | examples/multipath/verification.cc:244-261 | on a medium of this program's writes, a read at any address passes exactly when its own text is stored there and the compared part fits |
| `VerifyOwn.PassesOwnExactly` | examples/multipath/verification.cc:238-299 | over every such run, failed appends with any address included, a read passes exactly when its address held its own text as it was served |
| `VerifyZones.PassesExactlyInLowZones` | examples/multipath/verification.cc:217-223 | on a device of one's own all reads pass exactly in the first 8192 zones, and all fail in the others |
| `VerifyLimits.RefusedReadIsDropped` | examples/multipath/verification.cc:226-232 | a run, in any zone, that drops a pair |
| `VerifyLimits.OneReadBack` | examples/multipath/verification.cc:238-284 | a run, in any zone, that completes a verification read |
| `VerifyLimits.HighZoneFails` | examples/multipath/verification.cc:217-223 | such a run in a high zone, whose read fails |

## Left out

- SPDK, ZooKeeper and the devices themselves: only the promises listed above.
- The other programs under `examples/arbitration` and `examples/multipath` and `examples/measurement.cc`: near copies of the two modelled engines.
- `examples/rdma`, `examples/zstore.cc`, the HTTP servers, the device demonstrations and the plotting scripts: linear scripts, or code over headers that are not part of this model.
- Argument parsing, printing, transport set-up, attaching and detaching controllers, arbitration features: single-branch plumbing.
- Floating point, the square root and the truncation to microseconds in the statistics: sums and the variance scaled by the count are exact integers.
- Real clocks: times are integers that never decrease.
- Ring overflow and failed allocations, which the sources answer with an error message or `exit`.
- Malformed znode names and 32-bit overflow of sequence numbers: `ScanInt` reads the digits a name starts with, and names start with digits in both directories.
- The 64-byte buffers `watch` and `temp` of zklock.cc: the paths are 21 characters long.
- zkleader.cc calls ZooKeeper synchronously, from its watcher as well; the model lets other events come between request and reply, which only adds runs.
- Subsystems added or removed through RPC while the target starts or stops: the list is fixed during a run.
- The status codes of accepted starts, stops and completions, which the sources ignore.
- The termination of the final loop of `nvmf_reactor_run`, which is up to the threads; each of its rounds is modelled.
- `g_next_pg` and the latency trackers: written, never read by the modelled code.
- `offset_in_ios` in verification.cc: computed for each append and not used.
- The wrap-around of 64-bit counters other than `count`.
- What `spdk_app_stop` does after a failed start of the RPC server: it is taken not to touch the program's own state.
- Extended sectors: in verification.cc's model a sector carries data only.
- `ns_worker_ctx` in verification.cc is zeroed with `memset` although it holds a `std::queue`; the model starts with an empty queue.
- TargetLife.NeverStuck: nothing bounds the shutdown messages a deferred shutdown sends to itself during initialisation.
