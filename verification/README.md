# Verified model of the Pandos kernel

Pandos is a small operating system for the µMPS3 machine: a nucleus with processes, semaphores and a
round-robin scheduler, a pager that keeps the pages of four user processes in eight RAM frames, a delay
facility with its daemon, and disk and flash transfers through DMA buffers. This project models those four
parts in Dafny and proves what they keep and what they promise, over every run. Verify it with
`dafny verify dfyconfig.toml`.

## How it is laid out

Every part has a state machine of pure functions, one a handler or one a stretch between two blocking points,
with invariants over whole runs proved about it. Beside it stands the code: classes whose methods update the
tables and links in place, in the order of the C statements, proved to do exactly what the state machine says.

- Nucleus: `Queues`, `Pcb` (queues, free list, process tree), `Asl` (semaphore descriptors), `NucleusState` (what
  each call and interrupt does), `NucleusInvariant`, `NucleusBlocking`, `ProcessTree`, `NucleusKill`, `NucleusRuns`
  (events and runs), `NucleusVerdict`, `NucleusFairness`, `NucleusSemaphores`, `NucleusJoin`, `NucleusDevices`,
  `NucleusDescriptors`, `NucleusEffects` (what every event does to each part of the state), and `Nucleus` (the handlers
  over the linked structures; `Handle` is the whole switch). `Semaphores` says what all three parts mean by P and V.
- Pager: `PagerState`, `PagerInvariant`, `PagerRefinement`, `PagerFifo`, `PagerLoads` (which page was loaded when),
  `PagerQueue` (what every step does, and who goes on when), `Pager` (the code), `PagerBuffers` (when a copy to RAM or a write of a block leaves the pages alone) and `PagerCalls`
  (which storage calls do).
- Delay facility: `DelayList` (the code of the two linked lists), `DelayPass`, `DelayProtocol`, `DelayInvariant`,
  `DelayGuarantees`, `DelayEffects` (what every event does, and that a delay ends in time).
- Storage: `DiskGeometry`, `DiskTransfer`, `StorageCalls` (the code), and `DeviceNumbers` (which device a number names).

A statically allocated table of C records is a set of columns, one a field; a pointer into it is an index, and
NULL is `NIL`. Memory words are integers from 0 to 2^32 - 1, with shifts and masks written as divisions and
remainders. `birth`, `clock`, `deadline`, `delays` and `wakeups` are history that proofs use; the kernel has no
such variables.

## What the proofs found

- A semaphore descriptor outlives its last waiter (`removeBlocked` frees it only on a later, failing call), and
  `Passeren` ignores a failing `insertBlocked`. So one process that waits for one device after another uses up all
  descriptors, after which a SYS5 loses it for good: `DescriptorsRunOut`. Waiting on at most MAXPROC semaphores in all
  is enough: `FewSemaphoresSuffice`. When SYS3, SYS4 and the waiting calls keep the invariant is stated exactly:
  `PKeepsExactly`, `VKeepsExactly`, `WaitForKeepsExactly`.
- `killProcess` leaves a process that waits on a device or the clock in that queue. SYS2 keeps the invariant
  exactly when nobody it kills waits so: `TerminateKeeps`. The free list, the ready queue, the tree, the process count
  and every other queue are right regardless, in the linked structures too (`TerminateProcess`), so a SYS2 of the first
  process always ends in HALT: `ShutdownHalts`. The soft-block count goes on counting the killed (`TerminateVerdict`), so
  the scheduler may wait where it should panic; exactly when is stated by `WaitsForTheDead`.
- SYS5 blocks its caller whatever the device semaphore says, but an interrupt wakes nobody when its V leaves the
  semaphore positive, and that surplus never goes away. So an interrupt wakes the longest waiter exactly when more
  processes wait than interrupts for the device have been lost: `InterruptWakesExactly`, `BootWakesExactly`. None is
  lost exactly when none comes before it is waited for: `PromptLosesNothing`. After one that does, the caller of the
  SYS5 stays blocked: `EarlyInterruptIsLost`.
- The device number of a storage call is not checked. The copy of a disk put goes to a frame of the swap pool exactly
  for eight numbers modulo 2^20, -8 to -1, and of a flash put for another eight (`BuffersApartFromFrames`); the number -1
  is an example (`NumberMinusOne`). The registers of all devices lie side by side, and the disk numbers 8 to 15, modulo
  2^28, name the flash devices (`ReachesExactly`), with their buffers and semaphores (`BuffersApart`, `SemaphoresMeet`).
  These take a seek for a read and a read for a write, so a get copies one block over another (`GetThroughExactly`,
  `NumberEight`) and a put always fails (`PutThroughExactly`).
- So which storage calls leave the pages of all processes alone is stated exactly: for a copy (`CopyKeepsExactly`), for a
  write of a block (`WriteKeepsExactly`), for a whole call in a given state (`HarmlessExactly`), and by its numbers for a
  call that touches no page in any state (`AloofExactly`). Over runs in which only such copies and writes happen, the
  pages stay private: `ActsArePrivate`.
- The refill handler enters a translation for every address, by its low index bits, but it serves the address exactly
  when that is one of the 32 pages of the process (`RefillServes`); no other ever gets a translation
  (`OnlyPagesServed`), so its access misses again.
- The Active Delay List is not sorted, though its comments say so: the head sentinel's -1 stops the search at
  once, and every descriptor goes to the front (`InsertedInFront`). The daemon reads the whole list, so nothing
  depends on the order. A wake time that overflows to less than -1 makes the search run off the list exactly when every
  listed time is later (`SearchEndsExactly`, `SearchRunsOff`).
- A delay can be cut short exactly when the time asked for overflows the word (`EarlyExactlyOnOverflow`). A round
  wakes a process exactly when its time has come and no process up to it in the list has the tail sentinel's time
  (`PassExact`), so a wake time equal to the sentinel's hides its process and all behind it (`NeverWoken`).
- Disk sector numbers are not checked. One beyond the capacity is rejected exactly if its cylinder, cut to 16
  bits, is beyond the last one (`SectorsServed`, `OutOfRangeAccepted`).
- Seek and transfer are separate critical sections and the DMA buffer is filled outside both, so two callers can
  misplace or replace each other's pages (`SeekRace`, `BufferRace`). What a put writes and a get returns is stated for
  everything that others can do in between (`PutInterleaved`, `GetInterleaved`), and when each is right
  (`PutRightExactly`, `GetRightExactly`).
- A flash device without blocks admits every block number (`AdmittedExactly`).

## Model

| member | source | states |
|---|---|---|
| `Pcbs.PcbTable.constructor` | phase1/pcb.c:72-95 | the free list holds all MAXPROC pcbs, in table order |
| `Pcbs.PcbTable.FreePcb` | phase1/pcb.c:18-29 | pushes the pcb on the free list and changes one link |
| `Pcbs.PcbTable.AllocPcb` | phase1/pcb.c:31-70 | pops the free list or returns NULL with nothing changed; what is reset, and that the left sibling is not |
| `Pcbs.PcbTable.InsertProcQ` | phase1/pcb.c:119-155 | the circular queue through the new tail pointer is the old one with p appended; only its links change |
| `Pcbs.PcbTable.RemoveProcQ` | phase1/pcb.c:157-188 | returns the head and leaves the rest, or NULL for an empty queue |
| `Pcbs.PcbTable.OutProcQ` | phase1/pcb.c:190-234 | removes p from any position keeping the order, or returns NULL with nothing changed; the search ends |
| `Pcbs.PcbTable.HeadProcQ` | phase1/pcb.c:236-249 | returns the head without removing it |
| `Pcbs.PcbTable.InsertChild` | phase1/pcb.c:262-281 | the family of the parent is the old one with p in front, left and right links agreeing |
| `Pcbs.PcbTable.RemoveChild` | phase1/pcb.c:283-309 | pops the first child and clears its sibling links; its parent pointer stays |
| `Pcbs.PcbTable.OutChild` | phase1/pcb.c:311-337 | deletes p from its parent's children at any position; the stale parent pointer of a first child; NULL and no change without a parent |
| `ActiveSemaphores.Asl.constructor` | phase1/asl.c:52-86 | an empty list between the two sentinels, every other descriptor free |
| `ActiveSemaphores.Asl.TraverseToAddress` | phase1/asl.c:31-41 | finds the descriptor of a and its predecessor, or the tail sentinel and the last node |
| `ActiveSemaphores.Asl.InsertBlocked` | phase1/asl.c:99-137 | appends p to the queue of a; fails, changing nothing, exactly when a has no descriptor and none is free |
| `ActiveSemaphores.Asl.RemoveBlocked` | phase1/asl.c:151-177 | pops the head of the queue of a; frees the descriptor only when the queue was empty before |
| `ActiveSemaphores.Asl.HeadBlocked` | phase1/asl.c:191-200 | the head of the queue of a, or NULL |
| `ActiveSemaphores.InsertedExactly` | phase1/asl.c:99-137 | what an insertion does to every queue, and which semaphores have a descriptor after it |
| `ActiveSemaphores.RemovedExactly` | phase1/asl.c:151-177 | a removal takes the first of one queue and frees a descriptor exactly when it finds the queue empty |
| `ActiveSemaphores.LeftExactly` | phase1/asl.c:214-243 | a deletion takes one process out of one queue and frees its descriptor exactly when that was the only one |
| `ActiveSemaphores.Asl.OutBlocked` | phase1/asl.c:214-243 | deletes p from the queue of the semaphore it records, keeping the order; frees the descriptor at once when p was alone there |
| `NucleusCode.Nucleus.constructor` | phase2/initial.c:67-106 | the linked structures represent the booted state, the first process being ready |
| `NucleusCode.Nucleus.Scheduler` | phase2/scheduler.c:53-83 | dispatches the head of the ready queue, else HALT, WAIT or PANIC by the counters |
| `NucleusCode.Nucleus.Passeren` | phase2/exceptions.c:461-473 | decrements the cell and queues the running process, ignoring a failing insertion |
| `NucleusCode.Nucleus.Verhogen` | phase2/exceptions.c:487-508 | increments the cell and, when it is not positive, makes the first waiter ready and returns it |
| `NucleusCode.Nucleus.CreateProcess` | phase2/exceptions.c:186-221 | SYS1 represents Create of the state: a ready, youngest child of the caller, or failure with no change |
| `NucleusCode.Nucleus.SysPasseren` | phase2/exceptions.c:235-253 | SYS3: goes on, or blocks and dispatches the next process |
| `NucleusCode.Nucleus.SysVerhogen` | phase2/exceptions.c:257-264 | SYS4: a V after which the caller goes on |
| `NucleusCode.Nucleus.WaitIO` | phase2/exceptions.c:268-291 | SYS5: blocks on the semaphore of the device and counts the caller as soft-blocked |
| `NucleusCode.Nucleus.WaitClock` | phase2/exceptions.c:309-315 | SYS7: the same on the pseudo-clock |
| `NucleusCode.Nucleus.KillProcess` | phase2/exceptions.c:388-415 | a killed process leaves its queue, unless a device owns it, and its family and goes on the free list; links of given-up queues aside, the structures stay right |
| `NucleusCode.Nucleus.KillDescendants` | phase2/exceptions.c:433-448 | the recursion over child and sibling pointers ends, having killed the given children with all below them, in that order, whoever waits on what |
| `NucleusCode.Nucleus.TerminateProcess` | phase2/exceptions.c:223-232 | SYS2 represents Terminate of the state, but for the links of the device queues in which a killed process stays, and decides as the scheduler does |
| `NucleusCode.Nucleus.NonTimerInterrupt` | phase2/interrupts.c:190-216 | the V, the soft-block counter, and back to the interrupted process or on to the scheduler |
| `NucleusCode.Nucleus.PLTInterrupt` | phase2/interrupts.c:233-248 | the running process goes to the end of the ready queue |
| `NucleusCode.Nucleus.IntervalTimerInterrupt` | phase2/interrupts.c:268-300 | the drain loop empties the clock's queue into the ready queue in order, counting down |
| `NucleusCode.Nucleus.Handle` | phase2/exceptions.c:163-340 | every event turns structures that represent s into structures that represent Next(s), and the invariant stays |
| `NucleusInvariant.BootedInv` | phase2/initial.c:67-106 | the boot state has every pcb in its one place, right counters, balanced semaphores and a tree |
| `NucleusRuns.DevicesApart` | phase2/exceptions.c:278-285 | no two devices or terminal sub-devices share a semaphore |
| `NucleusRuns.DevicesInOrder` | phase2/exceptions.c:278-285 | the semaphores follow the order of lines, devices and sub-devices, the transmitter's first, without a gap, the clock's last |
| `NucleusRuns.NextKeeps` | phase2/exceptions.c:186-315 | every system call and interrupt keeps the invariant |
| `NucleusEffects.NextReady` | phase2/scheduler.c:53-83 | for every event, the whole ready queue and the running process: who joins, who leaves, and who runs next |
| `NucleusEffects.NextRunsOn` | phase2/exceptions.c:241-264 | an event that does not end in the scheduler returns to the process it interrupted, and no ready process loses its place |
| `NucleusEffects.ClockReady` | phase2/interrupts.c:276-299 | after a tick the interrupted process goes on, or else the first of the ready and then of those that waited for it |
| `NucleusEffects.NextWaiting` | phase2/exceptions.c:461-508 | for every event and semaphore, who waits there in which order |
| `NucleusEffects.NextDescriptors` | phase1/asl.c:99-243 | for every event, exactly which semaphores have a descriptor afterwards |
| `NucleusEffects.TerminateDescriptors` | phase1/asl.c:233-240 | SYS2 frees exactly the descriptors of the semaphores, not a device's, whose waiters it kills, all of them |
| `NucleusEffects.NextCells` | phase2/exceptions.c:235-315 | for every event, the value of every semaphore |
| `NucleusEffects.NextSoftblocked` | phase2/exceptions.c:288-290 | for every event, the soft-block count |
| `NucleusEffects.NextMarks` | phase2/exceptions.c:461-508 | for every event, which semaphore every live process records |
| `NucleusEffects.CreateExactly` | phase2/exceptions.c:186-221 | SYS1 makes the first free pcb the first child of its caller and changes no other process, or changes nothing |
| `NucleusEffects.FamiliesStay` | phase2/exceptions.c:163-340 | no other event than SYS1 and SYS2 touches the tree, the free list or the process count |
| `NucleusRuns.RunKeeps` | phase2/exceptions.c:186-315 | so does every run from boot, and the processor idles only when nobody is ready |
| `NucleusBlocking.DrainKeeps` | phase2/interrupts.c:276-286 | draining appends the clock's waiters in order, keeps counters and invariant, and frees the descriptor |
| `ProcessTree.VictimsAreSubtree` | phase2/exceptions.c:433-448 | the recursion visits the subtree of a process, each member once, the process itself last |
| `ProcessTree.DescendantsFirst` | phase2/exceptions.c:433-448 | every process is killed after all its descendants |
| `ProcessTree.YoungerLast` | phase2/exceptions.c:433-448 | of two siblings, those below the one in front die before, and it itself after, everybody of the other's subtree |
| `ProcessTree.AllDescendFromRoot` | phase2/exceptions.c:206-213 | every live process descends from the first one |
| `NucleusKill.KilledTree` | phase2/exceptions.c:388-448 | SYS2 frees exactly the subtree; the families of all others stay, but for the one the victim leaves |
| `NucleusKill.KilledQueues` | phase2/exceptions.c:388-448 | the other processes keep their order in every queue; descriptors, process count, soft-block count and semaphores follow |
| `NucleusKill.TerminateKeeps` | phase2/exceptions.c:394-401 | SYS2 keeps the invariant if and only if nobody it kills waits on a device or the clock |
| `NucleusVerdict.VerdictSound` | phase2/scheduler.c:58-74 | HALT, WAIT and PANIC exactly when nobody lives, somebody waits for an interrupt, everybody waits on other semaphores |
| `NucleusVerdict.ShutdownHalts` | phase2/exceptions.c:223-232 | SYS2 of the first process ends everything and the scheduler halts, whoever waits on what |
| `NucleusVerdict.TerminateVerdict` | phase2/scheduler.c:58-74 | the verdict after any SYS2: with nobody ready, WAIT if anybody, alive or killed by it, was waiting on a device or the clock |
| `NucleusVerdict.WaitsForTheDead` | phase2/exceptions.c:394-401 | the scheduler waits though every survivor waits on other semaphores if and only if one of the killed waited on a device or the clock |
| `NucleusFairness.NextAdvances` | phase2/scheduler.c:56 | no event moves a ready process back, and each dispatch moves it forward |
| `NucleusFairness.BoundedWait` | phase2/scheduler.c:56 | a process at position k of the ready queue runs after k + 1 scheduler calls at the latest, or is dead |
| `NucleusSemaphores.TokensConserved` | phase2/exceptions.c:235-265 | over a run, free tokens and holders of a bracketed semaphore stay as many |
| `NucleusSemaphores.MutualExclusion` | phase2/exceptions.c:235-265 | a semaphore that starts at 1 and is used in brackets has at most one holder |
| `NucleusSemaphores.WaitersCounted` | phase2/exceptions.c:394-401 | in every state of a run, a negative semaphore has as many processes queued as it is below 0, another none |
| `NucleusSemaphores.UsersView` | phase2/exceptions.c:461-508 | P and V on a semaphore as its users see them: the value, the queue, who runs on, and that V wakes the longest waiter exactly when there is one |
| `NucleusSemaphores.PAndVInOrder` | phase2/exceptions.c:461-508 | they are the P and V of a first come, first served semaphore |
| `NucleusJoin.SignalsAreDistinct` | phase3/sysSupport.c:121-124 | as a user process ends right after its V, no process signals the master semaphore twice |
| `NucleusJoin.JoinWaitsForAll` | phase3/initProc.c:132-134 | from the master semaphore's 0, no more P's complete than different processes have signalled |
| `NucleusJoin.JoinIsOver` | phase3/initProc.c:132-137 | if only the user processes signal it, as many P's as there are of them complete only when every one has |
| `NucleusDevices.InterruptWakesExactly` | phase2/interrupts.c:190-201 | after any run, an interrupt wakes the longest waiter if and only if more processes wait than interrupts were lost; otherwise nobody |
| `NucleusDevices.BootWakesExactly` | phase2/interrupts.c:190-201 | the same from boot, where no semaphore has a surplus |
| `NucleusDevices.NextSurplus` | phase2/exceptions.c:461-508 | a device semaphore's value plus its waiters changes only at an interrupt of the device that wakes nobody, by 1 |
| `NucleusDevices.PromptLosesNothing` | phase2/exceptions.c:288-290 | no interrupt of a device is lost in a run if and only if each comes while somebody waits for it |
| `NucleusDevices.RunAnswers` | phase2/interrupts.c:190-201 | in such a run, every interrupt wakes the longest waiter |
| `NucleusDevices.EarlyInterruptIsLost` | phase2/exceptions.c:288-290 | an interrupt before the SYS5 leaves the caller blocked through the next interrupt |
| `NucleusDescriptors.FewSemaphoresSuffice` | phase1/asl.c:114-134 | if at most MAXPROC semaphores are ever waited on, no insertion fails in any run |
| `NucleusDescriptors.PKeepsExactly` | phase2/exceptions.c:235-253 | SYS3 keeps the invariant if and only if it passes, or blocks on a non-device semaphore with a descriptor at hand |
| `NucleusDescriptors.VKeepsExactly` | phase2/exceptions.c:257-264 | SYS4 keeps the invariant if and only if it leaves the waiters of devices and the clock alone |
| `NucleusDescriptors.CallerIsLost` | phase2/exceptions.c:461-473 | a P without a descriptor leaves its caller alive and in no queue |
| `NucleusDescriptors.WaitForKeepsExactly` | phase2/exceptions.c:268-315 | SYS5 and SYS7 keep the invariant if and only if a descriptor is at hand |
| `NucleusDescriptors.DescriptorsRunOut` | phase1/asl.c:161-175 | from boot, one process can bring the loss about through SYS5 alone, though nobody waits any more and every queue is empty |
| `PagerState.IndicesAgree` | phase3/vmSupport.c:109 | pager and refill handler compute the same page table index for every EntryHi |
| `PagerState.EntryHiInjective` | phase3/initProc.c:112-121 | the page table entries of all processes have different EntryHi words |
| `PagerState.PagesOfAddressSpace` | phase3/initProc.c:109-121 | the 32 pages are the first 31 of the address space and the one below the end of the stack |
| `PagerInvariant.NextKeeps` | phase3/vmSupport.c:95-173 | every step of the pager, and loads, stores, refills and faults in between, keep the invariant of the tables |
| `PagerQueue.NextSwapPool` | phase3/vmSupport.c:106-172 | the pager's P and V are those of a first come, first served semaphore, and nothing else touches it |
| `PagerQueue.NextPhase` | phase3/vmSupport.c:105-173 | for every event, where every process stands; at a V the first waiter goes on |
| `PagerQueue.WaiterServed` | phase3/vmSupport.c:106 | who waits for the swap pool at position k is past its P at the (k + 1)-th V, over every run |
| `PagerQueue.NextTlb` | phase3/vmSupport.c:125-169 | for every event, every entry of the TLB |
| `PagerQueue.NextTable` | phase3/vmSupport.c:156-161 | the swap pool table changes in one step only, and to what |
| `PagerQueue.NextLo` | phase3/vmSupport.c:121-166 | the page table entries change when a frame is chosen and when it is published, and to what |
| `PagerQueue.NextFrame` | phase3/vmSupport.c:146 | a frame changes by its page's stores and by the read of the missing page's block |
| `PagerQueue.NextBlock` | phase3/vmSupport.c:134 | a block changes when its page is written out |
| `PagerQueue.RefillTranslates` | phase2/exceptions.c:611-620 | after the refill of a valid page, an access to it goes through |
| `PagerInvariant.FramesMatchPages` | phase3/vmSupport.c:120-170 | occupied frames not in hand and valid entries correspond one to one; the TLB agrees with the page tables; no page is read-only |
| `PagerState.RefillServes` | phase2/exceptions.c:611-620 | the refill handler's entry is for the missing address if and only if that is one of the 32 pages |
| `PagerInvariant.OnlyPagesServed` | phase2/exceptions.c:611-620 | in every state, the TLB translates addresses of pages only |
| `PagerRefinement.NextContent` | phase3/vmSupport.c:95-173 | in every step, a page of a process changes by that process's own store only |
| `PagerRefinement.RunContent` | phase3/vmSupport.c:95-173 | over every interleaved run, a page is its start with its owner's stores applied in order |
| `PagerRefinement.PagesArePrivate` | phase3/vmSupport.c:95-173 | from the initial tables, a load through the TLB reads what a private memory of 32 pages would |
| `PagerRefinement.FaultServed` | phase3/vmSupport.c:105-173 | the process past the P makes its page valid and returns in at most six steps of its own |
| `PagerFifo.VictimIsOldest` | phase3/vmSupport.c:64-73 | an unoccupied frame is chosen while there is one, afterwards the one chosen longest ago |
| `PagerFifo.PageSurvives` | phase3/vmSupport.c:112-118 | over any run, a page keeps its frame through the next seven choices |
| `PagerLoads.RunOrdered` | phase3/vmSupport.c:64-169 | over every run, a frame in hand is the last one chosen, and pages became valid in the order in which their frames were chosen |
| `PagerLoads.VictimLoadedFirst` | phase3/vmSupport.c:64-73 | after every run from the initial tables, the frame chosen is unoccupied if any is, and otherwise its page became valid before every other |
| `PagerLoads.LoadedPageSurvives` | phase3/vmSupport.c:112-169 | a page that becomes valid stays so through fewer than eight further choices, in every run |
| `PagerFifo.StepSurvival` | phase3/vmSupport.c:112-131 | the eighth choice makes the page absent |
| `PagerCode.Pager.InitSwapStructs` | phase3/vmSupport.c:43-57 | every frame unoccupied, the semaphore 1 |
| `PagerCode.Pager.InitPageTables` | phase3/initProc.c:111-124 | every page table entry has its EntryHi, is dirty and not valid |
| `PagerCode.Pager.Choose` | phase3/vmSupport.c:112-131 | frame choice and invalidation, with the TLB cleared |
| `PagerCode.Pager.WriteOut` | phase3/vmSupport.c:134 | the frame goes to the block of the page that the swap pool table names |
| `PagerCode.Pager.ReadIn` | phase3/vmSupport.c:146 | the missing page's block goes to the frame |
| `PagerCode.Pager.Record` | phase3/vmSupport.c:156-161 | the swap pool entry names the new page |
| `PagerCode.Pager.Publish` | phase3/vmSupport.c:163-169 | the page table entry gets frame number, V and D, with the TLB cleared |
| `PagerCode.Pager.RefillTlb` | phase2/exceptions.c:611-620 | for any missing address, the TLB gets the entry that the address indexes; when that serves the address |
| `PagerCode.Pager.Serve` | phase3/vmSupport.c:105-172 | with the swap pool free and uninterrupted, the pager makes the missing page valid and leaves the content of every page of every process as it was |
| `PagerBuffers.CopyKeepsExactly` | phase3/sysSupport.c:499-502 | a copy to a buffer leaves every page of every process and the pager's invariant as they are, whatever is copied, if and only if no frame that is needed lies there or it holds the same |
| `PagerBuffers.BufferLeavesPages` | phase3/sysSupport.c:499-502 | for every device number whose buffer is apart from the swap pool, the copy into it changes nothing of the pager |
| `PagerBuffers.WriteKeepsExactly` | phase4/deviceSupportDMA.c:111-118 | a write to a page's block leaves every page and the pager's invariant as they are if and only if the page is in a frame, or being evicted from one, or the block held the same |
| `PagerBuffers.NumberMinusOne` | phase3/sysSupport.c:492-502 | a put to disk -1 replaces the page in the last frame |
| `PagerCalls.GetWrites` | phase4/deviceSupportDMA.c:53-75 | which block of a flash device a disk get changes, and to what |
| `PagerCalls.PutWrites` | phase3/sysSupport.c:568-594 | which block an admitted flash put changes |
| `PagerCalls.HarmlessExactly` | phase3/sysSupport.c:489-631 | whatever its data, a storage call leaves all pages alone if and only if it copies into no frame that matters and has no block written whose page is nowhere else |
| `PagerCalls.AloofExactly` | phase3/sysSupport.c:489-631 | the device, sector and block numbers of the calls that touch no frame and no page's block at all |
| `PagerCalls.AloofIsHarmless` | phase3/sysSupport.c:489-631 | such calls leave all pages alone in every state |
| `PagerCalls.ActsArePrivate` | phase3/vmSupport.c:95-173 | from the initial tables, with storage calls that meet these conditions among the steps, a load reads what a private memory would |
| `DelayLists.DelayList.constructor` | phase5/delayDaemon.c:262-299 | an empty list between sentinels and UPROCMAX free descriptors |
| `DelayLists.SearchEndsExactly` | phase5/delayDaemon.c:52-59 | the search ends on the list if and only if the wake time is at least -1 or some listed time is not later |
| `DelayLists.SearchRunsOff` | phase5/delayDaemon.c:87 | on an empty list, a delay of 2148 seconds asked for at time 0 makes it run off |
| `DelayLists.DelayList.InsertADL` | phase5/delayDaemon.c:48-63 | the descriptor goes behind the first node that is not later; without one, the search runs off the list, which stays as it was |
| `DelayLists.DelayList.Enroll` | phase5/delayDaemon.c:153-168 | allocation and insertion; failure with no change when no descriptor is free; a lost descriptor when the search runs off the list |
| `DelayLists.DelayList.Pass` | phase5/delayDaemon.c:208-236 | a round leaves exactly the survivors and wakes the others in order, on the linked lists, and ends |
| `DelayPass.PassExact` | phase5/delayDaemon.c:208-236 | whatever the list, a process is woken if and only if nobody up to it has the sentinel's time and the clock read at its inspection has reached its own |
| `DelayPass.SurvivorsInOrder` | phase5/delayDaemon.c:215-235 | the survivors keep their order |
| `DelayPass.WokenOnce` | phase5/delayDaemon.c:217-222 | nobody is woken twice in a round |
| `DelayPass.WokenInOrder` | phase5/delayDaemon.c:215-235 | processes are woken in the order of the list |
| `DelayPass.PassWakesTheDue` | phase5/delayDaemon.c:208-236 | of the processes that the round reaches, those due at its start are woken in it, and those due only after its end are not |
| `DelayPass.InsertedInFront` | phase5/delayDaemon.c:52-62 | a wake time that fits is tod + seconds * 1000000, and goes to the front of the list |
| `DelayPass.EarlyExactlyOnOverflow` | phase5/delayDaemon.c:87 | a delay can be cut short if and only if tod + seconds * 1000000 exceeds the largest signed word |
| `DelayPass.NeverWoken` | phase5/delayDaemon.c:210 | an entry with the tail sentinel's time, and all behind it, survive every round |
| `DelayInvariant.NextKeeps` | phase5/delayDaemon.c:146-239 | every step of callers and daemon keeps the invariant of list, pool and semaphores |
| `DelayEffects.NextListSemaphore` | phase5/delayDaemon.c:155-236 | the P's and V's on the list are those of a first come, first served semaphore |
| `DelayEffects.NextStage` | phase5/delayDaemon.c:146-239 | for every event, where every process and the daemon stand; a call ends its caller exactly for a negative delay |
| `DelayEffects.NextList` | phase5/delayDaemon.c:87-236 | for every event, the list: an enrolment puts the time plus the seconds asked for in front, and a wake-up removes one descriptor |
| `DelayEffects.EnrollIsEnroll` | phase5/delayDaemon.c:153-168 | the enrolment leaves the list that the linked-list code leaves |
| `DelayEffects.WaiterServed` | phase5/delayDaemon.c:155 | who waits for the list at position k, the daemon included, is past its P at the (k + 1)-th V |
| `DelayGuarantees.NeverEarly` | phase5/delayDaemon.c:146-239 | over every run, a delayed process is still delayed or its deadline has passed |
| `DelayGuarantees.DelayLastsLongEnough` | phase5/delayDaemon.c:146-178 | a SYS18 for n seconds has returned only when n seconds have passed since the call |
| `DelayGuarantees.OneWakeupPerDelay` | phase5/delayDaemon.c:171-172 | over every run, one V by the daemon for each sleep that has ended, and the private semaphore is 0 or -1 |
| `DelayGuarantees.DescriptorAtHand` | phase5/delayDaemon.c:152-162 | the branch for an empty pool is never taken; a process is terminated exactly by a negative delay |
| `DelayGuarantees.RoundWakesTheDue` | phase5/delayDaemon.c:200-239 | a round leaves nobody on the list who was due when it began, though others run and queue meanwhile |
| `DelayEffects.WokenInTime` | phase5/delayDaemon.c:200-239 | a process that enrols at t for n seconds has been woken by the end of any round begun n seconds after t |
| `DelayGuarantees.RoundIsPass` | phase5/delayDaemon.c:208-236 | the linked-list round is a run of the protocol: the list afterwards, and that exactly the woken are awake, with one more wakeup each |
| `DiskGeometry.PlaceIsExact` | phase4/deviceSupportDMA.c:62-70 | cylinder, head and sector determine the sector number, and are within the disk exactly below the capacity |
| `DiskGeometry.LinearIsExact` | phase4/deviceSupportDMA.c:62-70 | every place on the disk is the place of one sector below the capacity |
| `DiskGeometry.PlacesInOrder` | phase4/deviceSupportDMA.c:62-70 | sectors are numbered cylinder by cylinder, track by track |
| `DiskGeometry.RegisterDecodes` | phase4/deviceSupportDMA.c:54-56 | the three fields of the geometry register give the geometry back |
| `DiskGeometry.SeekDecodes` | phase4/deviceSupportDMA.c:62-63 | the seek command carries the cylinder if and only if it fits into 16 bits, as it does on the disk |
| `DiskGeometry.TransferDecodes` | phase4/deviceSupportDMA.c:68-70 | head, sector and command do not overlap and decode |
| `DiskTransfer.ReachedIsExact` | phase4/deviceSupportDMA.c:65-71 | a transfer reaches its sector if and only if the heads are on the sector's cylinder |
| `DiskTransfer.PutExactly` | phase3/sysSupport.c:489-517 | which sector a put writes for any number, when it is rejected, and where it leaves heads and buffer |
| `DiskTransfer.GetExactly` | phase3/sysSupport.c:528-557 | which sector a get reads for any number, that no sector changes, and that a refused one changes nothing |
| `DiskTransfer.SectorsServed` | phase4/deviceSupportDMA.c:62-70 | sectors below the capacity are served as themselves; when a number beyond it is rejected |
| `DiskTransfer.OutOfRangeAccepted` | phase4/deviceSupportDMA.c:60-65 | on a disk of one sector, a put to sector 65536 overwrites sector 0 |
| `DiskTransfer.PutThenGet` | phase3/sysSupport.c:489-557 | a get after a put returns the page, and all other sectors are unchanged |
| `DiskTransfer.PutInterleaved` | phase3/sysSupport.c:502-511 | which sector a put writes, and what, for everything that others do before and after its seek; it is the right sector if and only if the heads are back on its cylinder |
| `DiskTransfer.PutRightExactly` | phase3/sysSupport.c:502-511 | exactly when a put has the effect it should: with the heads on its cylinder, if the page is in the buffer; elsewhere, only if both sectors already hold what they would get |
| `DiskTransfer.PutUndisturbed` | phase3/sysSupport.c:502-511 | if nobody else uses the buffer, the page goes to the sector on the cylinder of the last accepted seek |
| `DiskTransfer.SeekRace` | phase3/sysSupport.c:506-511 | another caller's seek in between sends the page to another sector |
| `DiskTransfer.BufferRace` | phase3/sysSupport.c:502-511 | another caller's copy in between stores that caller's page |
| `DiskTransfer.GetInterleaved` | phase3/sysSupport.c:540-556 | what a get returns, for everything that others do between its seek, its read and its copy |
| `DiskTransfer.GetRightExactly` | phase3/sysSupport.c:540-556 | exactly when a get returns what its sector held |
| `StorageCalls.Memcpy` | phase3/sysSupport.c:473-478 | copies size bytes and nothing else, also within one array; one that starts inside its source repeats the bytes in front of it |
| `StorageCalls.StorageDriver.DiskOperation` | phase4/deviceSupportDMA.c:43-79 | builds the command word and has the device obey it, touching one disk and one buffer |
| `StorageCalls.StorageDriver.CopyIn` | phase3/sysSupport.c:499-502 | the first stretch of a put, for any buffer: the caller's page is there, and nothing else has changed |
| `StorageCalls.StorageDriver.DiskPut` | phase3/sysSupport.c:489-517 | SYS15 as Put of the caller's page; termination for an address below KUSEG |
| `StorageCalls.StorageDriver.DiskGet` | phase3/sysSupport.c:528-557 | SYS14 as Get; the caller's page is the buffer in the end, even after an error |
| `StorageCalls.StorageDriver.FlashPut` | phase3/sysSupport.c:568-594 | SYS17 as a write of the caller's page, with the checks |
| `StorageCalls.StorageDriver.FlashGet` | phase3/sysSupport.c:604-631 | SYS16 as a read, with the checks |
| `StorageCalls.FlashWriteThenRead` | phase4/deviceSupportDMA.c:98-119 | a block written is read back, every other block is unchanged, and a block the device lacks is refused |
| `StorageCalls.AdmittedExactly` | phase3/sysSupport.c:579 | the check admits exactly the blocks of the device, but every number when it has none |
| `StorageCalls.BuffersApartFromFrames` | phase3/sysSupport.c:492-502 | for every device number, exactly when the disk and the flash buffer are apart from the swap pool |
| `StorageCalls.BuffersApart` | phase3/sysSupport.c:499 | for every two device numbers, exactly when their disk and flash buffers are apart |
| `StorageCalls.ExistingBuffersApart` | phase3/sysSupport.c:499 | for devices that exist, swap frames, disk buffers and flash buffers are pairwise disjoint |
| `StorageCalls.NumbersOutside` | phase3/sysSupport.c:499 | disk -1 has the last frame as its buffer, disk 8 the buffer of flash device 0 |
| `DeviceNumbers.RegistersMeet` | phase4/deviceSupportDMA.c:50-51 | for every number on every line, exactly which device's register it has |
| `DeviceNumbers.ReachesExactly` | phase4/deviceSupportDMA.c:50-51 | for every number, whether a disk or flash operation reaches a disk, a flash device or a device of another line |
| `DeviceNumbers.DevicesApartFromFrames` | phase4/deviceSupportDMA.c:50-51 | no number that reaches a device has a frame of the swap pool as its buffer |
| `DeviceNumbers.SemaphoresMeet` | phase4/deviceSupportDMA.c:46-75 | but for terminals, a number reaches the register of a device if and only if its index is that device's semaphore |
| `DeviceNumbers.GetThroughExactly` | phase4/deviceSupportDMA.c:53-75 | what a disk get does to a flash device, for every sector number: which block is copied over which, and the status |
| `DeviceNumbers.PutThroughExactly` | phase4/deviceSupportDMA.c:53-75 | a disk put to a flash device changes no block and fails |
| `DeviceNumbers.NumberEight` | phase4/deviceSupportDMA.c:53-75 | with 257 blocks, the get of sector 5 of disk 8 copies block 5 of flash device 0 over its block 0, and succeeds |

## Left out

- Processor state, program counters, register copies, the BIOS data page and the pass-up vector: a control transfer
  is the end of a step.
- `mkEmptyProcQ`, `emptyProcQ`, `emptyChild` and `ADLEmpty` beyond the comparison with NULL that they are.
- CPU time, SYS6, SYS8 and the support structure pointer of a pcb; the time slice and timers themselves.
- Exceptions passed up to the support level, program traps, SYS9 to SYS13, printers and terminals, and the sweep
  over mutexes when a user process terminates.
- Interrupt line and device priorities, and the choice between a terminal's transmitter and receiver: the event names
  the device.
- `main` leaves `curr_proc` pointing at the first process while that is still in the ready queue; the model sets it
  at the scheduler call that follows.
- The address of `device_sem` is fixed at an arbitrary place; integer cells of memory are unbounded.
- ActiveSemaphores.Asl.InsertBlocked: requires an address below MAXINT, where all kernel and support level semaphores are. The list
  cannot look up larger ones, which its sentinel and the comparison in the search reserve.
- NucleusCode.Nucleus.Passeren: requires an address below MAXINT, as the insertion does.
- NucleusCode.Nucleus.SysPasseren: requires an address below MAXINT, as the insertion does.
- NucleusCode.Nucleus.WaitIO: requires a device that exists. The code does not check line and device number, and one outside
  names a word beside the semaphores.
- NucleusCode.Nucleus.TerminateProcess: says nothing of the links of a device queue in which a killed process stays; its pcb is
  in the free list as well then, and the two share a link.
- NucleusCode.Nucleus.Handle: requires that a descriptor is at hand for whoever has to wait and that SYS3 and SYS4 are not used on
  device semaphores; the lemmas of NucleusDescriptors say what happens otherwise.
- Write events initialise semaphores with a non-negative value while nobody waits on them.
- Each system call and interrupt is one step, as interrupts are off in the nucleus; the three other machines have
  their own, finer steps. Their P's and V's on the swap pool and on the list of delays are proved to be the nucleus's as
  its users see them (`PAndVInOrder`, `NextSwapPool`, `NextListSemaphore`); that these are the same events is not modelled.
- The mutual exclusion semaphores of disks and flash devices, and the loop that sets them to 1: every section that
  they protect is one step.
- Pager: flash operations answer READY, the victim counter does not overflow, and frame contents move at once.
- Delay facility: enrolling a descriptor and inspecting one, with the daemon's V, are one step each, as the list's
  semaphore is held meanwhile. Time does not run backwards and the time asked for fits below the tail sentinel, except in the
  lemmas that say what happens if not.
- PagerRefinement.PagesArePrivate: covers runs without storage calls; `PagerCalls.ActsArePrivate` covers those whose copies
  and writes meet the conditions of `CopyKeepsExactly` and `WriteKeepsExactly`, which the code does not check.
- StorageCalls.StorageDriver.DiskPut: requires a disk that exists, which the code does not check. `CopyIn` covers what happens
  before the device is used, for any number, and `DeviceNumbers` what a flash device does, which the numbers 8 to 15 name.
  It also requires that the caller's page lies in its address space; the access is not translated page by page here.
- StorageCalls.StorageDriver.DiskGet: requires a disk that exists, likewise.
- StorageCalls.StorageDriver.DiskOperation: requires a disk that exists, likewise.
- StorageCalls.StorageDriver.FlashPut: requires a flash device that exists, which the code does not check; the numbers -8 to -1
  name the disks and 8 to 31 the devices of the other lines.
- StorageCalls.StorageDriver.FlashGet: requires a flash device that exists, likewise.
- What network devices, printers and terminals do with the commands of the disk and flash drivers, what lies at addresses
  that are no device's register, and which kernel words the semaphore arrays name with an index outside them.
- A disk operation on a flash device whose number of blocks leaves no head or no sector a track divides by 0.
- Geometry registers have at least one head and one sector a track, and the device reads the fields of a command as
  wide as those of its geometry register: 16 bits for the cylinder, 8 for head and sector.
- How long a device takes, and that it answers at all.
