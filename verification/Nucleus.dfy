// The nucleus over its linked data structures. Every handler is proved to do to the pcb table,
// the ASL and the global variables exactly what the state machine of NucleusState says.
module NucleusCode {
  import opened Constants
  import opened Queues
  import opened Pcbs
  import opened ActiveSemaphores
  import opened NucleusState
  import opened NucleusInvariant
  import opened NucleusBlocking
  import opened ProcessTree
  import opened NucleusKill
  import opened NucleusRuns

  // No pcb is on two lists, but for those still in the queues of broken.
  ghost predicate ListsApart(s: State, broken: set<Address>) {
    && ArePcbs(s.free) && Distinct(s.free) && ArePcbs(s.ready) && Distinct(s.ready)
    && Apart(s.free, s.ready)
    && (forall a, i :: a in s.queues && a !in broken && 0 <= i < |s.queues[a]| ==>
          IsPcb(s.queues[a][i]) && s.queues[a][i] !in s.free && s.queues[a][i] !in s.ready)
  }

  // Freed pcbs are queued, if at all, on the semaphores of broken.
  ghost predicate HauntsOnly(s: State, broken: set<Address>) {
    forall a, p {:trigger p in s.queues[a]} :: a in s.queues && a !in broken && p in s.queues[a] ==> p !in s.free
  }

  lemma PlacedApart(s: State)
    requires Placed(s)
    ensures ListsApart(s, {})
  {
    PlacedIsFiled(s);
    FiledApart(s, {});
  }

  lemma FiledApart(s: State, broken: set<Address>)
    requires Filed(s) && HauntsOnly(s, broken)
    ensures ListsApart(s, broken)
  {
    forall a, i | a in s.queues && a !in broken && 0 <= i < |s.queues[a]|
      ensures IsPcb(s.queues[a][i]) && s.queues[a][i] !in s.free && s.queues[a][i] !in s.ready
    {
      assert s.queues[a][i] in s.queues[a];
    }
    forall i, j | 0 <= i < |s.free| && 0 <= j < |s.ready|
      ensures s.free[i] != s.ready[j]
    {
      assert s.ready[j] in s.ready && s.free[i] in s.free;
    }
  }

  // The family links of every live process.
  ghost predicate TreeHeld(parent: Column, child: Column, sib: Column, sibLeft: Column, free: seq<Ptr>,
      kids: seq<seq<Ptr>>)
    requires |kids| == MAXPROC
  {
    && (forall q :: IsPcb(q) && q !in free ==> IsFamily(parent, child, sib, sibLeft, q, kids[q]))
    && (0 !in free ==> parent[0] == NIL)
  }

  // Links changed only at the pcbs of changed keep the other lists.
  lemma ListsKept(s: State, next: Column, prev: Column, next': Column, prev': Column, changed: seq<Ptr>)
    requires LinksKept(next, prev, next', prev', changed)
    ensures forall head ::
      IsFreeList(next, head, s.free) && Apart(s.free, changed) ==> IsFreeList(next', head, s.free)
    ensures forall tail ::
      IsProcQ(next, prev, tail, s.ready) && Apart(s.ready, changed) ==> IsProcQ(next', prev', tail, s.ready)
  {
    forall head | IsFreeList(next, head, s.free) && Apart(s.free, changed)
      ensures IsFreeList(next', head, s.free)
    {
      FreeListKept(next, next', head, s.free, changed);
    }
    forall tail | IsProcQ(next, prev, tail, s.ready) && Apart(s.ready, changed)
      ensures IsProcQ(next', prev', tail, s.ready)
    {
      QueueKept(next, prev, next', prev', tail, s.ready, changed);
    }
  }

  class Nucleus {
    const pcbs: PcbTable
    const asl: Asl
    var readyQueue: Ptr
    var currProc: Ptr
    var processCnt: int
    var softblockCnt: int
    var mem: map<Address, int>
    ghost var st: State

    ghost predicate Variables()
      reads this
    {
      currProc == st.curr && processCnt == st.processCnt && softblockCnt == st.softblockCnt && mem == st.mem
    }

    ghost predicate Lists()
      reads this, pcbs`next, pcbs`prev, pcbs`semAdd, pcbs`freeHead, asl
    {
      && asl.pcbs == pcbs && asl.Valid() && asl.Queues == st.queues && pcbs.semAdd == st.semAdd
      && IsFreeList(pcbs.next, pcbs.freeHead, st.free)
      && IsProcQ(pcbs.next, pcbs.prev, readyQueue, st.ready)
    }

    // The variables and links are those of st, but for the links of the queues in asl.Broken.
    ghost predicate Links()
      reads this, pcbs, asl
    {
      Variables() && Lists() && TreeHeld(pcbs.parent, pcbs.child, pcbs.sib, pcbs.sibLeft, st.free, st.kids)
    }

    ghost predicate Rep()
      reads this, pcbs, asl
    {
      Links() && asl.Broken == {}
    }

    constructor ()
      ensures Rep() && st == Booted()
      ensures fresh(pcbs) && fresh(asl)
    {
      hide IsFreeList, IsProcQ, HoldsQueues, RecordsSemaphores, IsList, IsIndex, Vacant;
      var table := new PcbTable();
      pcbs := table;
      asl := new Asl(table);
      readyQueue, currProc, processCnt, softblockCnt, mem := NIL, NIL, 0, 0, map[];
      st := Vacant();
      new;
      EmptyQueue(pcbs.next, pcbs.prev);
      VacantFields(pcbs.parent, pcbs.child, pcbs.sib, pcbs.sibLeft);
      ClearDeviceSemaphores();
      FirstProcess();
    }

    method ClearDeviceSemaphores()
      requires Rep() && st == Vacant()
      modifies this`mem, this`st
      ensures Rep() && st == Vacant().(mem := DeviceCells(DEVSEMNO))
    {
      hide IsFreeList, IsProcQ, HoldsQueues, RecordsSemaphores, IsList, IsIndex, TreeHeld, Vacant;
      VacantFields(pcbs.parent, pcbs.child, pcbs.sib, pcbs.sibLeft);
      for i := 0 to DEVSEMNO
        invariant Rep() && st == Vacant().(mem := DeviceCells(i))
      {
        mem := mem[DeviceSem(i) := 0];
        st := st.(mem := mem);
      }
    }

    // The first process, ready to run.
    method FirstProcess()
      requires Rep() && st == Vacant().(mem := DeviceCells(DEVSEMNO))
      modifies this, pcbs
      ensures Rep() && st == Booted()
    {
      hide Lists, TreeHeld, Vacant, Booted, ListsApart, Rooted;
      VacantFacts(DeviceCells(DEVSEMNO));
      var p := TakeFree();
      MakeReady(p);
      EnterFirst(p);
    }

    method EnterFirst(p: Ptr)
      requires Rep() && p == 0 && st == FirstReady(DeviceCells(DEVSEMNO))
      modifies this`st, this`processCnt, pcbs`parent, pcbs`child, pcbs`sib, pcbs`sibLeft, pcbs`semAdd
      ensures Rep() && st == Booted()
    {
      hide IsFreeList, IsProcQ, HoldsQueues, IsList, IsIndex, TreeHeld, Booted, FirstReady;
      processCnt := processCnt + 1;
      pcbs.parent := pcbs.parent[p := NIL];
      pcbs.child := pcbs.child[p := NIL];
      pcbs.sib := pcbs.sib[p := NIL];
      pcbs.sibLeft := pcbs.sibLeft[p := NIL];
      pcbs.semAdd := pcbs.semAdd[p := NULL];
      FirstReadyFacts(DeviceCells(DEVSEMNO));
      BootedTree(pcbs.parent, pcbs.child, pcbs.sib, pcbs.sibLeft);
      st := Booted();
    }

    // ------------------------------------------------------------------- scheduling

    // Takes the head of the ready queue and decides.
    method Scheduler() returns (verdict: Verdict)
      requires Links() && ListsApart(st, asl.Broken)
      modifies this, pcbs`next, pcbs`prev
      ensures Links() && st == Schedule(old(st)) && verdict == Decision(st)
    {
      hide IsFreeList, IsProcQ, HoldsQueues, RecordsSemaphores, TreeHeld, LinksKept;
      readyQueue, currProc := pcbs.RemoveProcQ(readyQueue, st.ready);
      st := Schedule(st);
      KeepOthers(old(pcbs.next), old(pcbs.prev), old(st), old(st).ready);
      if currProc == NIL {
        if processCnt == 0 {
          return Halt;
        }
        if softblockCnt > 0 {
          return Wait;
        }
        return Panic;
      }
      return Dispatch;
    }

    // Moving pcbs of the ready queue around keeps the free list and the ASL.
    lemma KeepOthers(next: Column, prev: Column, s: State, changed: seq<Ptr>)
      requires asl.pcbs == pcbs && LinksKept(next, prev, pcbs.next, pcbs.prev, changed)
      requires HoldsQueues(next, prev, asl.procQ, asl.Desc, asl.Queues, asl.Broken) && asl.Queues == s.queues
      requires IsFreeList(next, pcbs.freeHead, s.free) && ListsApart(s, asl.Broken)
      requires forall i :: 0 <= i < |changed| ==> changed[i] in s.ready
      ensures HoldsQueues(pcbs.next, pcbs.prev, asl.procQ, asl.Desc, asl.Queues, asl.Broken)
      ensures IsFreeList(pcbs.next, pcbs.freeHead, s.free)
    {
      hide IsFreeList, IsProcQ, LinksKept, HoldsQueues;
      QueuesKeptElsewhere(next, prev, pcbs.next, pcbs.prev, asl.procQ, asl.Desc, asl.Queues, asl.Broken,
                          changed);
      ListsKept(s, next, prev, pcbs.next, pcbs.prev, changed);
    }

    // Appends p, which is on no list, to the ready queue.
    method MakeReady(p: Ptr)
      requires Rep() && IsPcb(p) && ListsApart(st.(ready := st.ready + [p]), {})
      modifies this`readyQueue, this`st, pcbs`next, pcbs`prev
      ensures Rep() && st == old(st).(ready := old(st).ready + [p])
    {
      hide IsFreeList, IsProcQ, HoldsQueues, RecordsSemaphores, TreeHeld, LinksKept;
      LastApart(st.ready, p);
      readyQueue := pcbs.InsertProcQ(readyQueue, p, st.ready);
      st := st.(ready := st.ready + [p]);
      KeepOthers(old(pcbs.next), old(pcbs.prev), st, st.ready);
    }

    lemma LastApart(q: seq<Ptr>, p: Ptr)
      requires Distinct(q + [p])
      ensures p !in q
    {
      forall i | 0 <= i < |q|
        ensures q[i] != p
      {
        assert (q + [p])[i] == q[i] && (q + [p])[|q|] == p;
      }
    }

    // ------------------------------------------------------------------------ P and V

    // The result of insertBlocked is ignored.
    method Passeren(a: Address)
      requires Rep() && Placed(st) && currProc != NIL && a < MAXINT
      modifies this, asl, pcbs`next, pcbs`prev, pcbs`semAdd
      ensures IsPcb(old(st).curr) && Rep() && st == NucleusState.Passeren(old(st), a) && ListsApart(st, {})
    {
      hide IsFreeList, IsProcQ, HoldsQueues, RecordsSemaphores, TreeHeld, LinksKept, Placed, Full, Inserted, IsList,
          IsIndex, ListsApart;
      CurrentUnqueued(st);
      PasserenApart(st, a);
      mem := mem[a := Cell(mem, a) - 1];
      var _ := asl.InsertBlocked(a, currProc);
      KeepReadyAndFree(old(pcbs.next), old(pcbs.prev), old(st), NucleusState.Passeren(old(st), a), a);
      st := NucleusState.Passeren(st, a);
    }

    lemma KeepReadyAndFree(next: Column, prev: Column, s: State, s': State, a: Address)
      requires ListsApart(s, asl.Broken) && ListsApart(s', asl.Broken) && a !in asl.Broken
      requires s'.free == s.free && s'.ready == s.ready
      requires LinksKept(next, prev, pcbs.next, pcbs.prev, QueueAt(s'.queues, a)) ||
          LinksKept(next, prev, pcbs.next, pcbs.prev, [])
      requires IsFreeList(next, pcbs.freeHead, s.free) && IsProcQ(next, prev, readyQueue, s.ready)
      ensures IsFreeList(pcbs.next, pcbs.freeHead, s.free) && IsProcQ(pcbs.next, pcbs.prev, readyQueue, s.ready)
    {
      hide IsFreeList, IsProcQ, LinksKept;
      QueueApart(s', asl.Broken, a);
      if LinksKept(next, prev, pcbs.next, pcbs.prev, []) {
        ListsKept(s, next, prev, pcbs.next, pcbs.prev, []);
      } else {
        ListsKept(s, next, prev, pcbs.next, pcbs.prev, QueueAt(s'.queues, a));
      }
    }

    // The V of the kernel: returns the process it makes ready, or NIL.
    method Verhogen(a: Address) returns (p: Ptr)
      requires Rep() && Placed(st)
      modifies this, asl, pcbs`next, pcbs`prev, pcbs`semAdd
      ensures Head(Waiting(old(st), a)) == NIL || IsPcb(Head(Waiting(old(st), a)))
      ensures Rep() && st == NucleusState.Verhogen(old(st), a) && p == Woken(old(st), a)
    {
      hide IsFreeList, IsProcQ, HoldsQueues, RecordsSemaphores, TreeHeld, Placed, IsList, IsIndex, Unblock;
      ghost var s := st;
      HeadIsPcb(s, a);
      p := NIL;
      mem := mem[a := Cell(mem, a) + 1];
      st := st.(mem := st.mem[a := Sem(st, a) + 1]);
      CellPlaced(s, st.mem);
      if Cell(mem, a) <= 0 {
        p := WakeHead(a);
      }
    }

    // Moves the head of the queue of a, if there is one, to the ready queue.
    method WakeHead(a: Address) returns (p: Ptr)
      requires Rep() && Placed(st)
      modifies this`readyQueue, this`st, asl, pcbs`next, pcbs`prev, pcbs`semAdd
      ensures Head(Waiting(old(st), a)) == NIL || IsPcb(Head(Waiting(old(st), a)))
      ensures Rep() && st == Unblock(old(st), a) && p == Head(Waiting(old(st), a))
    {
      hide IsFreeList, IsProcQ, HoldsQueues, RecordsSemaphores, TreeHeld, LinksKept, Placed, IsList, IsIndex,
          ListsApart, Removed;
      ghost var s := st;
      HeadIsPcb(s, a);
      UnblockPlaced(s, a);
      PlacedApart(s);
      PlacedApart(Unblock(s, a));
      p := asl.RemoveBlocked(a);
      KeepReadyAndFree(old(pcbs.next), old(pcbs.prev), s, s, a);
      st := st.(queues := Removed(st.queues, a), semAdd := Marked(st.semAdd, p, NULL));
      if p != NIL {
        MakeReady(p);
      }
      assert st == Unblock(s, a);
    }

    // ------------------------------------------------------------------- system calls

    // SYS1. Returns false, for the error code, when there is no free pcb.
    method CreateProcess() returns (created: bool)
      requires Rep() && Inv(st) && currProc != NIL
      modifies this, pcbs
      ensures IsPcb(old(st).curr) && (old(st).free == [] || IsPcb(old(st).free[0]))
      ensures Rep() && st == Create(old(st)) && created == (old(st).free != [])
    {
      hide IsFreeList, IsProcQ, HoldsQueues, RecordsSemaphores, IsList, IsIndex, TreeHeld, Inv, ListsApart;
      ghost var s := st;
      CreateFacts(s);
      var p := TakeFree();
      if p == NIL {
        return false;
      }
      MakeReady(p);
      assert st == Newborn(s);
      Adopt(p);
      processCnt := processCnt + 1;
      st := st.(birth := s.birth[p := s.clock], clock := s.clock + 1, processCnt := s.processCnt + 1);
      CreateSteps(s, st);
      return true;
    }

    // Allocates a pcb, which then is a childless process on no list.
    method TakeFree() returns (p: Ptr)
      requires Rep() && ListsApart(st, {}) && Rooted(st)
      modifies this`st, pcbs
      ensures p == Head(old(st).free)
      ensures p == NIL ==> Rep() && st == old(st)
      ensures p != NIL ==>
        IsPcb(p) && Rep() &&
        st == old(st).(free := old(st).free[1..], semAdd := old(st).semAdd[p := 0], kids := old(st).kids[p := []])
    {
      hide IsFreeList, IsProcQ, HoldsQueues, IsList, IsIndex, TreeHeld, LinksKept;
      ghost var s := st;
      p := pcbs.AllocPcb(st.free);
      if p != NIL {
        FirstFreeApart(s);
        OneLinkKept(old(pcbs.next), old(pcbs.prev), p, NIL, NIL);
        QueuesKeptElsewhere(old(pcbs.next), old(pcbs.prev), pcbs.next, pcbs.prev, asl.procQ, asl.Desc, asl.Queues,
                            asl.Broken, [p]);
        ListsKept(s, old(pcbs.next), old(pcbs.prev), pcbs.next, pcbs.prev, [p]);
        AllocatedTree(s, p, old(pcbs.parent), old(pcbs.child), old(pcbs.sib), old(pcbs.sibLeft));
        st := st.(free := st.free[1..], semAdd := st.semAdd[p := 0], kids := st.kids[p := []]);
      }
    }

    lemma AllocatedTree(s: State, p: Ptr, parent: Column, child: Column, sib: Column, sibLeft: Column)
      requires Rooted(s) && s.free != [] && p == s.free[0]
      requires TreeHeld(parent, child, sib, sibLeft, s.free, s.kids)
      requires pcbs.parent == parent[p := NIL] && pcbs.child == child[p := NIL] && pcbs.sib == sib[p := NIL] &&
          pcbs.sibLeft == sibLeft
      ensures TreeHeld(pcbs.parent, pcbs.child, pcbs.sib, pcbs.sibLeft, s.free[1..], s.kids[p := []])
    {
      hide IsFamily;
      TailDistinct(s.free);
      forall q | IsPcb(q) && q !in s.free[1..]
        ensures IsFamily(pcbs.parent, pcbs.child, pcbs.sib, pcbs.sibLeft, q, s.kids[p := []][q])
      {
        if q == p {
          Childless(pcbs.parent, pcbs.child, pcbs.sib, pcbs.sibLeft, p);
        } else {
          KidsApart(s, q, p);
          FamilyKept(parent, child, sib, sibLeft, pcbs.parent, pcbs.child, pcbs.sib, pcbs.sibLeft, q, s.kids[q], [p]);
        }
      }
    }

    // Makes p, which is nobody's child yet, the youngest child of the running process, waiting on nothing.
    method Adopt(p: Ptr)
      requires Rep() && IsPcb(p) && Live(st, st.curr) && p != st.curr && Live(st, p)
      requires forall q :: Live(st, q) ==> p !in st.kids[q]
      requires forall a, i :: a in st.queues && 0 <= i < |st.queues[a]| ==> st.queues[a][i] != p
      requires 0 !in st.free && p != 0
      modifies this`st, pcbs`parent, pcbs`child, pcbs`sib, pcbs`sibLeft, pcbs`semAdd
      ensures Rep()
      ensures var s := old(st); var q := s.curr;
        st == s.(parent := s.parent[p := q], kids := s.kids[q := [p] + s.kids[q]], semAdd := s.semAdd[p := NULL])
    {
      hide IsFreeList, IsProcQ, HoldsQueues, IsList, IsIndex, TreeHeld, IsFamily;
      ghost var s, q := st, st.curr;
      HeldFamily(pcbs.parent, pcbs.child, pcbs.sib, pcbs.sibLeft, s.free, s.kids, q);
      pcbs.InsertChild(currProc, p, s.kids[q]);
      AdoptedTree(s, p, old(pcbs.parent), old(pcbs.child), old(pcbs.sib), old(pcbs.sibLeft));
      pcbs.semAdd := pcbs.semAdd[p := NULL];
      st := s.(parent := s.parent[p := q], kids := s.kids[q := [p] + s.kids[q]], semAdd := s.semAdd[p := NULL]);
    }

    lemma AdoptedTree(s: State, p: Ptr, parent: Column, child: Column, sib: Column, sibLeft: Column)
      requires TreeHeld(parent, child, sib, sibLeft, s.free, s.kids) && Live(s, s.curr) && IsPcb(p) && p != 0
      requires forall q :: Live(s, q) ==> p !in s.kids[q]
      requires pcbs.parent == parent[p := s.curr] && pcbs.child == child[s.curr := p]
      requires SameOutside(sib, pcbs.sib, [p] + s.kids[s.curr]) &&
          SameOutside(sibLeft, pcbs.sibLeft, [p] + s.kids[s.curr])
      requires IsFamily(pcbs.parent, pcbs.child, pcbs.sib, pcbs.sibLeft, s.curr, [p] + s.kids[s.curr])
      ensures TreeHeld(pcbs.parent, pcbs.child, pcbs.sib, pcbs.sibLeft, s.free, s.kids[s.curr := [p] + s.kids[s.curr]])
    {
      hide IsFamily, SameOutside;
      var changed := [p] + s.kids[s.curr];
      OneParentKept(parent, p, s.curr, changed);
      forall q | IsPcb(q) && q !in s.free && q != s.curr
        ensures IsFamily(pcbs.parent, pcbs.child, pcbs.sib, pcbs.sibLeft, q, s.kids[q])
      {
        assert Live(s, q);
        FamiliesApart(parent, child, sib, sibLeft, q, s.kids[q], s.curr, s.kids[s.curr]);
        ConsApart(s.kids[q], p, s.kids[s.curr]);
        FamilyKept(parent, child, sib, sibLeft, pcbs.parent, pcbs.child, pcbs.sib, pcbs.sibLeft, q, s.kids[q], changed);
      }
    }

    // SYS3
    method SysPasseren(a: Address) returns (verdict: Verdict)
      requires Rep() && Placed(st) && currProc != NIL && a < MAXINT
      modifies this, asl, pcbs`next, pcbs`prev, pcbs`semAdd
      ensures IsPcb(old(st).curr) && Rep() && st == P(old(st), a) && verdict == Decision(st)
    {
      hide IsFreeList, IsProcQ, HoldsQueues, RecordsSemaphores, IsList, IsIndex, TreeHeld, Placed, Full, Inserted,
          ListsApart;
      CurrentUnqueued(st);
      if Cell(mem, a) - 1 >= 0 {
        mem := mem[a := Cell(mem, a) - 1];
        st := st.(mem := st.mem[a := Sem(st, a) - 1]);
        verdict := Dispatch;
      } else {
        Passeren(a);
        verdict := Scheduler();
      }
    }

    // SYS4; the caller goes on.
    method SysVerhogen(a: Address)
      requires Rep() && Placed(st)
      modifies this, asl, pcbs`next, pcbs`prev, pcbs`semAdd
      ensures Head(Waiting(old(st), a)) == NIL || IsPcb(Head(Waiting(old(st), a)))
      ensures Rep() && st == NucleusState.Verhogen(old(st), a)
    {
      var _ := Verhogen(a);
    }

    // SYS5
    method WaitIO(device: Device) returns (verdict: Verdict)
      requires Rep() && Placed(st) && currProc != NIL && device.Exists()
      modifies this, asl, pcbs`next, pcbs`prev, pcbs`semAdd
      ensures IsPcb(old(st).curr) && Rep() && st == WaitFor(old(st), SemOf(device)) && verdict == Decision(st)
    {
      verdict := WaitOn(DeviceSem(device.Index()));
    }

    // SYS7
    method WaitClock() returns (verdict: Verdict)
      requires Rep() && Placed(st) && currProc != NIL
      modifies this, asl, pcbs`next, pcbs`prev, pcbs`semAdd
      ensures IsPcb(old(st).curr) && Rep() && st == WaitFor(old(st), CLOCK) && verdict == Decision(st)
    {
      verdict := WaitOn(DeviceSem(PSEUDOCLK));
    }

    method WaitOn(a: Address) returns (verdict: Verdict)
      requires Rep() && Placed(st) && currProc != NIL && a < MAXINT
      modifies this, asl, pcbs`next, pcbs`prev, pcbs`semAdd
      ensures IsPcb(old(st).curr) && Rep() && st == WaitFor(old(st), a) && verdict == Decision(st)
    {
      hide IsFreeList, IsProcQ, HoldsQueues, RecordsSemaphores, IsList, IsIndex, TreeHeld, Placed, Full, Inserted,
          ListsApart;
      Passeren(a);
      softblockCnt := softblockCnt + 1;
      st := st.(softblockCnt := st.softblockCnt + 1);
      CounterApart(NucleusState.Passeren(old(st), a), st, {});
      verdict := Scheduler();
    }

    // --------------------------------------------------------------------- termination

    // Takes p out of the queue of its semaphore, which no device owns, and gives the semaphore back.
    method LeaveSemaphore(p: Ptr)
      requires Links() && ListsApart(st, asl.Broken) && IsPcb(p)
      requires st.semAdd[p] != NULL && !IsDeviceSem(st.semAdd[p]) && OnlyDevices(asl.Broken)
      modifies this`mem, this`st, asl, pcbs`next, pcbs`prev, pcbs`semAdd
      ensures Links() && asl.Broken == old(asl.Broken) && st == Withdraw(old(st), p)
    {
      hide IsFreeList, IsProcQ, HoldsQueues, RecordsSemaphores, TreeHeld, LinksKept, IsList, IsIndex, ListsApart, Left;
      ghost var s, a := st, pcbs.semAdd[p];
      mem := mem[pcbs.semAdd[p] := Cell(mem, pcbs.semAdd[p]) + 1];
      var _ := asl.OutBlocked(p);
      KeepReadyAndFree(old(pcbs.next), old(pcbs.prev), s, s, a);
      st := Withdraw(st, p);
    }

    method LeaveReady(p: Ptr)
      requires Links() && ListsApart(st, asl.Broken) && IsPcb(p) && st.semAdd[p] == NULL
      modifies this`readyQueue, this`st, pcbs`next, pcbs`prev
      ensures Links() && st == Withdraw(old(st), p)
    {
      hide IsFreeList, IsProcQ, HoldsQueues, RecordsSemaphores, TreeHeld, LinksKept, Without;
      ghost var s := st;
      var removed;
      readyQueue, removed := pcbs.OutProcQ(readyQueue, p, st.ready);
      KeepOthers(old(pcbs.next), old(pcbs.prev), s, s.ready);
      st := Withdraw(st, p);
    }

    // Takes p out of its parent's family.
    method LeaveFamily(p: Ptr)
      requires Links() && Live(st, p)
      requires p == 0 ==> st.parent[p] == NIL
      requires p != 0 ==> Live(st, st.parent[p]) && p in st.kids[st.parent[p]]
      modifies this`st, pcbs`parent, pcbs`child, pcbs`sib, pcbs`sibLeft
      ensures Links() && st == Orphan(old(st), p)
    {
      hide IsFreeList, IsProcQ, HoldsQueues, RecordsSemaphores, IsList, IsIndex, Without, SameOutside;
      ghost var s, q := st, st.parent[p];
      var _ := pcbs.OutChild(p, if p == 0 then [] else s.kids[q]);
      if p != 0 {
        OrphanedTree(s, p, old(pcbs.parent), old(pcbs.child), old(pcbs.sib), old(pcbs.sibLeft));
      }
      st := Orphan(st, p);
    }

    lemma OrphanedTree(s: State, p: Ptr, parent: Column, child: Column, sib: Column, sibLeft: Column)
      requires TreeHeld(parent, child, sib, sibLeft, s.free, s.kids)
      requires p != 0 && Live(s, p) && Live(s, s.parent[p]) && p in s.kids[s.parent[p]]
      requires pcbs.parent == parent[p := pcbs.parent[p]]
      requires pcbs.child == child[s.parent[p] := pcbs.child[s.parent[p]]]
      requires SameOutside(sib, pcbs.sib, s.kids[s.parent[p]]) && SameOutside(sibLeft, pcbs.sibLeft, s.kids[s.parent[p]])
      requires IsFamily(pcbs.parent, pcbs.child, pcbs.sib, pcbs.sibLeft, s.parent[p], Without(s.kids[s.parent[p]], p))
      ensures TreeHeld(pcbs.parent, pcbs.child, pcbs.sib, pcbs.sibLeft, s.free, Orphan(s, p).kids)
    {
      hide IsFamily, SameOutside, Without;
      var f := s.parent[p];
      OneParentKept(parent, p, pcbs.parent[p], s.kids[f]);
      forall q | IsPcb(q) && q !in s.free && q != f
        ensures IsFamily(pcbs.parent, pcbs.child, pcbs.sib, pcbs.sibLeft, q, s.kids[q])
      {
        FamiliesApart(parent, child, sib, sibLeft, q, s.kids[q], f, s.kids[f]);
        FamilyKept(parent, child, sib, sibLeft, pcbs.parent, pcbs.child, pcbs.sib, pcbs.sibLeft, q, s.kids[q], s.kids[f]);
      }
    }

    // Puts p, which is on no list, back on the free list.
    method Release(p: Ptr)
      requires Links() && IsPcb(p) && ListsApart(st.(free := [p] + st.free), asl.Broken)
      modifies this`st, this`processCnt, pcbs`next, pcbs`freeHead
      ensures Links() && st == old(st).(free := [p] + old(st).free, processCnt := old(st).processCnt - 1)
    {
      hide IsFreeList, IsProcQ, HoldsQueues, RecordsSemaphores, IsList, IsIndex, IsFamily, LinksKept;
      ghost var s := st;
      ReleasedApart(s, asl.Broken, p);
      pcbs.FreePcb(p, st.free);
      OneLinkKept(old(pcbs.next), pcbs.prev, p, pcbs.next[p], pcbs.prev[p]);
      assert pcbs.prev[p := pcbs.prev[p]] == pcbs.prev;
      QueuesKeptElsewhere(old(pcbs.next), pcbs.prev, pcbs.next, pcbs.prev, asl.procQ, asl.Desc, asl.Queues,
                            asl.Broken, [p]);
      ListsKept(s, old(pcbs.next), pcbs.prev, pcbs.next, pcbs.prev, [p]);
      processCnt := processCnt - 1;
      st := st.(free := [p] + st.free, processCnt := st.processCnt - 1);
    }

    // A process that waits on a device stays queued there though it is free, so the links of that
    // queue are given up.
    method KillProcess(p: Ptr)
      requires Links() && OnlyDevices(asl.Broken)
      requires Filed(st) && HauntsOnly(st, asl.Broken) && Rooted(st) && Live(st, p) && CanKill(st, asl.Broken, p)
      modifies this, asl, pcbs
      ensures Links() && asl.Broken == old(asl.Broken) && st == Kill(old(st), p)
    {
      hide IsFreeList, IsProcQ, HoldsQueues, RecordsSemaphores, TreeHeld, IsList, IsIndex, ListsApart, Filed,
          HauntsOnly, Withdraw, Without, Left;
      ghost var s, broken := st, asl.Broken;
      KillApart(s, broken, p);
      KillTree(s, p);
      WithdrawTree(s, p);
      if pcbs.semAdd[p] != NULL {
        if !IsDeviceSem(pcbs.semAdd[p]) {
          LeaveSemaphore(p);
        }
      } else {
        LeaveReady(p);
      }
      LeaveFamily(p);
      CounterApart(Kill(s, p), st.(free := [p] + st.free), broken);
      Release(p);
    }

    // first is the child number i of q; it dies with its descendants and its right siblings.
    method KillDescendants(first: Ptr, ghost q: Ptr, ghost i: nat)
      requires Links() && OnlyDevices(asl.Broken) && Sound(st, asl.Broken) && Live(st, q) && i <= |st.kids[q]|
      requires first == Head(st.kids[q][i..])
      requires AllLive(st, st.kids[q][i..]) && Younger(st, st.kids[q][i..], st.birth[q])
      requires Spared(st, asl.Broken, KillOrder(st, st.kids[q][i..], st.birth[q]))
      modifies this, asl, pcbs
      ensures Links() && asl.Broken == old(asl.Broken)
      ensures var s := old(st);
        AllLive(s, s.kids[q][i..]) && Younger(s, s.kids[q][i..], s.birth[q]) &&
        st == KillAll(s, KillOrder(s, s.kids[q][i..], s.birth[q]))
      decreases st.clock - st.birth[q], |st.kids[q]| - i
    {
      hide Links, Sound, KillAll, KillOrder, Kill, Filed, Rooted, Spared, OnlyDevices, HauntsOnly;
      ghost var s, broken := st, asl.Broken;
      SoundParts(s, broken);
      if first == NIL {
        KillNobody(s, s.birth[q]);
        return;
      }
      ForestParts(s, q, i);
      ghost var below := KillOrder(s, s.kids[first], s.birth[first]);
      ghost var beside := KillOrder(s, s.kids[q][i + 1..], s.birth[q]);
      FirstForest(s, broken, q, i);
      ChildHead(first);
      KillDescendants(pcbs.child[first], first, 0);
      ghost var s1 := st;
      SecondForest(s, broken, q, i, s1);
      SiblingHead(q, i);
      KillDescendants(pcbs.sib[first], q, i + 1);
      LastOfForest(s, broken, q, i, s1, st);
      KillProcess(first);
      JoinForest(s, below, beside, first);
    }

    lemma ChildHead(q: Ptr)
      requires Links() && Live(st, q)
      ensures pcbs.child[q] == Head(st.kids[q])
    {
      HeldFamily(pcbs.parent, pcbs.child, pcbs.sib, pcbs.sibLeft, st.free, st.kids, q);
    }

    lemma SiblingHead(q: Ptr, i: nat)
      requires Links() && Live(st, q) && i < |st.kids[q]|
      ensures IsPcb(st.kids[q][i]) && pcbs.sib[st.kids[q][i]] == Head(st.kids[q][i + 1..])
    {
      HeldFamily(pcbs.parent, pcbs.child, pcbs.sib, pcbs.sibLeft, st.free, st.kids, q);
    }

    // SYS2, also what an exception without a support structure comes to.
    method TerminateProcess() returns (verdict: Verdict)
      requires Rep() && Inv(st) && currProc != NIL
      modifies this, asl, pcbs
      ensures Live(old(st), old(st).curr) && Rooted(old(st))
      ensures Links() && asl.Broken == Haunted(old(st)) && st == Terminate(old(st)) && verdict == Decision(st)
    {
      hide Inv, KillAll, KillOrder, Kill, Filed, Rooted, TreeHeld, Spared, Subtree, ListsApart, Haunted, OnlyDevices,
          HauntsOnly, CanKill, IsFreeList, IsProcQ, HoldsQueues, RecordsSemaphores, IsList, IsIndex;
      ghost var s, p := st, st.curr;
      TerminateForest(s);
      asl.Abandon(Haunted(s));
      ChildHead(p);
      KillDescendants(pcbs.child[currProc], p, 0);
      TerminateLast(s, st);
      KillProcess(currProc);
      verdict := Scheduler();
    }

    // --------------------------------------------------------------------- interrupts

    // The rest of a handler: back to the interrupted process, or on to the scheduler.
    method ResumeCurrent() returns (verdict: Verdict)
      requires Rep() && ListsApart(st, {})
      modifies this, pcbs`next, pcbs`prev
      ensures Rep() && st == Resume(old(st)) && verdict == Decision(st)
    {
      hide IsFreeList, IsProcQ, HoldsQueues, RecordsSemaphores, IsList, IsIndex, TreeHeld, ListsApart;
      if currProc != NIL {
        return Dispatch;
      }
      verdict := Scheduler();
    }

    // The device's interrupt, once its status has been saved and acknowledged.
    method NonTimerInterrupt(device: Device) returns (verdict: Verdict)
      requires Rep() && Placed(st) && device.Exists()
      modifies this, asl, pcbs`next, pcbs`prev, pcbs`semAdd
      ensures Head(Waiting(old(st), SemOf(device))) == NIL || IsPcb(Head(Waiting(old(st), SemOf(device))))
      ensures Rep() && st == DeviceInterrupt(old(st), SemOf(device)) && verdict == Decision(st)
    {
      hide IsFreeList, IsProcQ, HoldsQueues, RecordsSemaphores, IsList, IsIndex, TreeHeld, Placed, ListsApart,
          NucleusState.Verhogen;
      var a := DeviceSem(device.Index());
      VerhogenPlaced(st, a);
      PlacedApart(NucleusState.Verhogen(st, a));
      var unblocked := Verhogen(a);
      if unblocked != NIL {
        softblockCnt := softblockCnt - 1;
        st := st.(softblockCnt := st.softblockCnt - 1);
      }
      CounterApart(NucleusState.Verhogen(old(st), a), st, {});
      verdict := ResumeCurrent();
    }

    // The end of a time slice.
    method PLTInterrupt() returns (verdict: Verdict)
      requires Rep() && Placed(st) && currProc != NIL
      modifies this, pcbs`next, pcbs`prev
      ensures Rep() && st == Preempt(old(st)) && verdict == Decision(st)
    {
      hide IsFreeList, IsProcQ, HoldsQueues, RecordsSemaphores, IsList, IsIndex, TreeHeld, Placed, ListsApart;
      CurrentAppended(st);
      MakeReady(currProc);
      verdict := Scheduler();
    }

    method IntervalTimerInterrupt() returns (verdict: Verdict)
      requires Rep() && Placed(st)
      modifies this, asl, pcbs`next, pcbs`prev, pcbs`semAdd
      ensures ArePcbs(Waiting(old(st), CLOCK))
      ensures Rep() && st == ClockInterrupt(old(st)) && verdict == Decision(st)
    {
      hide Lists, TreeHeld, Placed, ListsApart, Drain;
      HeadIsPcb(st, CLOCK);
      var drained := false;
      while !drained
        invariant Rep() && Placed(st)
        invariant ArePcbs(Waiting(st, CLOCK))
        invariant if drained then st == Drain(old(st)) else Drain(st) == Drain(old(st))
        decreases if drained then 0 else 1, |Waiting(st, CLOCK)|
      {
        var p := WakeClockWaiter();
        drained := p == NIL;
      }
      PlacedApart(st);
      ResetClock();
      verdict := ResumeCurrent();
    }

    // One iteration of the drain; the last, failing one returns NIL.
    method WakeClockWaiter() returns (p: Ptr)
      requires Rep() && Placed(st)
      modifies this`readyQueue, this`softblockCnt, this`st, asl, pcbs`next, pcbs`prev, pcbs`semAdd
      ensures Rep() && Placed(st) && ArePcbs(Waiting(old(st), CLOCK)) && ArePcbs(Waiting(st, CLOCK))
      ensures p == NIL ==> st == Drain(old(st))
      ensures p != NIL ==> Drain(st) == Drain(old(st)) && |Waiting(st, CLOCK)| < |Waiting(old(st), CLOCK)|
    {
      hide IsFreeList, IsProcQ, HoldsQueues, RecordsSemaphores, IsList, IsIndex, TreeHeld, Placed, ListsApart, Unblock;
      ghost var s := st;
      UnblockPlaced(st, CLOCK);
      UnblockWaiting(st, CLOCK);
      HeadIsPcb(st, CLOCK);
      p := WakeHead(CLOCK);
      HeadIsPcb(st, CLOCK);
      if p != NIL {
        softblockCnt := softblockCnt - 1;
        st := st.(softblockCnt := st.softblockCnt - 1);
        CounterIrrelevant(Unblock(s, CLOCK), st.softblockCnt);
        UnblockCounter(s, CLOCK);
      }
    }

    method ResetClock()
      requires Rep() && ListsApart(st, {})
      modifies this`mem, this`st
      ensures Rep() && ListsApart(st, {}) && st == old(st).(mem := old(st).mem[CLOCK := 0])
    {
      hide IsFreeList, IsProcQ, HoldsQueues, RecordsSemaphores, IsList, IsIndex, TreeHeld, ListsApart;
      CounterApart(st, st.(mem := st.mem[CLOCK := 0]), {});
      mem := mem[CLOCK := 0];
      st := st.(mem := st.mem[CLOCK := 0]);
    }

    // Every system call and interrupt, on the linked data structures, does what the state machine does;
    // the verdict says how control goes on.
    method Handle(e: Event) returns (verdict: Verdict)
      requires Rep() && Inv(st) && Possible(st, e) && Disciplined(st, e) && HasRoom(st, e)
      modifies this, asl, pcbs
      ensures Inv(old(st)) && Possible(old(st), e)
      ensures Rep() && Inv(st) && st == Next(old(st), e) && verdict == Decision(st)
    {
      hide Rep, Links, Inv, Disciplined, HasRoom, Create, Terminate, Haunted, P, NucleusState.Verhogen, WaitFor,
          DeviceInterrupt, ClockInterrupt, Preempt;
      ghost var s := st;
      NextKeeps(s, e);
      HandleFacts(e);
      verdict := Dispatch;
      match e
      case Sys1 =>
        var _ := CreateProcess();
        CreateRunsOn(s);
      case Sys2 =>
        verdict := TerminateProcess();
        Whole();
      case Sys3(a) =>
        verdict := SysPasseren(a);
      case Sys4(a) =>
        SysVerhogen(a);
        VerhogenRunsOn(s, a);
      case Sys5(device) =>
        verdict := WaitIO(device);
      case Sys7 =>
        verdict := WaitClock();
      case Interrupt(device) =>
        verdict := NonTimerInterrupt(device);
      case ClockTick =>
        verdict := IntervalTimerInterrupt();
      case QuantumEnd =>
        verdict := PLTInterrupt();
      case Write(a, value) =>
        Store(a, value);
    }

    // The running process writes a word of its memory.
    method Store(a: Address, value: int)
      requires Rep()
      modifies this`mem, this`st
      ensures Rep() && st == old(st).(mem := old(st).mem[a := value])
    {
      hide IsFreeList, IsProcQ, HoldsQueues, RecordsSemaphores, IsList, IsIndex, TreeHeld;
      mem := mem[a := value];
      st := st.(mem := st.mem[a := value]);
    }

    lemma Whole()
      requires Links() && asl.Broken == {}
      ensures Rep()
    {
    }

    lemma HandleFacts(e: Event)
      requires Rep() && Inv(st) && Possible(st, e) && Disciplined(st, e)
      ensures Placed(st) && currProc == st.curr
      ensures e.Sys2? ==> Live(st, st.curr) && Rooted(st) && Haunted(st) == {}
    {
      InvParts(st);
      if e.Sys2? {
        CurrentLives(st);
      }
    }
  }

  lemma CreateRunsOn(s: State)
    requires IsPcb(s.curr) && (s.free == [] || IsPcb(s.free[0]))
    ensures Decision(Create(s)) == Dispatch
  {
  }

  lemma VerhogenRunsOn(s: State, a: Address)
    requires s.curr != NIL && (Head(Waiting(s, a)) == NIL || IsPcb(Head(Waiting(s, a))))
    ensures Decision(NucleusState.Verhogen(s, a)) == Dispatch
  {
  }

  predicate OnlyDevices(broken: set<Address>) {
    forall a :: a in broken ==> IsDeviceSem(a)
  }

  // The device semaphores on which somebody waits whom SYS2 is about to kill.
  ghost function Haunted(s: State): set<Address>
    requires Rooted(s) && Live(s, s.curr)
  {
    set p | p in Subtree(s, s.curr) && DeviceBlocked(s, p) :: s.semAdd[p]
  }

  ghost predicate CanKill(s: State, broken: set<Address>, p: Ptr)
    requires IsPcb(p)
  {
    DeviceBlocked(s, p) ==> s.semAdd[p] in broken
  }

  // Nobody of victims runs, or waits on a device but those of broken.
  ghost predicate Spared(s: State, broken: set<Address>, victims: seq<Ptr>) {
    forall p :: p in victims ==> IsPcb(p) && p != s.curr && CanKill(s, broken, p)
  }

  // The invariant, but for freed pcbs in the queues of broken.
  ghost predicate Sound(s: State, broken: set<Address>) {
    Filed(s) && HauntsOnly(s, broken) && Counted(s) && Balanced(s) && Clocked(s) && Rooted(s)
  }

  lemma SoundParts(s: State, broken: set<Address>)
    requires Sound(s, broken)
    ensures Filed(s) && HauntsOnly(s, broken) && Counted(s) && Balanced(s) && Clocked(s) && Rooted(s)
  {
  }

  lemma InvParts(s: State)
    requires Inv(s)
    ensures Placed(s) && Counted(s) && Balanced(s) && Clocked(s) && Rooted(s)
  {
  }

  lemma KillApart(s: State, broken: set<Address>, p: Ptr)
    requires Filed(s) && HauntsOnly(s, broken) && Live(s, p) && CanKill(s, broken, p)
    ensures ListsApart(s, broken) && ListsApart(Kill(s, p), broken)
    ensures s.semAdd[p] != NULL && IsDeviceSem(s.semAdd[p]) ==> Withdraw(s, p) == s
  {
    hide Filed, HauntsOnly, Kill;
    FiledApart(s, broken);
    KillFiled(s, p);
    KillHauntsOnly(s, broken, p);
    FiledApart(KillAs(s, p), broken);
    CounterApart(KillAs(s, p), Kill(s, p), broken);
  }

  lemma KillHauntsOnly(s: State, broken: set<Address>, p: Ptr)
    requires Filed(s) && HauntsOnly(s, broken) && Live(s, p) && CanKill(s, broken, p)
    ensures HauntsOnly(KillAs(s, p), broken)
  {
    hide Kill, Without, Filed;
    KillMarks(s, p);
    QueuedRecords(s);
    var s' := KillAs(s, p);
    forall a, x | a in s'.queues && a !in broken && x in s'.queues[a]
      ensures x !in s'.free
    {
      KillWaiting(s, p, a);
      assert x in Waiting(s', a) && x in s.queues[a];
    }
  }

  lemma WithdrawTree(s: State, p: Ptr)
    requires IsPcb(p)
    ensures
      var s' := Withdraw(s, p);
      s'.free == s.free && s'.parent == s.parent && s'.kids == s.kids && s'.processCnt == s.processCnt
  {
  }

  lemma ReleasedApart(s: State, broken: set<Address>, p: Ptr)
    requires ListsApart(s.(free := [p] + s.free), broken) && IsPcb(p)
    ensures p !in s.free && Apart(s.ready, [p]) && Apart(s.free, [p])
    ensures forall a, i :: a in s.queues && a !in broken && 0 <= i < |s.queues[a]| ==> s.queues[a][i] !in [p]
  {
    var s' := s.(free := [p] + s.free);
    assert s'.free[0] == p;
    TailDistinct(s'.free);
    assert s'.free[1..] == s.free;
    forall i | 0 <= i < |s.ready|
      ensures s.ready[i] != p
    {
      assert s'.free[0] != s'.ready[i];
    }
    forall a, i | a in s.queues && a !in broken && 0 <= i < |s.queues[a]|
      ensures s.queues[a][i] != p
    {
      assert s'.queues[a][i] !in s'.free;
    }
  }

  // A forest without the running process can be killed.
  lemma KillForestKeeps(s: State, broken: set<Address>, q: Ptr, i: nat)
    requires Sound(s, broken) && Live(s, q) && i <= |s.kids[q]|
    requires Rooted(s) && AllLive(s, s.kids[q][i..]) && Younger(s, s.kids[q][i..], s.birth[q])
    requires Spared(s, broken, KillOrder(s, s.kids[q][i..], s.birth[q]))
    ensures
      var v := KillOrder(s, s.kids[q][i..], s.birth[q]);
      var s' := KillAll(s, v);
      && Sound(s', broken) && s'.curr == s.curr
      && (forall x :: Live(s', x) <==> Live(s, x) && x !in v)
      && (forall x :: IsPcb(x) && x !in v && CanKill(s, broken, x) ==> CanKill(s', broken, x))
  {
    hide Filed, HauntsOnly, Counted, Balanced, Clocked, Rooted, KillAll, KillAllAs, KillOrder, CanKill, Purged, Pruned;
    var v := KillOrder(s, s.kids[q][i..], s.birth[q]);
    var s' := KillAll(s, v);
    KidsLive(s, q);
    SuffixOfKids(s, q, i);
    OrderDistinct(s, q, s.kids[q][i..], s.birth[q]);
    KillForest(s, q, i);
    PrunedParts(s, s', v);
    KillAllQueues(s, v);
    KillAllIsAs(s, v);
    KillAllCurrIrrelevant(s, v, s.curr);
    PurgedKeeps(s, s', broken, v);
  }

  lemma PrunedParts(s: State, s': State, victims: seq<Ptr>)
    requires Pruned(s, s', victims)
    ensures Rooted(s') && forall x :: x in s'.free <==> x in s.free || x in victims
  {
    hide Rooted;
    ReversedElements(victims);
  }

  lemma PurgedKeeps(s: State, s': State, broken: set<Address>, v: seq<Ptr>)
    requires Filed(s) && HauntsOnly(s, broken) && Spared(s, broken, v) && Purged(s, s', Elements(v))
    requires forall x :: x in s'.free <==> x in s.free || x in v
    ensures HauntsOnly(s', broken)
    ensures forall x :: IsPcb(x) && x !in v && CanKill(s, broken, x) ==> CanKill(s', broken, x)
  {
    hide Filed, Avoiding;
    QueuedRecords(s);
    assert forall x :: x in v <==> x in Elements(v);
    forall a, x | a in s'.queues && a !in broken && x in s'.queues[a]
      ensures x !in s'.free
    {
      assert x in Waiting(s', a);
      AvoidingElements(Waiting(s, a), Elements(v));
      assert x in s.queues[a];
    }
  }

  // The three parts of killDescendants on the child number i of q: what is below it dies first,
  ghost predicate Condemned(s: State, broken: set<Address>, q: Ptr, i: nat) {
    && Sound(s, broken) && Rooted(s) && Live(s, q) && i < |s.kids[q]|
    && AllLive(s, s.kids[q][i..]) && Younger(s, s.kids[q][i..], s.birth[q])
    && Spared(s, broken, KillOrder(s, s.kids[q][i..], s.birth[q]))
  }

  lemma FirstForest(s: State, broken: set<Address>, q: Ptr, i: nat)
    requires Condemned(s, broken, q, i)
    ensures
      var c := s.kids[q][i];
      && c == s.kids[q][i..][0] && Live(s, c) && s.kids[c][0..] == s.kids[c]
      && s.birth[q] < s.birth[c] < s.clock
      && AllLive(s, s.kids[c]) && Younger(s, s.kids[c], s.birth[c])
      && Spared(s, broken, KillOrder(s, s.kids[c], s.birth[c]))
  {
    hide Sound, Rooted, KillOrder, CanKill;
    ForestParts(s, q, i);
  }

  // then what is beside it,
  lemma SecondForest(s: State, broken: set<Address>, q: Ptr, i: nat, s1: State)
    requires Condemned(s, broken, q, i)
    requires (FirstForest(s, broken, q, i); s1 == KillAll(s, KillOrder(s, s.kids[s.kids[q][i]], s.birth[s.kids[q][i]])))
    ensures Sound(s1, broken) && Rooted(s1) && Live(s1, q) && s1.kids[q] == s.kids[q]
    ensures s1.clock == s.clock && s1.birth == s.birth
    ensures
      var c, rest := s.kids[q][i], s.kids[q][i + 1..];
      && AllLive(s1, rest) && Younger(s1, rest, s.birth[q]) && AllLive(s, rest) && Younger(s, rest, s.birth[q])
      && KillOrder(s1, rest, s.birth[q]) == KillOrder(s, rest, s.birth[q])
      && Spared(s1, broken, KillOrder(s1, rest, s.birth[q]))
      && Live(s1, c) && c != s1.curr && CanKill(s1, broken, c) && c !in KillOrder(s1, rest, s.birth[q])
  {
    hide Sound, Rooted, KillOrder, KillAll, CanKill;
    FirstForest(s, broken, q, i);
    ForestParts(s, q, i);
    var c := s.kids[q][i];
    KillForest(s, c, 0);
    KillForestKeeps(s, broken, c, 0);
    SoundParts(s1, broken);
    OrderSame(s, s1, s.kids[q][i + 1..], s.birth[q]);
  }

  // then the child itself.
  lemma LastOfForest(s: State, broken: set<Address>, q: Ptr, i: nat, s1: State, s2: State)
    requires Condemned(s, broken, q, i)
    requires (FirstForest(s, broken, q, i); s1 == KillAll(s, KillOrder(s, s.kids[s.kids[q][i]], s.birth[s.kids[q][i]])))
    requires (SecondForest(s, broken, q, i, s1); s2 == KillAll(s1, KillOrder(s1, s.kids[q][i + 1..], s.birth[q])))
    ensures var c := s.kids[q][i];
      Filed(s2) && HauntsOnly(s2, broken) && Rooted(s2) && Live(s2, c) && CanKill(s2, broken, c)
  {
    hide Sound, Rooted, KillOrder, KillAll, CanKill, Spared;
    SecondForest(s, broken, q, i, s1);
    KillForestKeeps(s1, broken, q, i + 1);
    SoundParts(s2, broken);
  }

  lemma TerminateForest(s: State)
    requires Inv(s) && s.curr != NIL
    ensures Rooted(s) && Live(s, s.curr) && Sound(s, Haunted(s)) && OnlyDevices(Haunted(s))
    ensures
      var p := s.curr;
      && s.kids[p][0..] == s.kids[p] && AllLive(s, s.kids[p]) && Younger(s, s.kids[p], s.birth[p])
      && Spared(s, Haunted(s), KillOrder(s, s.kids[p], s.birth[p])) && CanKill(s, Haunted(s), p)
  {
    hide Filed, Counted, Balanced, Clocked, Rooted, KillOrder, Descends;
    var p := s.curr;
    CurrentLives(s);
    PlacedIsFiled(s);
    KidsLive(s, p);
    InOwnSubtree(s, p);
    forall x | x in KillOrder(s, s.kids[p], s.birth[p])
      ensures x in Subtree(s, p) && x != p
    {
      BelowDescends(s, p, x);
    }
  }

  lemma InOwnSubtree(s: State, p: Ptr)
    requires Rooted(s) && Live(s, p)
    ensures p in Subtree(s, p)
  {
  }

  lemma TerminateLast(s: State, s1: State)
    requires Inv(s) && s.curr != NIL
    requires (TerminateForest(s); s1 == KillAll(s, KillOrder(s, s.kids[s.curr], s.birth[s.curr])))
    ensures
      var p, broken := (TerminateForest(s); s.curr), (TerminateForest(s); Haunted(s));
      && s1.curr == p && Filed(s1) && HauntsOnly(s1, broken) && Rooted(s1) && Live(s1, p) && CanKill(s1, broken, p)
      && Schedule(Kill(s1, p)) == Terminate(s) && ListsApart(Kill(s1, p), broken)
  {
    hide Sound, Inv, Rooted, KillOrder, KillAll, Kill, CanKill, Descends, Spared, Haunted;
    var p := s.curr;
    TerminateForest(s);
    BelowDescends(s, p, p);
    var below := KillOrder(s, s.kids[p], s.birth[p]);
    KillForestKeeps(s, Haunted(s), p, 0);
    SoundParts(s1, Haunted(s));
    KillAllConcat(s, below, [p]);
    KillSingle(s1, p);
    KillApart(s1, Haunted(s), p);
  }

  lemma SuffixOfKids(s: State, q: Ptr, i: nat)
    requires Rooted(s) && Live(s, q) && i <= |s.kids[q]|
    ensures Siblings(s, q, s.kids[q][i..]) && Distinct(s.kids[q][i..])
  {
    KidsLive(s, q);
    forall j | i <= j < |s.kids[q]|
      ensures IsPcb(s.kids[q][j]) && s.kids[q][j] != 0 && s.parent[s.kids[q][j]] == q
    {
      assert s.kids[q][j] in s.kids[q];
    }
  }

  lemma CounterApart(s: State, s': State, broken: set<Address>)
    requires s'.free == s.free && s'.ready == s.ready && s'.queues == s.queues
    ensures ListsApart(s, broken) ==> ListsApart(s', broken)
  {
  }

  lemma UnblockCounter(s: State, a: Address)
    requires Head(Waiting(s, a)) == NIL || IsPcb(Head(Waiting(s, a)))
    ensures Unblock(s, a).softblockCnt == s.softblockCnt
  {
  }

  lemma VerhogenPlaced(s: State, a: Address)
    requires Placed(s)
    ensures Head(Waiting(s, a)) == NIL || IsPcb(Head(Waiting(s, a)))
    ensures Placed(NucleusState.Verhogen(s, a))
    ensures NucleusState.Verhogen(s, a).softblockCnt == s.softblockCnt
  {
    hide Placed, Unblock;
    HeadIsPcb(s, a);
    var s1 := s.(mem := s.mem[a := Sem(s, a) + 1]);
    UnblockCounter(s1, a);
    CellPlaced(s, s1.mem);
    UnblockPlaced(s1, a);
  }

  lemma CurrentAppended(s: State)
    requires Placed(s) && s.curr != NIL
    ensures IsPcb(s.curr) && ListsApart(s, {}) && ListsApart(s.(ready := s.ready + [s.curr]), {})
  {
    CurrentUnqueued(s);
  }

  // ----------------------------------------------------------------- families in the table

  lemma HeldFamily(parent: Column, child: Column, sib: Column, sibLeft: Column, free: seq<Ptr>, kids: seq<seq<Ptr>>,
      q: Ptr)
    requires |kids| == MAXPROC && TreeHeld(parent, child, sib, sibLeft, free, kids) && IsPcb(q) && q !in free
    ensures IsFamily(parent, child, sib, sibLeft, q, kids[q])
  {
    hide IsFamily;
  }

  lemma FamilyKept(parent: Column, child: Column, sib: Column, sibLeft: Column,
                   parent': Column, child': Column, sib': Column, sibLeft': Column, q: Ptr, kids: seq<Ptr>,
                       changed: seq<Ptr>)
    requires IsFamily(parent, child, sib, sibLeft, q, kids) && Apart(kids, changed) && child'[q] == child[q]
    requires SameOutside(parent, parent', changed) && SameOutside(sib, sib', changed) &&
        SameOutside(sibLeft, sibLeft', changed)
    ensures IsFamily(parent', child', sib', sibLeft', q, kids)
  {
    forall i | 0 <= i < |kids|
      ensures parent'[kids[i]] == parent[kids[i]] && sib'[kids[i]] == sib[kids[i]] &&
          sibLeft'[kids[i]] == sibLeft[kids[i]]
    {
      assert kids[i] !in changed;
    }
  }

  lemma Childless(parent: Column, child: Column, sib: Column, sibLeft: Column, p: Ptr)
    requires IsPcb(p) && child[p] == NIL
    ensures IsFamily(parent, child, sib, sibLeft, p, [])
  {
  }

  lemma FamiliesApart(parent: Column, child: Column, sib: Column, sibLeft: Column, q: Ptr, kids: seq<Ptr>, r: Ptr,
      others: seq<Ptr>)
    requires IsFamily(parent, child, sib, sibLeft, q, kids) && IsFamily(parent, child, sib, sibLeft, r, others) && q != r
    ensures Apart(kids, others)
  {
    forall i, j | 0 <= i < |kids| && 0 <= j < |others|
      ensures kids[i] != others[j]
    {
      assert parent[kids[i]] == q && parent[others[j]] == r;
    }
  }

  lemma ConsApart(q: seq<Ptr>, p: Ptr, r: seq<Ptr>)
    requires Apart(q, r) && p !in q
    ensures Apart(q, [p] + r)
  {
  }

  lemma OneParentKept(parent: Column, p: Ptr, v: Ptr, changed: seq<Ptr>)
    requires IsPcb(p) && p in changed
    ensures SameOutside(parent, parent[p := v], changed)
  {
  }

  lemma KidsApart(s: State, q: Ptr, p: Ptr)
    requires Rooted(s) && Live(s, q) && p in s.free
    ensures Apart(s.kids[q], [p])
  {
    KidsLive(s, q);
    forall i | 0 <= i < |s.kids[q]|
      ensures s.kids[q][i] != p
    {
      assert s.kids[q][i] in s.kids[q];
    }
  }

  lemma OneLinkKept(next: Column, prev: Column, p: Ptr, v: Ptr, w: Ptr)
    requires IsPcb(p)
    ensures LinksKept(next, prev, next[p := v], prev[p := w], [p])
  {
  }

  lemma FirstFreeApart(s: State)
    requires ListsApart(s, {}) && s.free != []
    ensures Apart(s.ready, [s.free[0]]) && Apart(s.free[1..], [s.free[0]]) && IsPcb(s.free[0])
    ensures forall a, i :: a in s.queues && 0 <= i < |s.queues[a]| ==> s.queues[a][i] !in [s.free[0]]
  {
    TailDistinct(s.free);
    assert s.free[0] in s.free;
  }

  // The first free pcb, allocated and ready.
  function Newborn(s: State): State
    requires s.free != [] && IsPcb(s.free[0])
  {
    var p := s.free[0];
    s.(free := s.free[1..], semAdd := s.semAdd[p := 0], kids := s.kids[p := []], ready := s.ready + [p])
  }

  lemma CreateFacts(s: State)
    requires Inv(s) && s.curr != NIL
    ensures Rooted(s) && ListsApart(s, {}) && Live(s, s.curr) && (s.free == [] || IsPcb(s.free[0]))
    ensures s.free != [] ==>
      var p, s' := s.free[0], Newborn(s);
      && p != 0 && p != s.curr && 0 !in s'.free && ListsApart(s', {}) && Live(s', s'.curr) && Live(s', p)
      && (forall q :: Live(s', q) ==> p !in s'.kids[q])
      && (forall a, i :: a in s'.queues && 0 <= i < |s'.queues[a]| ==> s'.queues[a][i] != p)
  {
    CurrentLives(s);
    PlacedApart(s);
    RootLives(s, s.curr);
    if s.free != [] {
      NewbornFacts(s);
    }
  }

  lemma CreateSteps(s: State, s': State)
    requires IsPcb(s.curr) && s.free != [] && IsPcb(s.free[0])
    requires
      var p, n := s.free[0], Newborn(s);
      s' == n.(parent := n.parent[p := s.curr], kids := n.kids[s.curr := [p] + n.kids[s.curr]],
          semAdd := n.semAdd[p := NULL],
               birth := s.birth[p := s.clock], clock := s.clock + 1, processCnt := s.processCnt + 1)
    requires s.free[0] != s.curr
    ensures s' == Create(s)
  {
    assert s'.semAdd == s.semAdd[s.free[0] := NULL];
  }

  lemma NewbornFacts(s: State)
    requires ListsApart(s, {}) && Rooted(s) && s.free != []
    ensures IsPcb(s.free[0])
    ensures var p, s' := s.free[0], Newborn(s);
      && ListsApart(s', {}) && Live(s', p) && (forall q :: Live(s, q) ==> Live(s', q))
      && (forall q :: Live(s', q) ==> p !in s'.kids[q])
      && (forall a, i :: a in s'.queues && 0 <= i < |s'.queues[a]| ==> s'.queues[a][i] != p)
  {
    var p, s' := s.free[0], Newborn(s);
    TailDistinct(s.free);
    FirstFreeApart(s);
    forall q | Live(s', q) && q != p
      ensures p !in s.kids[q]
    {
      assert Live(s, q);
      KidsLive(s, q);
    }
  }

  // every pcb free, nothing on any queue
  function Vacant(): State {
    Memory(seq(MAXPROC, i => i), [], NIL, map[], seq(MAXPROC, i => 0), seq(MAXPROC, i => NIL), seq(MAXPROC, i => []),
           seq(MAXPROC, i => 0), 1, map[], 0, 0)
  }

  lemma VacantFields(parent: Column, child: Column, sib: Column, sibLeft: Column)
    ensures
      var s := Vacant();
      && s.free == seq(MAXPROC, i => i) && s.ready == [] && s.curr == NIL && s.queues == map[] &&
          s.semAdd == seq(MAXPROC, i => 0)
      && s.processCnt == 0 && s.softblockCnt == 0 && s.mem == map[] &&
          TreeHeld(parent, child, sib, sibLeft, s.free, s.kids)
  {
    var free := Vacant().free;
    forall p | IsPcb(p)
      ensures p in free
    {
      assert free[p] == p;
    }
  }

  lemma VacantFacts(mem: map<Address, int>)
    ensures
      var s := Vacant().(mem := mem);
      && s.free != [] && s.free[0] == 0 && ListsApart(s, {}) && Rooted(s)
      && s.(free := s.free[1..], semAdd := s.semAdd[0 := 0], kids := s.kids[0 := []],
          ready := s.ready + [0]) == FirstReady(mem)
      && ListsApart(FirstReady(mem), {})
  {
    var s := Vacant().(mem := mem);
    forall p
      ensures !Live(s, p)
    {
      if IsPcb(p) {
        assert s.free[p] == p;
      }
    }
    BootedPlaced();
    PlacedApart(Booted());
    FirstReadyFacts(mem);
    CounterApart(Booted(), FirstReady(mem), {});
  }

  function FirstReady(mem: map<Address, int>): State {
    Booted().(semAdd := seq(MAXPROC, i => 0), mem := mem, processCnt := 0)
  }

  lemma FirstReadyFacts(mem: map<Address, int>)
    ensures
      var s, s' := FirstReady(mem), Booted();
      && s'.free == s.free == Vacant().free[1..] && s'.ready == s.ready && s'.queues == s.queues &&
          s'.curr == s.curr && s'.mem == DeviceCells(DEVSEMNO)
      && s'.processCnt == s.processCnt + 1 && s'.softblockCnt == s.softblockCnt && s'.semAdd == s.semAdd[0 := NULL]
      && s.mem == mem && s'.queues == map[] && s'.kids == Vacant().kids[0 := []]
  {
  }

  lemma BootedTree(parent: Column, child: Column, sib: Column, sibLeft: Column)
    requires child[0] == NIL && parent[0] == NIL
    ensures TreeHeld(parent, child, sib, sibLeft, Booted().free, Booted().kids)
  {
    BootedLive();
    forall q | IsPcb(q) && q !in Booted().free
      ensures q == 0
    {
      assert Live(Booted(), q);
    }
  }

  lemma QueueApart(s: State, broken: set<Address>, a: Address)
    requires ListsApart(s, broken) && a !in broken
    ensures Apart(s.free, QueueAt(s.queues, a)) && Apart(s.ready, QueueAt(s.queues, a))
    ensures Apart(s.free, []) && Apart(s.ready, [])
  {
    var q := QueueAt(s.queues, a);
    forall i, j | 0 <= i < |s.free| && 0 <= j < |q|
      ensures s.free[i] != q[j]
    {
      assert s.free[i] in s.free;
    }
    forall i, j | 0 <= i < |s.ready| && 0 <= j < |q|
      ensures s.ready[i] != q[j]
    {
      assert s.ready[i] in s.ready;
    }
  }

  lemma CurrentUnqueued(s: State)
    requires Placed(s) && s.curr != NIL
    ensures IsPcb(s.curr) && forall b, i :: b in s.queues && 0 <= i < |s.queues[b]| ==> s.queues[b][i] != s.curr
    ensures ListsApart(s, {})
  {
    PlacedApart(s);
    forall b, i | b in s.queues && 0 <= i < |s.queues[b]|
      ensures s.queues[b][i] != s.curr
    {
      assert s.queues[b][i] in s.queues[b];
    }
  }

  lemma PasserenApart(s: State, a: Address)
    requires Placed(s) && s.curr != NIL && a < MAXINT
    ensures ListsApart(NucleusState.Passeren(s, a), {})
  {
    PlacedApart(s);
  }

  lemma CellPlaced(s: State, mem: map<Address, int>)
    requires Placed(s)
    ensures Placed(s.(mem := mem))
  {
    assert forall p :: Live(s.(mem := mem), p) <==> Live(s, p);
    assert forall p :: IsPcb(p) ==> (Blocked(s.(mem := mem), p) <==> Blocked(s, p));
  }
}
