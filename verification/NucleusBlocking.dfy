// P, V, the device and clock waits and the interrupts that end them keep the invariant of the
// nucleus, as long as SYS3 and SYS4 are not applied to a device semaphore and a descriptor is
// free for whoever has to wait.
module NucleusBlocking {
  import opened Constants
  import opened Queues
  import opened Pcbs
  import opened ActiveSemaphores
  import opened NucleusState
  import opened NucleusInvariant

  // Passeren, up to the scheduler's overwriting of the running slot.
  function Parked(s: State, a: Address): State
    requires IsPcb(s.curr)
  {
    var s' := Passeren(s, a);
    s'.(curr := NIL, softblockCnt := if IsDeviceSem(a) then s.softblockCnt + 1 else s.softblockCnt)
  }

  lemma ParkedPlaced(s: State, a: Address)
    requires Placed(s) && s.curr != NIL && !Full(s.queues, a) && a < MAXINT
    ensures Placed(Parked(s, a))
  {
    var s' := Parked(s, a);
    forall p | Live(s', p)
      ensures p in s'.ready || Blocked(s', p)
    {
      assert Live(s, p);
      if p != s.curr {
        assert Blocked(s, p) ==> Blocked(s', p);
      }
    }
  }

  lemma ParkedBlocked(s: State, a: Address, p: Ptr)
    requires Placed(s) && s.curr != NIL && !Full(s.queues, a) && a < MAXINT && IsPcb(p)
    ensures Blocked(Parked(s, a), p) <==> Blocked(s, p) || p == s.curr
    ensures !Blocked(s, s.curr)
    ensures Parked(s, a).semAdd[p] == if p == s.curr then a else s.semAdd[p]
  {
    hide Full;
    assert Parked(s, a).queues == s.queues[a := Waiting(s, a) + [s.curr]] by {
      NotFull(s, a);
    }
  }

  lemma NotFull(s: State, a: Address)
    requires IsPcb(s.curr) && !Full(s.queues, a)
    ensures Parked(s, a).queues == s.queues[a := Waiting(s, a) + [s.curr]]
    ensures Parked(s, a).semAdd == s.semAdd[s.curr := a]
    ensures |s.queues| <= MAXPROC ==> |Parked(s, a).queues| <= MAXPROC
  {
  }

  lemma ParkedCounted(s: State, a: Address)
    requires Placed(s) && Counted(s) && s.curr != NIL && !Full(s.queues, a) && a < MAXINT
    ensures Counted(Parked(s, a))
  {
    hide Placed, Softblocked, Full, Passeren, Parked;
    CurrentIsPcb(s);
    NotFull(s, a);
    ParkedSoftblocked(s, a);
    ParkedFree(s, a);
  }

  lemma ParkedSoftblocked(s: State, a: Address)
    requires Placed(s) && s.curr != NIL && !Full(s.queues, a) && a < MAXINT
    ensures Softblocked(Parked(s, a)) == if IsDeviceSem(a) then Softblocked(s) + {s.curr} else Softblocked(s)
    ensures s.curr !in Softblocked(s)
  {
    hide Placed, Blocked, Full, Passeren, Parked, IsDeviceSem;
    CurrentIsPcb(s);
    ParkedBlocked(s, a, s.curr);
    var s' := Parked(s, a);
    forall p | IsPcb(p)
      ensures Blocked(s', p) <==> Blocked(s, p) || p == s.curr
      ensures s'.semAdd[p] == if p == s.curr then a else s.semAdd[p]
    {
      ParkedBlocked(s, a, p);
    }
    assert Softblocked(s') == if IsDeviceSem(a) then Softblocked(s) + {s.curr} else Softblocked(s);
  }

  lemma ParkedFree(s: State, a: Address)
    requires IsPcb(s.curr)
    ensures Parked(s, a).free == s.free && Parked(s, a).processCnt == s.processCnt
    ensures Parked(s, a).softblockCnt == if IsDeviceSem(a) then s.softblockCnt + 1 else s.softblockCnt
  {
  }

  lemma ParkedBalanced(s: State, a: Address)
    requires Balanced(s) && Clocked(s) && IsPcb(s.curr) && !Full(s.queues, a)
    requires IsDeviceSem(a) || Sem(s, a) - 1 < 0
    ensures Balanced(Parked(s, a)) && Clocked(Parked(s, a))
  {
    var s' := Parked(s, a);
    assert forall b :: b != a ==> Waiting(s', b) == Waiting(s, b) && Sem(s', b) == Sem(s, b);
    assert Waiting(s', a) == Waiting(s, a) + [s.curr];
    assert |Waiting(s, a)| >= 0;
  }

  lemma ParkedKeeps(s: State, a: Address)
    requires Inv(s) && s.curr != NIL && !Full(s.queues, a) && a < MAXINT
    requires IsDeviceSem(a) || Sem(s, a) - 1 < 0
    ensures IsPcb(s.curr) && Inv(Parked(s, a))
  {
    hide Counted, Balanced, Clocked, Rooted, Full;
    ParkedPlaced(s, a);
    ParkedCounted(s, a);
    ParkedBalanced(s, a);
    RootedSame(s, Parked(s, a));
  }

  // SYS3 on a semaphore of the kernel or support level.
  lemma PKeeps(s: State, a: Address)
    requires Inv(s) && s.curr != NIL && !IsDeviceSem(a) && a < MAXINT
    requires Sem(s, a) >= 1 || !Full(s.queues, a)
    ensures IsPcb(s.curr) && Inv(P(s, a))
  {
    hide Placed, Counted, Balanced, Clocked, Rooted, Full;
    CurrentIsPcb(s);
    if Sem(s, a) - 1 >= 0 {
      PassedKeeps(s, a);
    } else {
      ParkedKeeps(s, a);
      ScheduleKeeps(Parked(s, a));
      assert P(s, a) == Schedule(Parked(s, a));
    }
  }

  lemma CurrentIsPcb(s: State)
    requires Placed(s) && s.curr != NIL
    ensures IsPcb(s.curr)
  {
  }

  lemma PassedKeeps(s: State, a: Address)
    requires Inv(s) && !IsDeviceSem(a) && Sem(s, a) >= 1
    ensures Inv(s.(mem := s.mem[a := Sem(s, a) - 1]))
  {
    CellChangeKeeps(s, a, Sem(s, a) - 1);
  }

  // Writing a non-negative value to a semaphore that nobody waits on.
  lemma CellChangeKeeps(s: State, a: Address, v: int)
    requires Inv(s) && v >= 0 && Waiting(s, a) == [] && (IsDeviceSem(a) ==> a == CLOCK && v == 0)
    ensures Inv(s.(mem := s.mem[a := v]))
  {
    var s' := s.(mem := s.mem[a := v]);
    assert forall b :: Waiting(s', b) == Waiting(s, b) && (b != a ==> Sem(s', b) == Sem(s, b));
    MemoryIrrelevant(s, s'.mem);
    hide Placed, Counted, Rooted;
  }

  lemma MemoryIrrelevant(s: State, mem: map<Address, int>)
    requires Placed(s) && Counted(s) && Rooted(s)
    ensures var s' := s.(mem := mem); Placed(s') && Counted(s') && Rooted(s')
  {
    var s' := s.(mem := mem);
    assert forall p :: Live(s', p) <==> Live(s, p);
    assert forall p :: IsPcb(p) ==> (Blocked(s', p) <==> Blocked(s, p));
    assert Softblocked(s') == Softblocked(s);
  }

  // ---------------------------------------------------------------------- waking up

  lemma HeadIsPcb(s: State, a: Address)
    requires Placed(s)
    ensures Head(Waiting(s, a)) == NIL <==> Waiting(s, a) == []
    ensures Head(Waiting(s, a)) != NIL ==> IsPcb(Head(Waiting(s, a)))
    ensures ArePcbs(Waiting(s, a))
  {
  }

  lemma UnblockPlaced(s: State, a: Address)
    requires Placed(s)
    ensures (Waiting(s, a) == [] || IsPcb(Head(Waiting(s, a)))) && Placed(Unblock(s, a))
  {
    var q, s' := Waiting(s, a), Unblock(s, a);
    if q != [] {
      TailDistinct(q);
      assert q[0] in q && q[0] !in s.ready && q[0] !in s.free;
    }
    forall p | Live(s', p)
      ensures p in s'.ready || p == s'.curr || Blocked(s', p)
    {
      assert Live(s, p);
      UnblockBlocked(s, a, p);
    }
  }

  lemma UnblockBlocked(s: State, a: Address, p: Ptr)
    requires Placed(s) && IsPcb(p)
    ensures Waiting(s, a) == [] || IsPcb(Head(Waiting(s, a)))
    ensures Blocked(Unblock(s, a), p) <==> Blocked(s, p) && p != Head(Waiting(s, a))
    ensures Unblock(s, a).semAdd[p] == if p == Head(Waiting(s, a)) then NULL else s.semAdd[p]
    ensures Head(Waiting(s, a)) != NIL ==> Blocked(s, Head(Waiting(s, a))) && s.semAdd[Head(Waiting(s, a))] == a
  {
    var q := Waiting(s, a);
    if q != [] {
      TailDistinct(q);
      assert NULL !in s.queues;
    }
  }

  lemma UnblockWaiting(s: State, a: Address)
    requires Placed(s)
    ensures Waiting(s, a) == [] || IsPcb(Head(Waiting(s, a)))
    ensures forall b :: Waiting(Unblock(s, a), b) == if b == a then Tail(Waiting(s, a)) else Waiting(s, b)
    ensures |Unblock(s, a).queues| <= |s.queues|
  {
    var s' := Unblock(s, a);
    if Waiting(s, a) == [] {
      assert s'.queues.Keys == s.queues.Keys - {a};
      assert |s'.queues.Keys| == |s'.queues| && |s.queues.Keys| == |s.queues|;
    }
  }

  // Waking the head of a's queue takes it, alone, out of the soft-blocked processes.
  lemma UnblockSoftblocked(s: State, a: Address)
    requires Placed(s)
    ensures Waiting(s, a) == [] || IsPcb(Head(Waiting(s, a)))
    ensures
      var p := Head(Waiting(s, a));
      && Softblocked(Unblock(s, a)) == Softblocked(s) - {p}
      && (p in Softblocked(s) <==> p != NIL && IsDeviceSem(a))
      && |Softblocked(Unblock(s, a))| == |Softblocked(s)| - if p != NIL && IsDeviceSem(a) then 1 else 0
  {
    hide Placed, Unblock, Blocked;
    HeadIsPcb(s, a);
    var p, s' := Head(Waiting(s, a)), Unblock(s, a);
    forall q | IsPcb(q)
      ensures Blocked(s', q) <==> Blocked(s, q) && q != p
      ensures s'.semAdd[q] == if q == p then NULL else s.semAdd[q]
      ensures p != NIL ==> Blocked(s, p) && s.semAdd[p] == a
    {
      UnblockBlocked(s, a, q);
    }
    if p != NIL {
      UnblockBlocked(s, a, p);
    }
    assert Softblocked(s') == Softblocked(s) - {p};
  }

  // SYS4 on a semaphore of the kernel or support level.
  lemma VKeeps(s: State, a: Address)
    requires Inv(s) && !IsDeviceSem(a)
    ensures Head(Waiting(s, a)) == NIL || IsPcb(Head(Waiting(s, a)))
    ensures Inv(Verhogen(s, a))
  {
    hide Placed, Counted, Rooted, Unblock, Softblocked, CLOCK;
    HeadIsPcb(s, a);
    var s1 := s.(mem := s.mem[a := Sem(s, a) + 1]);
    MemoryIrrelevant(s, s1.mem);
    if Sem(s, a) + 1 <= 0 {
      WokenKeeps(s1, a);
      VBalanced(s, a);
    } else {
      CellChangeKeeps(s, a, Sem(s, a) + 1);
    }
  }

  lemma VBalanced(s: State, a: Address)
    requires Inv(s) && !IsDeviceSem(a) && Sem(s, a) + 1 <= 0
    ensures Head(Waiting(s, a)) == NIL || IsPcb(Head(Waiting(s, a)))
    ensures Balanced(Verhogen(s, a)) && Clocked(Verhogen(s, a))
  {
    var s' := Verhogen(s, a);
    UnblockWaiting(s, a);
    assert Waiting(s, a) != [];
    assert forall b :: Waiting(s', b) == if b == a then Tail(Waiting(s, a)) else Waiting(s, b);
  }

  // Waking the head of a's queue, with the soft-block counter following for a device.
  lemma WokenKeeps(s: State, a: Address)
    requires Placed(s) && Counted(s) && Rooted(s)
    ensures Head(Waiting(s, a)) == NIL || IsPcb(Head(Waiting(s, a)))
    ensures
      var s' := Unblock(s, a);
      var n := if IsDeviceSem(a) && Head(Waiting(s, a)) != NIL then 1 else 0;
      && Placed(s') && Rooted(s') && Counted(s'.(softblockCnt := s.softblockCnt - n))
      && s'.softblockCnt == s.softblockCnt && s'.curr == s.curr
      && s'.(softblockCnt := s.softblockCnt) == s'
  {
    hide Placed, Rooted, Softblocked;
    HeadIsPcb(s, a);
    UnblockPlaced(s, a);
    UnblockSoftblocked(s, a);
    UnblockWaiting(s, a);
    RootedSame(s, Unblock(s, a));
    CounterIrrelevant(Unblock(s, a), s.softblockCnt - if IsDeviceSem(a) && Head(Waiting(s, a)) != NIL then 1 else 0);
  }

  lemma CounterIrrelevant(s: State, n: int)
    ensures Softblocked(s.(softblockCnt := n)) == Softblocked(s)
    ensures Placed(s) ==> Placed(s.(softblockCnt := n))
  {
    assert Softblocked(s.(softblockCnt := n)) == Softblocked(s);
    assert forall p :: Live(s.(softblockCnt := n), p) <==> Live(s, p);
    assert forall p :: IsPcb(p) ==> (Blocked(s.(softblockCnt := n), p) <==> Blocked(s, p));
  }

  // ------------------------------------------------------------ devices and the clock

  // SYS5 and SYS7.
  lemma WaitForKeeps(s: State, a: Address)
    requires Inv(s) && s.curr != NIL && IsDeviceSem(a) && !Full(s.queues, a)
    ensures IsPcb(s.curr) && Inv(WaitFor(s, a))
  {
    hide Placed, Counted, Balanced, Clocked, Rooted, Full;
    CurrentIsPcb(s);
    ParkedKeeps(s, a);
    ScheduleKeeps(Parked(s, a));
    assert WaitFor(s, a) == Schedule(Parked(s, a));
  }

  lemma ResumeKeeps(s: State)
    requires Inv(s)
    ensures Inv(Resume(s))
  {
    hide Inv;
    if s.curr == NIL {
      ScheduleKeeps(s);
    }
  }

  lemma DeviceInterruptKeeps(s: State, a: Address)
    requires Inv(s) && IsDeviceSem(a) && a != CLOCK
    ensures Head(Waiting(s, a)) == NIL || IsPcb(Head(Waiting(s, a)))
    ensures Inv(DeviceInterrupt(s, a))
  {
    hide Placed, Counted, Rooted, Unblock, Balanced, Clocked, Schedule, CLOCK;
    HeadIsPcb(s, a);
    var s1 := s.(mem := s.mem[a := Sem(s, a) + 1]);
    MemoryIrrelevant(s, s1.mem);
    DeviceBalanced(s, a);
    if Sem(s, a) + 1 <= 0 {
      WokenKeeps(s1, a);
      var s2 := Unblock(s1, a).(softblockCnt := s.softblockCnt - if Head(Waiting(s, a)) != NIL then 1 else 0);
      CounterRooted(Unblock(s1, a), s2.softblockCnt);
      ResumeKeeps(s2);
    } else {
      ResumeKeeps(s1);
    }
  }

  lemma CounterRooted(s: State, n: int)
    requires Placed(s) && Rooted(s)
    ensures Placed(s.(softblockCnt := n)) && Rooted(s.(softblockCnt := n))
    ensures Balanced(s) ==> Balanced(s.(softblockCnt := n))
    ensures Clocked(s) ==> Clocked(s.(softblockCnt := n))
  {
    hide Rooted;
    RootedSame(s, s.(softblockCnt := n));
    CounterIrrelevant(s, n);
    if Balanced(s) {
      BalancedSame(s, s.(softblockCnt := n));
    }
  }

  lemma DeviceBalanced(s: State, a: Address)
    requires Inv(s) && IsDeviceSem(a) && a != CLOCK
    ensures var s1 := s.(mem := s.mem[a := Sem(s, a) + 1]);
      && Balanced(s1) && Clocked(s1)
      && (Waiting(s1, a) == [] || IsPcb(Head(Waiting(s1, a))))
      && Balanced(Unblock(s1, a)) && Clocked(Unblock(s1, a))
      && Waiting(s1, a) == Waiting(s, a)
  {
    var s1 := s.(mem := s.mem[a := Sem(s, a) + 1]);
    MemoryIrrelevant(s, s1.mem);
    UnblockWaiting(s1, a);
    assert forall b :: Waiting(s1, b) == Waiting(s, b);
    assert forall b :: b != a ==> Waiting(Unblock(s1, a), b) == Waiting(s, b) && Sem(Unblock(s1, a), b) == Sem(s, b);
  }

  // Draining the clock's queue moves it, in order, to the end of the ready queue, and frees the descriptor.
  lemma {:induction false} DrainKeeps(s: State)
    requires Placed(s) && Counted(s) && Balanced(s) && Rooted(s)
    ensures ArePcbs(Waiting(s, CLOCK))
    ensures
      var s' := Drain(s);
      && Placed(s') && Counted(s') && Balanced(s') && Rooted(s')
      && s'.ready == s.ready + Waiting(s, CLOCK) && CLOCK !in s'.queues
      && s'.softblockCnt == s.softblockCnt - |Waiting(s, CLOCK)|
      && s'.curr == s.curr && s'.free == s.free && s'.processCnt == s.processCnt && s'.mem == s.mem
      && s'.kids == s.kids && s'.parent == s.parent && s'.birth == s.birth && s'.clock == s.clock
      && forall b :: b != CLOCK ==> Waiting(s', b) == Waiting(s, b)
    decreases |Waiting(s, CLOCK)|
  {
    hide Placed, Counted, Rooted, Balanced, Unblock;
    HeadIsPcb(s, CLOCK);
    UnblockWaiting(s, CLOCK);
    WokenKeeps(s, CLOCK);
    UnblockedBalanced(s);
    UnblockEffect(s);
    var s1 := Unblock(s, CLOCK);
    if Waiting(s, CLOCK) != [] {
      var s2 := s1.(softblockCnt := s.softblockCnt - 1);
      CounterRooted(s1, s2.softblockCnt);
      assert Waiting(s2, CLOCK) == Tail(Waiting(s, CLOCK));
      DrainKeeps(s2);
      assert s.ready + Waiting(s, CLOCK) == s2.ready + Waiting(s2, CLOCK);
      forall b | b != CLOCK
        ensures Waiting(Drain(s), b) == Waiting(s, b)
      {
        assert Waiting(s2, b) == Waiting(s1, b);
      }
    }
  }

  lemma UnblockEffect(s: State)
    requires Waiting(s, CLOCK) == [] || IsPcb(Head(Waiting(s, CLOCK)))
    ensures
      var s' := Unblock(s, CLOCK);
      && s'.ready == s.ready + (if Waiting(s, CLOCK) == [] then [] else [Waiting(s, CLOCK)[0]])
      && s'.curr == s.curr && s'.free == s.free && s'.processCnt == s.processCnt && s'.mem == s.mem
      && s'.kids == s.kids && s'.parent == s.parent && s'.birth == s.birth && s'.clock == s.clock
      && s'.softblockCnt == s.softblockCnt && (Waiting(s, CLOCK) == [] ==> CLOCK !in s'.queues)
  {
  }

  lemma UnblockedBalanced(s: State)
    requires Placed(s) && Balanced(s)
    ensures Waiting(s, CLOCK) == [] || IsPcb(Head(Waiting(s, CLOCK)))
    ensures Balanced(Unblock(s, CLOCK))
  {
    UnblockWaiting(s, CLOCK);
    assert forall b :: b != CLOCK ==>
      Waiting(Unblock(s, CLOCK), b) == Waiting(s, b) && Sem(Unblock(s, CLOCK), b) == Sem(s, b);
  }

  lemma ClockInterruptKeeps(s: State)
    requires Inv(s)
    ensures ArePcbs(Waiting(s, CLOCK)) && Inv(ClockInterrupt(s))
  {
    hide Placed, Counted, Rooted, Balanced, Drain;
    DrainKeeps(s);
    var s1 := Drain(s);
    var s2 := s1.(mem := s1.mem[CLOCK := 0]);
    MemoryIrrelevant(s1, s2.mem);
    ClockReset(s1);
    ResumeKeeps(s2);
  }

  lemma ClockReset(s: State)
    requires Balanced(s) && CLOCK !in s.queues
    ensures Balanced(s.(mem := s.mem[CLOCK := 0])) && Clocked(s.(mem := s.mem[CLOCK := 0]))
  {
    var s' := s.(mem := s.mem[CLOCK := 0]);
    assert forall b :: b != CLOCK ==> Waiting(s', b) == Waiting(s, b) && Sem(s', b) == Sem(s, b);
  }
}
