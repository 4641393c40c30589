// Semaphore descriptors: Passeren ignores a failing insertBlocked (phase2/exceptions.c:472).
// Descriptors linger after their last waiter is gone (phase1/asl.c:161-175), so what bounds
// their number is not how many processes wait but how many semaphores were ever waited on.
module NucleusDescriptors {
  import opened Constants
  import opened Queues
  import opened Pcbs
  import opened ActiveSemaphores
  import opened NucleusState
  import opened NucleusInvariant
  import opened NucleusBlocking
  import opened ProcessTree
  import opened NucleusKill
  import opened NucleusRuns

  // Events in which only the semaphores of sems are waited on. Each next state matters only as
  // long as the wait found a descriptor.
  ghost predicate WaitsOnlyOn(s: State, es: seq<Event>, sems: set<Address>)
    requires Inv(s)
    decreases |es|
  {
    es != [] ==>
      && Possible(s, es[0]) && Disciplined(s, es[0])
      && (Target(s, es[0]) == NULL || Target(s, es[0]) in sems)
      && (HasRoom(s, es[0]) ==> (NextKeeps(s, es[0]); WaitsOnlyOn(Next(s, es[0]), es[1..], sems)))
  }

  lemma QueueDescriptors(queues: WaitMap, a: Address, p: Ptr)
    ensures Inserted(queues, a, p).Keys <= queues.Keys + {a}
    ensures Removed(queues, a).Keys <= queues.Keys
  {
  }

  // Only the semaphore of a blocking call can gain a descriptor.
  lemma NextDescriptors(s: State, e: Event)
    requires Inv(s) && Possible(s, e)
    ensures Next(s, e).queues.Keys <= s.queues.Keys + {Target(s, e)}
  {
    hide Inv, Drain, Terminate, Inserted, Removed, Full, Waiting, SemOf, CLOCK;
    StepDefined(s);
    match e
    case Sys2 => TerminateDescriptors(s);
    case Sys3(a) => QueueDescriptors(s.queues, a, s.curr);
    case Sys4(a) => StepDefinedAt(s, a); QueueDescriptors(s.queues, a, NIL);
    case Sys5(device) => QueueDescriptors(s.queues, SemOf(device), s.curr);
    case Sys7 => QueueDescriptors(s.queues, CLOCK, s.curr);
    case Interrupt(device) =>
      StepDefinedAt(s, SemOf(device));
      QueueDescriptors(s.queues, SemOf(device), NIL);
    case ClockTick =>
      StepDefinedAt(s, CLOCK);
      DrainDescriptors(s);
    case _ =>
  }

  lemma TerminateDescriptors(s: State)
    requires Inv(s) && s.curr != NIL
    ensures Live(s, s.curr) && Terminate(s).queues.Keys <= s.queues.Keys
  {
    hide Placed, Counted, Balanced, Clocked, Rooted, KillAll, Victims;
    KilledQueues(s);
  }

  lemma {:induction false} DrainDescriptors(s: State)
    requires ArePcbs(Waiting(s, CLOCK))
    ensures Drain(s).queues.Keys <= s.queues.Keys
    decreases |Waiting(s, CLOCK)|
  {
    if Waiting(s, CLOCK) != [] {
      var s1 := Unblock(s, CLOCK).(softblockCnt := s.softblockCnt - 1);
      assert Waiting(s1, CLOCK) == Waiting(s, CLOCK)[1..];
      DrainDescriptors(s1);
    }
  }

  // If at most MAXPROC semaphores are ever waited on, every wait finds a descriptor.
  lemma {:induction false} FewSemaphoresSuffice(s: State, es: seq<Event>, sems: set<Address>)
    requires Inv(s) && WaitsOnlyOn(s, es, sems)
    requires s.queues.Keys <= sems && |sems| <= MAXPROC
    ensures IsRun(s, es)
    decreases |es|
  {
    hide Inv, Next, Disciplined, Possible;
    if es != [] {
      RoomForListed(s, es[0], sems);
      NextKeeps(s, es[0]);
      NextDescriptors(s, es[0]);
      NullNeverWaitedOn(Next(s, es[0]));
      assert Next(s, es[0]).queues.Keys <= sems;
      FewSemaphoresSuffice(Next(s, es[0]), es[1..], sems);
    }
  }

  lemma NullNeverWaitedOn(s: State)
    requires Inv(s)
    ensures NULL !in s.queues
  {
  }

  lemma RoomForListed(s: State, e: Event, sems: set<Address>)
    requires Possible(s, e) && (Target(s, e) == NULL || Target(s, e) in sems)
    requires s.queues.Keys <= sems && |sems| <= MAXPROC
    ensures HasRoom(s, e)
  {
    var a := Target(s, e);
    if a != NULL && a !in s.queues {
      assert s.queues.Keys <= sems - {a};
      SubsetSize(s.queues.Keys, sems - {a});
      assert |sems| == |sems - {a}| + 1;
      assert |s.queues.Keys| == |s.queues|;
    }
  }

  // ---------------------------------------------------------- when P and V keep the invariant

  // A SYS3 is sound exactly when it goes through at once or can queue the caller on a semaphore that
  // no device owns.
  lemma PKeepsExactly(s: State, a: Address)
    requires Inv(s) && s.curr != NIL && a < MAXINT
    ensures IsPcb(s.curr)
    ensures Inv(P(s, a)) <==> Sem(s, a) >= 1 || (!IsDeviceSem(a) && !Full(s.queues, a))
  {
    hide Placed, Counted, Balanced, Clocked, Rooted, Full;
    CurrentIsPcb(s);
    if Sem(s, a) >= 1 {
      if IsDeviceSem(a) {
        DevicePassedKeeps(s, a);
      } else {
        PKeeps(s, a);
      }
    } else if Full(s.queues, a) {
      CallerIsLost(s, a);
    } else if IsDeviceSem(a) {
      CallerIsUncounted(s, a);
    } else {
      PKeeps(s, a);
    }
  }

  lemma DevicePassedKeeps(s: State, a: Address)
    requires Inv(s) && IsDeviceSem(a) && Sem(s, a) >= 1
    ensures Inv(s.(mem := s.mem[a := Sem(s, a) - 1]))
  {
    var s' := s.(mem := s.mem[a := Sem(s, a) - 1]);
    assert a != CLOCK;
    assert forall b :: Waiting(s', b) == Waiting(s, b) && (b != a ==> Sem(s', b) == Sem(s, b));
    MemoryIrrelevant(s, s'.mem);
    hide Placed, Counted, Rooted;
  }

  // Without a free descriptor the caller is in no queue at all afterwards, though it still lives.
  lemma CallerIsLost(s: State, a: Address)
    requires Inv(s) && s.curr != NIL && a < MAXINT && Full(s.queues, a) && Sem(s, a) < 1
    ensures IsPcb(s.curr)
    ensures var s' := P(s, a);
      Live(s', s.curr) && s.curr !in s'.ready && s'.curr != s.curr && !Blocked(s', s.curr) && !Inv(s')
  {
    hide Counted, Balanced, Clocked, Rooted;
    var s', c := P(s, a), s.curr;
    assert s'.queues == s.queues && s'.semAdd == s.semAdd;
    assert NULL !in s.queues;
    assert Live(s', c) && s'.ready == Tail(s.ready);
    if s.ready != [] {
      TailDistinct(s.ready);
    }
  }

  lemma CallerIsUncounted(s: State, a: Address)
    requires Inv(s) && s.curr != NIL && IsDeviceSem(a) && !Full(s.queues, a) && Sem(s, a) < 1
    ensures IsPcb(s.curr) && !Inv(P(s, a))
  {
    hide Placed, Balanced, Clocked, Rooted, Full, Softblocked, Passeren;
    CurrentIsPcb(s);
    ParkedCounted(s, a);
    var t := Parked(s, a);
    ParkedFree(s, a);
    UncountedSame(s, a);
    ScheduleCounted(t);
  }

  lemma UncountedSame(s: State, a: Address)
    requires IsPcb(s.curr) && Sem(s, a) < 1
    ensures Softblocked(P(s, a)) == Softblocked(Parked(s, a)) && P(s, a).softblockCnt == s.softblockCnt
  {
    hide Full, Inserted;
    var s', t := P(s, a), Parked(s, a);
    assert forall p :: IsPcb(p) ==> (Blocked(s', p) <==> Blocked(t, p));
    assert Softblocked(s') == Softblocked(t);
  }

  // A SYS4 is sound exactly when it does not meddle with a device's waiters: it wakes nobody that
  // the soft-block counter counts, and leaves the clock alone.
  lemma VKeepsExactly(s: State, a: Address)
    requires Inv(s)
    ensures Head(Waiting(s, a)) == NIL || IsPcb(Head(Waiting(s, a)))
    ensures Inv(Verhogen(s, a)) <==> !IsDeviceSem(a) || (a != CLOCK && Woken(s, a) == NIL)
  {
    hide Placed, Balanced, Clocked, Rooted, Verhogen, Softblocked;
    StepDefinedAt(s, a);
    if !IsDeviceSem(a) {
      VKeeps(s, a);
    } else if Woken(s, a) != NIL {
      WokenUncounted(s, a);
    } else if a == CLOCK {
      ClockMeddled(s);
    } else {
      QuietVKeeps(s, a);
    }
  }

  lemma WokenUncounted(s: State, a: Address)
    requires Inv(s) && IsDeviceSem(a) && Woken(s, a) != NIL
    ensures (Head(Waiting(s, a)) == NIL || IsPcb(Head(Waiting(s, a)))) && !Inv(Verhogen(s, a))
  {
    hide Balanced, Clocked, Rooted, Softblocked;
    StepDefinedAt(s, a);
    var s1 := s.(mem := s.mem[a := Sem(s, a) + 1]);
    MemoryIrrelevant(s, s1.mem);
    UnblockSoftblocked(s1, a);
    assert Verhogen(s, a) == Unblock(s1, a) && Unblock(s1, a).softblockCnt == s.softblockCnt;
  }

  lemma ClockMeddled(s: State)
    requires Inv(s) && Woken(s, CLOCK) == NIL
    ensures (Head(Waiting(s, CLOCK)) == NIL || IsPcb(Head(Waiting(s, CLOCK)))) && !Inv(Verhogen(s, CLOCK))
  {
    hide Counted, Balanced, Rooted;
    StepDefinedAt(s, CLOCK);
    assert |Waiting(s, CLOCK)| == -Sem(s, CLOCK);
    assert Waiting(s, CLOCK) == [];
    assert |Waiting(Verhogen(s, CLOCK), CLOCK)| == 0 && Sem(Verhogen(s, CLOCK), CLOCK) == 1;
  }

  lemma QuietVKeeps(s: State, a: Address)
    requires Inv(s) && IsDeviceSem(a) && a != CLOCK && Woken(s, a) == NIL
    ensures Head(Waiting(s, a)) == NIL || IsPcb(Head(Waiting(s, a)))
    ensures Inv(Verhogen(s, a))
  {
    hide Placed, Counted, Balanced, Clocked, Rooted, Unblock;
    StepDefinedAt(s, a);
    DeviceBalanced(s, a);
    var s1 := s.(mem := s.mem[a := Sem(s, a) + 1]);
    MemoryIrrelevant(s, s1.mem);
    if Sem(s, a) + 1 <= 0 {
      WokenKeeps(s1, a);
    }
  }

  // SYS5 and SYS7 are sound exactly when a descriptor is at hand for the caller.
  lemma WaitForKeepsExactly(s: State, a: Address)
    requires Inv(s) && s.curr != NIL && IsDeviceSem(a)
    ensures IsPcb(s.curr)
    ensures Inv(WaitFor(s, a)) <==> !Full(s.queues, a)
  {
    hide Inv, Full;
    StepDefined(s);
    if Full(s.queues, a) {
      WaiterIsLost(s, a);
    } else {
      WaitForKeeps(s, a);
    }
  }

  // Otherwise the caller is in no queue at all, and is counted as waiting for an interrupt for ever.
  lemma WaiterIsLost(s: State, a: Address)
    requires Inv(s) && s.curr != NIL && Full(s.queues, a)
    ensures IsPcb(s.curr)
    ensures var s' := WaitFor(s, a);
      && Live(s', s.curr) && s.curr !in s'.ready && s'.curr != s.curr && !Blocked(s', s.curr) && !Inv(s')
      && s'.softblockCnt == s.softblockCnt + 1
  {
    hide Counted, Balanced, Clocked, Rooted;
    var s', c := WaitFor(s, a), s.curr;
    assert s'.queues == s.queues && s'.semAdd == s.semAdd;
    assert NULL !in s.queues;
    assert Live(s', c) && s'.ready == Tail(s.ready);
    if s.ready != [] {
      TailDistinct(s.ready);
    }
  }

  // ------------------------------------------------------------ a run that loses a process

  // the first disks, flash devices and so on: the device of semaphore i
  function DeviceAt(i: nat): (d: Device)
    requires i <= MAXPROC
    ensures d.Exists() && SemOf(d) == DeviceSem(i)
  {
    Device(3 + i / DEVPERINT, i % DEVPERINT, 0)
  }

  // pcb 0 runs and is alone
  predicate Solo(s: State) {
    s.curr == 0 && s.ready == [] && s.processCnt == 1 && s.softblockCnt == 0
  }

  // It waits for a device, which interrupts. All that is left is the semaphore's descriptor.
  lemma Round(s: State, d: Device)
    requires d.Exists() && SemOf(d) !in s.queues && |s.queues| < MAXPROC
    requires Inv(s) && Solo(s) && Sem(s, SemOf(d)) == 0
    ensures
      var es, a := [Sys5(d), Interrupt(d)], SemOf(d);
      IsRun(s, es) && After(s, es) == s.(queues := s.queues[a := []], mem := s.mem[a := 0])
  {
    hide Inv, After, IsRun;
    RoundStates(s, d);
    RunOne(s, Sys5(d));
    RunOne(Idle(s, SemOf(d)), Interrupt(d));
    assert [Sys5(d)] + [Interrupt(d)] == [Sys5(d), Interrupt(d)];
    RunConcat(s, [Sys5(d)], [Interrupt(d)]);
  }

  function Idle(s: State, a: Address): State {
    s.(curr := NIL, queues := s.queues[a := [0]], mem := s.mem[a := -1], semAdd := s.semAdd[0 := a], softblockCnt := 1)
  }

  lemma RoundStates(s: State, d: Device)
    requires d.Exists() && SemOf(d) !in s.queues && |s.queues| < MAXPROC
    requires Inv(s) && Solo(s) && Sem(s, SemOf(d)) == 0
    ensures
      var a := SemOf(d);
      && HasRoom(s, Sys5(d)) && Next(s, Sys5(d)) == Idle(s, a) && Inv(Idle(s, a))
      && Possible(Idle(s, a), Interrupt(d)) && Inv(s.(queues := s.queues[a := []], mem := s.mem[a := 0]))
      && Next(Idle(s, a), Interrupt(d)) == s.(queues := s.queues[a := []], mem := s.mem[a := 0])
  {
    hide Placed, Counted, Balanced, Clocked, Rooted, SemOf, DeviceInterrupt;
    var a := SemOf(d);
    StepDefined(s);
    BlockSolo(s, a);
    assert Next(s, Sys5(d)) == WaitFor(s, a);
    WaitForKeeps(s, a);
    StepDefinedAt(Idle(s, a), a);
    WakeSolo(s, a);
    assert Next(Idle(s, a), Interrupt(d)) == DeviceInterrupt(Idle(s, a), a);
    DeviceInterruptKeeps(Idle(s, a), a);
  }

  lemma BlockSolo(s: State, a: Address)
    requires Placed(s) && Solo(s) && a !in s.queues && |s.queues| < MAXPROC && Sem(s, a) == 0
    ensures IsPcb(s.curr) && !Full(s.queues, a) && WaitFor(s, a) == Idle(s, a)
  {
    assert [] + [0] == [0];
    assert Inserted(s.queues, a, 0) == s.queues[a := [0]];
  }

  lemma WakeSolo(s: State, a: Address)
    requires Placed(s) && Solo(s) && a !in s.queues && Sem(s, a) == 0
    ensures Waiting(Idle(s, a), a) == [0]
    ensures DeviceInterrupt(Idle(s, a), a) == s.(queues := s.queues[a := []], mem := s.mem[a := 0])
  {
    var idle := Idle(s, a);
    assert idle.semAdd[0 := NULL] == s.semAdd;
    assert idle.queues[a := []] == s.queues[a := []] && idle.mem[a := 0] == s.mem[a := 0];
    assert Waiting(idle, a) == [0] && [0][1..] == [];
  }

  lemma BootSolo()
    ensures Inv(Boot()) && Solo(Boot()) && Boot().queues == map[] && forall a :: Sem(Boot(), a) == 0
  {
    BootInv();
  }

  lemma {:induction false} DescriptorsPileUp(k: nat) returns (es: seq<Event>)
    requires k <= MAXPROC
    ensures Inv(Boot()) && IsRun(Boot(), es) && Inv(After(Boot(), es))
    ensures
      var s := After(Boot(), es);
      && Solo(s) && |s.queues| == k && (forall b :: Waiting(s, b) == [])
      && forall i: nat :: k <= i <= MAXPROC ==> Sem(s, DeviceSem(i)) == 0 && DeviceSem(i) !in s.queues
  {
    hide Inv, After, IsRun;
    BootSolo();
    if k == 0 {
      es := [];
      NoRun(Boot());
    } else {
      var before := DescriptorsPileUp(k - 1);
      var s, d := After(Boot(), before), DeviceAt(k - 1);
      var round := [Sys5(d), Interrupt(d)];
      Round(s, d);
      RunConcat(Boot(), before, round);
      RunInv(s, round);
      es := before + round;
      forall b
        ensures Waiting(After(s, round), b) == []
      {
        assert Waiting(s, b) == [];
      }
      assert forall i: nat :: k <= i <= MAXPROC ==> DeviceSem(i) != DeviceSem(k - 1);
    }
  }

  lemma NoRun(s: State)
    requires Inv(s)
    ensures IsRun(s, []) && After(s, []) == s
  {
  }

  lemma RunInv(s: State, es: seq<Event>)
    requires Inv(s) && s.curr != NIL && IsRun(s, es)
    ensures Inv(After(s, es))
  {
    hide Inv, IsRun, After;
    RunKeeps(s, es);
  }

  // One process that waits for one device after another uses up the descriptors: from boot there is a run
  // after which nobody waits and every queue is empty, and yet the next SYS5 loses its caller for good.
  lemma DescriptorsRunOut() returns (es: seq<Event>, d: Device)
    ensures Inv(Boot()) && IsRun(Boot(), es) && Inv(After(Boot(), es)) && d.Exists()
    ensures
      var s := After(Boot(), es);
      s.processCnt == 1 && s.curr == 0 && (forall b :: Waiting(s, b) == []) && Stranded(WaitFor(s, SemOf(d)))
  {
    hide Inv, After, IsRun;
    es := DescriptorsPileUp(MAXPROC);
    d := DeviceAt(MAXPROC);
    FirstIsStranded(After(Boot(), es), SemOf(d));
  }

  // The first process lives but is neither ready nor running nor queued, and the scheduler waits for it.
  predicate Stranded(s: State) {
    Live(s, 0) && s.ready == [] && s.curr == NIL && !Blocked(s, 0) && Decision(s) == Wait
  }

  lemma FirstIsStranded(s: State, a: Address)
    requires Inv(s) && Solo(s) && Full(s.queues, a)
    ensures Stranded(WaitFor(s, a))
  {
    hide Inv;
    WaiterIsLost(s, a);
  }
}
