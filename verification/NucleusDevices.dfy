// Waiting for a device. SYS5 blocks its caller whatever the semaphore says, but an interrupt wakes
// somebody only if its V leaves the semaphore at 0 or below (phase2/exceptions.c:268-292, 494-502,
// phase2/interrupts.c:190-201). So it matters that the interrupt comes after the SYS5.
module NucleusDevices {
  import opened Constants
  import opened Queues
  import opened Pcbs
  import opened ActiveSemaphores
  import opened NucleusState
  import opened NucleusInvariant
  import opened NucleusBlocking
  import opened ProcessTree
  import opened NucleusKill
  import opened NucleusRuns

  // What a device semaphore is above the negated number of its waiters.
  function Surplus(s: State, a: Address): int {
    Sem(s, a) + |Waiting(s, a)|
  }

  // The event is an interrupt for a that wakes nobody.
  predicate Wasted(s: State, e: Event, a: Address) {
    e.Interrupt? && e.device.Exists() && SemOf(e.device) == a && Woken(s, a) == NIL
  }

  lemma SurplusSame(s: State, s': State, a: Address)
    requires Sem(s', a) == Sem(s, a) && Waiting(s', a) == Waiting(s, a)
    ensures Surplus(s', a) == Surplus(s, a)
  {
  }

  // Every event leaves the surplus as it is, but a wasted interrupt adds 1.
  lemma NextSurplus(s: State, e: Event, a: Address)
    requires Inv(s) && Possible(s, e) && Disciplined(s, e) && HasRoom(s, e) && IsDeviceSem(a) && a != CLOCK
    ensures Surplus(Next(s, e), a) == Surplus(s, a) + if Wasted(s, e, a) then 1 else 0
  {
    hide Inv, Surplus, Create, Terminate, P, Verhogen, WaitFor, DeviceInterrupt, ClockInterrupt, Preempt;
    StepDefined(s);
    match e
    case Sys1 => CreateDevices(s); SurplusSame(s, Create(s), a);
    case Sys2 => TerminateDevices(s); SurplusSame(s, Terminate(s), a);
    case Sys3(b) => PDevices(s, b); SurplusSame(s, P(s, b), a);
    case Sys4(b) => VDevices(s, b); SurplusSame(s, Verhogen(s, b), a);
    case Sys5(device) => WaitSurplus(s, SemOf(device), a);
    case Sys7 => WaitSurplus(s, CLOCK, a);
    case Interrupt(device) => InterruptSurplus(s, SemOf(device), a);
    case ClockTick => ClockDevices(s, a); SurplusSame(s, ClockInterrupt(s), a);
    case QuantumEnd => PreemptDevices(s); SurplusSame(s, Preempt(s), a);
    case Write(b, value) => SurplusSame(s, Next(s, e), a);
  }

  lemma CreateDevices(s: State)
    requires IsPcb(s.curr) && (s.free == [] || IsPcb(s.free[0]))
    ensures Create(s).mem == s.mem && Create(s).queues == s.queues
  {
  }

  lemma PreemptDevices(s: State)
    ensures Preempt(s).mem == s.mem && Preempt(s).queues == s.queues
  {
  }

  lemma PDevices(s: State, a: Address)
    requires IsPcb(s.curr) && !IsDeviceSem(a)
    ensures forall b: Address :: IsDeviceSem(b) ==> Sem(P(s, a), b) == Sem(s, b) && Waiting(P(s, a), b) == Waiting(s, b)
  {
    hide Full;
  }

  lemma VDevices(s: State, a: Address)
    requires Inv(s) && !IsDeviceSem(a)
    ensures Head(Waiting(s, a)) == NIL || IsPcb(Head(Waiting(s, a)))
    ensures forall b: Address :: IsDeviceSem(b) ==>
      Sem(Verhogen(s, a), b) == Sem(s, b) && Waiting(Verhogen(s, a), b) == Waiting(s, b)
  {
    hide Inv;
    StepDefinedAt(s, a);
  }

  lemma TerminateDevices(s: State)
    requires Inv(s) && s.curr != NIL
    ensures Rooted(s) && Live(s, s.curr)
    ensures forall a: Address :: IsDeviceSem(a) ==>
      Sem(Terminate(s), a) == Sem(s, a) && Waiting(Terminate(s), a) == Waiting(s, a)
  {
    hide Placed, Counted, Balanced, Clocked, Rooted, Victims, KillAll;
    KilledQueues(s);
    var s' := Killed(s).(curr := NIL);
    forall a: Address | IsDeviceSem(a)
      ensures Sem(Terminate(s), a) == Sem(s, a) && Waiting(Terminate(s), a) == Waiting(s, a)
    {
      assert Sem(s', a) + |Waiting(s', a)| == Sem(s, a) + |Waiting(s, a)|;
      assert Waiting(Terminate(s), a) == Waiting(s', a);
    }
  }

  lemma WaitSurplus(s: State, b: Address, a: Address)
    requires IsPcb(s.curr) && !Full(s.queues, b)
    ensures Surplus(WaitFor(s, b), a) == Surplus(s, a)
  {
    NotFull(s, b);
    if a == b {
      assert Waiting(WaitFor(s, b), a) == Waiting(s, a) + [s.curr];
    }
  }

  lemma InterruptSurplus(s: State, b: Address, a: Address)
    requires Inv(s)
    ensures Head(Waiting(s, b)) == NIL || IsPcb(Head(Waiting(s, b)))
    ensures Surplus(DeviceInterrupt(s, b), a) == Surplus(s, a) + if a == b && Woken(s, a) == NIL then 1 else 0
  {
    hide Inv;
    StepDefinedAt(s, b);
    HeadsExist(s, b);
    if a == b && Woken(s, b) != NIL {
      assert Waiting(DeviceInterrupt(s, b), a) == Tail(Waiting(s, a));
    }
  }

  lemma HeadsExist(s: State, a: Address)
    requires Inv(s)
    ensures Head(Waiting(s, a)) == NIL <==> Waiting(s, a) == []
  {
    hide Counted, Balanced, Clocked, Rooted;
    HeadIsPcb(s, a);
  }

  lemma ClockDevices(s: State, a: Address)
    requires Inv(s) && a != CLOCK
    ensures ArePcbs(Waiting(s, CLOCK))
    ensures Sem(ClockInterrupt(s), a) == Sem(s, a) && Waiting(ClockInterrupt(s), a) == Waiting(s, a)
  {
    hide Placed, Counted, Balanced, Clocked, Rooted, Drain;
    DrainKeeps(s);
  }

  // the interrupts for a that woke nobody in a run
  ghost function Lost(s: State, es: seq<Event>, a: Address): nat
    requires Inv(s) && IsRun(s, es)
    decreases |es|
  {
    if es == [] then 0
    else (if Wasted(s, es[0], a) then 1 else 0) + (NextKeeps(s, es[0]); Lost(Next(s, es[0]), es[1..], a))
  }

  lemma {:induction false} RunSurplus(s: State, es: seq<Event>, a: Address)
    requires Inv(s) && Settled(s) && IsRun(s, es) && IsDeviceSem(a) && a != CLOCK
    ensures Inv(After(s, es)) && Surplus(After(s, es), a) == Surplus(s, a) + Lost(s, es, a)
    decreases |es|
  {
    hide Inv, Next, Disciplined, HasRoom, Possible, Wasted, Surplus;
    if es != [] {
      NextKeeps(s, es[0]);
      NextSettled(s, es[0]);
      NextSurplus(s, es[0], a);
      RunSurplus(Next(s, es[0]), es[1..], a);
    }
  }

  // After any run, the next interrupt wakes the process that has waited longest for the device exactly
  // when more processes wait than interrupts were lost; otherwise it wakes nobody.
  lemma InterruptWakesExactly(s: State, es: seq<Event>, a: Address)
    requires Inv(s) && Settled(s) && IsRun(s, es) && IsDeviceSem(a) && a != CLOCK
    ensures
      var s' := After(s, es);
      Woken(s', a) == if Surplus(s, a) + Lost(s, es, a) < |Waiting(s', a)| then Head(Waiting(s', a)) else NIL
    ensures
      var s' := After(s, es);
      Waiting(s', a) != [] ==>
        (Woken(s', a) == Waiting(s', a)[0] <==> Surplus(s, a) + Lost(s, es, a) < |Waiting(s', a)|)
  {
    hide Inv, IsRun, After, Lost, Settled;
    RunSurplus(s, es, a);
    HeadsExist(After(s, es), a);
  }

  // From boot, every semaphore starts without a surplus.
  lemma BootWakesExactly(es: seq<Event>, a: Address)
    requires (BootInv(); IsRun(Boot(), es)) && IsDeviceSem(a) && a != CLOCK
    ensures Inv(Boot())
    ensures
      var s := After(Boot(), es);
      Waiting(s, a) != [] ==> (Woken(s, a) == Waiting(s, a)[0] <==> Lost(Boot(), es, a) < |Waiting(s, a)|)
  {
    BootInv();
    assert Surplus(Boot(), a) == 0;
    hide Inv, IsRun, After, Lost, Settled, Boot;
    InterruptWakesExactly(Boot(), es, a);
  }

  // Every interrupt for a comes while somebody waits for it.
  ghost predicate PromptRun(s: State, es: seq<Event>, a: Address)
    requires Inv(s) && IsRun(s, es)
    decreases |es|
  {
    es != [] ==>
      && (es[0].Interrupt? && es[0].device.Exists() && SemOf(es[0].device) == a ==> Waiting(s, a) != [])
      && (NextKeeps(s, es[0]); PromptRun(Next(s, es[0]), es[1..], a))
  }

  // No interrupt is lost exactly when none comes before it is waited for. Every interrupt then wakes
  // the process that has waited longest.
  lemma {:induction false} PromptLosesNothing(s: State, es: seq<Event>, a: Address)
    requires Inv(s) && Settled(s) && IsRun(s, es) && IsDeviceSem(a) && a != CLOCK && Surplus(s, a) == 0
    ensures Lost(s, es, a) == 0 <==> PromptRun(s, es, a)
    decreases |es|
  {
    hide Inv, Next, Disciplined, HasRoom, Possible;
    if es != [] {
      NextKeeps(s, es[0]);
      NextSettled(s, es[0]);
      NextSurplus(s, es[0], a);
      HeadsExist(s, a);
      if !Wasted(s, es[0], a) {
        PromptLosesNothing(Next(s, es[0]), es[1..], a);
      }
    }
  }

  lemma RunAnswers(s: State, es: seq<Event>, a: Address)
    requires Inv(s) && Settled(s) && IsRun(s, es) && IsDeviceSem(a) && a != CLOCK && Surplus(s, a) == 0
    requires PromptRun(s, es, a)
    ensures Waiting(After(s, es), a) != [] ==> Woken(After(s, es), a) == Waiting(After(s, es), a)[0]
  {
    hide Inv, IsRun, After, Lost, Settled, PromptRun;
    PromptLosesNothing(s, es, a);
    InterruptWakesExactly(s, es, a);
  }

  // An interrupt that comes before the SYS5 is not remembered: its V leaves the semaphore at 1, the SYS5
  // blocks all the same, and the device's next interrupt wakes nobody.
  lemma EarlyInterruptIsLost(s: State, a: Address)
    requires Inv(s) && s.curr != NIL && IsDeviceSem(a) && a != CLOCK && !Full(s.queues, a)
    requires Sem(s, a) == 0 && Waiting(s, a) == []
    ensures IsPcb(s.curr)
    ensures
      var s1 := DeviceInterrupt(s, a);
      && s1.curr == s.curr && Waiting(WaitFor(s1, a), a) == [s.curr]
      && Woken(WaitFor(s1, a), a) == NIL && Waiting(DeviceInterrupt(WaitFor(s1, a), a), a) == [s.curr]
  {
    hide Placed, Counted, Balanced, Clocked, Rooted;
    StepDefined(s);
    var s1 := DeviceInterrupt(s, a);
    assert s1.queues == s.queues && Sem(s1, a) == 1;
    NotFull(s1, a);
    var s2 := WaitFor(s1, a);
    assert Waiting(s2, a) == [] + [s.curr] && Sem(s2, a) == 0;
  }
}
