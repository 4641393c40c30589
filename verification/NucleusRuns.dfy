// Whole runs of the nucleus: sequences of system calls and interrupts from boot.
module NucleusRuns {
  import opened Constants
  import opened Queues
  import opened Pcbs
  import opened ActiveSemaphores
  import opened NucleusState
  import opened NucleusInvariant
  import opened NucleusBlocking
  import opened ProcessTree
  import opened NucleusKill

  // Write: the running process initialises a semaphore.
  datatype Event =
    | Sys1 | Sys2 | Sys3(a: Address) | Sys4(a: Address) | Sys5(device: Device) | Sys7
    | Interrupt(device: Device) | ClockTick | QuantumEnd | Write(a: Address, value: int)

  // What can happen: system calls come from the running process, and the processor takes
  // interrupts while a process runs or while the scheduler waits for one.
  predicate Possible(s: State, e: Event) {
    match e
    case Sys1 | Sys2 | Sys7 | QuantumEnd => s.curr != NIL
    case Sys3(a) => s.curr != NIL && a < MAXINT
    case Sys4(a) => s.curr != NIL && a < MAXINT
    case Sys5(device) => s.curr != NIL && device.Exists()
    case Interrupt(device) => device.Exists() && (s.curr != NIL || Decision(s) == Wait)
    case ClockTick => s.curr != NIL || Decision(s) == Wait
    case Write(a, value) => s.curr != NIL && !IsDeviceSem(a) && Waiting(s, a) == [] && value >= 0
  }

  // the semaphore on whose queue the event may put the running process
  function Target(s: State, e: Event): (a: Address)
    requires e.Sys5? ==> e.device.Exists()
  {
    match e
    case Sys3(a) => if Sem(s, a) >= 1 then NULL else a
    case Sys5(device) => SemOf(device)
    case Sys7 => CLOCK
    case _ => NULL
  }

  function SemOf(device: Device): (a: Address)
    requires device.Exists()
    ensures IsDeviceSem(a) && a != CLOCK && a < MAXINT
  {
    DeviceSem(device.Index())
  }

  // No two devices, and no transmitter and receiver of a terminal, share a semaphore.
  lemma DevicesApart(d: Device, e: Device)
    requires d.Exists() && e.Exists() && SemOf(d) == SemOf(e)
    ensures d.line == e.line && d.number == e.number && (d.line == TERMINT ==> d.receiver == e.receiver)
  {
    assert d.Index() == e.Index();
    if d.line != TERMINT {
      assert d.Index() / DEVPERINT == d.line - 3 && d.Index() % DEVPERINT == d.number;
    } else {
      assert (d.Index() - 32) / SUBDEVPERTERM == d.number && (d.Index() - 32) % SUBDEVPERTERM == d.receiver;
    }
    if e.line != TERMINT {
      assert e.Index() / DEVPERINT == e.line - 3 && e.Index() % DEVPERINT == e.number;
    } else {
      assert (e.Index() - 32) / SUBDEVPERTERM == e.number && (e.Index() - 32) % SUBDEVPERTERM == e.receiver;
    }
  }

  predicate ComesBefore(d: Device, e: Device) {
    d.line < e.line || (d.line == e.line && (d.number < e.number ||
      (d.number == e.number && d.line == TERMINT && d.receiver < e.receiver)))
  }

  // The semaphores are in the order of the lines, on a line of the devices, and on a terminal the
  // transmitter's comes first; only the pseudo-clock's is behind them. So every device has the one that its
  // place says.
  lemma DevicesInOrder(d: Device, e: Device)
    requires d.Exists() && e.Exists()
    ensures ComesBefore(d, e) ==> SemOf(d) < SemOf(e)
    ensures DEVICE_SEM <= SemOf(d) && SemOf(d) + WORDLEN <= CLOCK
    ensures forall i: nat :: i < PSEUDOCLK ==> exists f: Device :: f.Exists() && SemOf(f) == DeviceSem(i)
  {
    forall i: nat | i < PSEUDOCLK
      ensures exists f: Device :: f.Exists() && SemOf(f) == DeviceSem(i)
    {
      var f := if i < 32 then Device(3 + i / 8, i % 8, 0) else Device(TERMINT, (i - 32) / 2, i % 2);
      assert f.Exists() && f.Index() == i;
    }
  }

  // SYS3 and SYS4 are for the semaphores of the kernel and support level, and SYS2 is not used
  // while a process that it would kill waits on a device or on the clock.
  ghost predicate Disciplined(s: State, e: Event)
    requires Inv(s) && Possible(s, e)
  {
    match e
    case Sys3(a) => !IsDeviceSem(a)
    case Sys4(a) => !IsDeviceSem(a)
    case Sys2 =>
      CurrentLives(s);
      forall p :: p in Subtree(s, s.curr) ==> IsPcb(p) && !DeviceBlocked(s, p)
    case _ => true
  }

  // A descriptor is at hand for whoever has to wait.
  predicate HasRoom(s: State, e: Event)
    requires Possible(s, e)
  {
    Target(s, e) != NULL ==> !Full(s.queues, Target(s, e))
  }

  ghost function Next(s: State, e: Event): State
    requires Inv(s) && Possible(s, e)
  {
    StepDefined(s);
    match e
    case Sys1 => Create(s)
    case Sys2 => Terminate(s)
    case Sys3(a) => P(s, a)
    case Sys4(a) => StepDefinedAt(s, a); Verhogen(s, a)
    case Sys5(device) => WaitFor(s, SemOf(device))
    case Sys7 => WaitFor(s, CLOCK)
    case Interrupt(device) => StepDefinedAt(s, SemOf(device)); DeviceInterrupt(s, SemOf(device))
    case ClockTick => StepDefinedAt(s, CLOCK); ClockInterrupt(s)
    case QuantumEnd => Preempt(s)
    case Write(a, value) => s.(mem := s.mem[a := value])
  }

  lemma StepDefined(s: State)
    requires Inv(s)
    ensures s.curr != NIL ==> IsPcb(s.curr) && Live(s, s.curr)
    ensures s.free == [] || IsPcb(s.free[0])
  {
  }

  lemma StepDefinedAt(s: State, a: Address)
    requires Inv(s)
    ensures Head(Waiting(s, a)) == NIL || IsPcb(Head(Waiting(s, a)))
    ensures ArePcbs(Waiting(s, a))
  {
  }

  lemma NextKeeps(s: State, e: Event)
    requires Inv(s) && Possible(s, e) && Disciplined(s, e) && HasRoom(s, e)
    ensures Inv(Next(s, e))
  {
    hide Inv, Full, Subtree, Create, Terminate, P, Verhogen, WaitFor, DeviceInterrupt, ClockInterrupt, Preempt;
    match e
    case Sys1 => CreateKeeps(s);
    case Sys2 => TerminateKeeps(s);
    case Sys3(a) => PKeeps(s, a);
    case Sys4(a) => VKeeps(s, a);
    case Sys5(device) => WaitForKeeps(s, SemOf(device));
    case Sys7 => WaitForKeeps(s, CLOCK);
    case Interrupt(device) => DeviceInterruptKeeps(s, SemOf(device));
    case ClockTick => ClockInterruptKeeps(s);
    case QuantumEnd => PreemptKeeps(s);
    case Write(a, value) => CellChangeKeeps(s, a, value);
  }

  ghost predicate IsRun(s: State, es: seq<Event>)
    requires Inv(s)
    decreases |es|
  {
    es != [] ==>
      Possible(s, es[0]) && Disciplined(s, es[0]) && HasRoom(s, es[0]) &&
      (NextKeeps(s, es[0]); IsRun(Next(s, es[0]), es[1..]))
  }

  ghost function After(s: State, es: seq<Event>): State
    requires Inv(s) && IsRun(s, es)
    decreases |es|
  {
    if es == [] then s else (NextKeeps(s, es[0]); After(Next(s, es[0]), es[1..]))
  }

  // The processor idles only when nobody is ready.
  predicate Settled(s: State) {
    s.curr == NIL ==> s.ready == []
  }

  // The state main leaves behind: the first process runs.
  function Boot(): State {
    Schedule(Booted())
  }

  lemma BootInv()
    ensures Inv(Boot()) && Settled(Boot()) && Boot().curr == 0
  {
    hide Inv;
    BootedInv();
    ScheduleKeeps(Booted());
  }

  lemma NextSettled(s: State, e: Event)
    requires Inv(s) && Possible(s, e) && Settled(s)
    ensures Settled(Next(s, e))
  {
    hide Counted, Balanced, Clocked, Rooted, Full, Inserted, Removed, KillAll, Victims, Drain, Create;
    StepDefined(s);
    match e
    case Sys1 => CreateRuns(s);
    case Sys2 => TerminateSettled(s);
    case Sys4(a) => StepDefinedAt(s, a);
    case Interrupt(device) => StepDefinedAt(s, SemOf(device));
    case ClockTick => ClockSettled(s);
    case _ =>
  }

  lemma CreateRuns(s: State)
    requires IsPcb(s.curr) && (s.free == [] || IsPcb(s.free[0]))
    ensures Create(s).curr == s.curr
  {
  }

  lemma TerminateSettled(s: State)
    requires Inv(s) && s.curr != NIL
    ensures Live(s, s.curr) && Settled(Terminate(s))
  {
    hide Counted, Balanced, Clocked, Rooted, KillAll, Victims;
    KilledQueues(s);
    var s' := Killed(s).(curr := NIL);
    assert ArePcbs(s'.ready);
  }

  lemma ClockSettled(s: State)
    requires Inv(s)
    ensures ArePcbs(Waiting(s, CLOCK)) && Settled(ClockInterrupt(s))
  {
    hide Counted, Balanced, Clocked, Rooted, Drain;
    DrainKeeps(s);
    assert ArePcbs(Drain(s).ready);
  }

  // In every reachable state each pcb is in its one place, the counters are right, the
  // semaphores balance and the live processes form a tree.
  lemma {:induction false} RunKeeps(s: State, es: seq<Event>)
    requires Inv(s) && Settled(s) && IsRun(s, es)
    ensures Inv(After(s, es)) && Settled(After(s, es))
    decreases |es|
  {
    hide Inv, Next, Disciplined, HasRoom, Possible;
    if es != [] {
      NextKeeps(s, es[0]);
      NextSettled(s, es[0]);
      RunKeeps(Next(s, es[0]), es[1..]);
    }
  }

  lemma {:induction false} RunConcat(s: State, es: seq<Event>, fs: seq<Event>)
    requires Inv(s) && IsRun(s, es) && Inv(After(s, es)) && IsRun(After(s, es), fs)
    ensures IsRun(s, es + fs) && After(s, es + fs) == After(After(s, es), fs)
    decreases |es|
  {
    hide Inv, Next, Disciplined, HasRoom, Possible;
    if es == [] {
      assert es + fs == fs;
    } else {
      NextKeeps(s, es[0]);
      assert (es + fs)[0] == es[0] && (es + fs)[1..] == es[1..] + fs;
      RunConcat(Next(s, es[0]), es[1..], fs);
    }
  }

  lemma RunOne(s: State, e: Event)
    requires Inv(s) && Possible(s, e) && Disciplined(s, e) && HasRoom(s, e)
    ensures IsRun(s, [e]) && After(s, [e]) == Next(s, e) && Inv(Next(s, e))
  {
    hide Inv, Next, Disciplined, HasRoom, Possible;
    NextKeeps(s, e);
    assert IsRun(Next(s, e), []);
    assert [e][1..] == [];
  }
}
