// The join of the first process: it waits on the master semaphore once for every user process, and a user
// process signals it when it ends (phase3/initProc.c:132-137, phase3/sysSupport.c:121-124).
module NucleusJoin {
  import opened Constants
  import opened Queues
  import opened Pcbs
  import opened ActiveSemaphores
  import opened NucleusState
  import opened NucleusInvariant
  import opened NucleusBlocking
  import opened ProcessTree
  import opened NucleusKill
  import opened NucleusRuns
  import opened NucleusSemaphores

  // A pcb is used again for another process; the time of its allocation tells them apart.
  datatype Process = Process(pcb: Ptr, birth: nat)

  // The event is something that the running process does.
  predicate IsCall(e: Event) {
    !e.Interrupt? && !e.ClockTick? && !e.QuantumEnd?
  }

  // The pcbs of the live processes that have signalled master.
  ghost function Leaving(s: State, e: Event, master: Address, leaving: set<Ptr>): set<Ptr>
    requires Inv(s) && Possible(s, e)
  {
    set p | p in (if e == Sys4(master) then leaving + {s.curr} else leaving) && Live(Next(s, e), p)
  }

  // What the code of a user process does with master: the V is the last thing before its SYS2.
  ghost predicate EndsAfterSignal(s: State, es: seq<Event>, master: Address, leaving: set<Ptr>)
    requires Inv(s) && IsRun(s, es)
    decreases |es|
  {
    es != [] ==>
      && (IsCall(es[0]) && s.curr in leaving ==> es[0].Sys2?)
      && (NextKeeps(s, es[0]);
          EndsAfterSignal(Next(s, es[0]), es[1..], master, Leaving(s, es[0], master, leaving)))
  }

  // the processes that signal master in a run
  ghost function Signallers(s: State, es: seq<Event>, master: Address): set<Process>
    requires Inv(s) && IsRun(s, es)
    decreases |es|
  {
    if es == [] then {}
    else
      (if es[0] == Sys4(master) then StepDefined(s); {Process(s.curr, s.birth[s.curr])} else {}) +
      (NextKeeps(s, es[0]); Signallers(Next(s, es[0]), es[1..], master))
  }

  // ------------------------------------------------------------------------ who is who

  // No process changes its time of birth, and whoever is new is younger than all before.
  ghost predicate Ageing(s: State, s': State) {
    && s.clock <= s'.clock
    && forall p :: Live(s', p) ==> (Live(s, p) && s'.birth[p] == s.birth[p]) || s'.birth[p] >= s.clock
  }

  lemma SameAge(s: State, s': State)
    requires s'.free == s.free && s'.birth == s.birth && s'.clock == s.clock
    ensures Ageing(s, s')
  {
  }

  lemma NextAges(s: State, e: Event)
    requires Inv(s) && Possible(s, e)
    ensures Ageing(s, Next(s, e))
    ensures e.Sys4? ==> forall p :: Live(Next(s, e), p) <==> Live(s, p)
  {
    hide Inv, Ageing, Create, Terminate, P, Verhogen, WaitFor, DeviceInterrupt, ClockInterrupt, Preempt;
    StepDefined(s);
    match e
    case Sys1 => CreateAges(s);
    case Sys2 => TerminateAges(s);
    case Sys3(a) => BlockAges(s, a); SameAge(s, P(s, a));
    case Sys4(a) => StepDefinedAt(s, a); SignalAges(s, a); SameAge(s, Verhogen(s, a));
    case Sys5(device) => BlockAges(s, SemOf(device)); SameAge(s, WaitFor(s, SemOf(device)));
    case Sys7 => BlockAges(s, CLOCK); SameAge(s, WaitFor(s, CLOCK));
    case Interrupt(device) =>
      StepDefinedAt(s, SemOf(device));
      SignalAges(s, SemOf(device));
      SameAge(s, DeviceInterrupt(s, SemOf(device)));
    case ClockTick => ClockAges(s); SameAge(s, ClockInterrupt(s));
    case QuantumEnd => PreemptAges(s); SameAge(s, Preempt(s));
    case Write(a, value) => SameAge(s, Next(s, e));
  }

  lemma CreateAges(s: State)
    requires IsPcb(s.curr) && (s.free == [] || IsPcb(s.free[0]))
    ensures Ageing(s, Create(s))
  {
    if s.free != [] {
      assert forall p :: p in s.free <==> p == s.free[0] || p in s.free[1..];
    }
  }

  lemma TerminateAges(s: State)
    requires Inv(s) && s.curr != NIL
    ensures Rooted(s) && Live(s, s.curr) && Ageing(s, Terminate(s))
  {
    hide Placed, Counted, Balanced, Clocked, Rooted, Victims, KillAll, Subtree;
    CurrentLives(s);
    KilledTree(s);
    var s' := Terminate(s);
    assert forall p :: Live(s', p) <==> Live(Killed(s), p);
  }

  lemma BlockAges(s: State, a: Address)
    requires IsPcb(s.curr)
    ensures P(s, a).free == s.free && P(s, a).birth == s.birth && P(s, a).clock == s.clock
    ensures WaitFor(s, a).free == s.free && WaitFor(s, a).birth == s.birth && WaitFor(s, a).clock == s.clock
  {
  }

  lemma SignalAges(s: State, a: Address)
    requires Head(Waiting(s, a)) == NIL || IsPcb(Head(Waiting(s, a)))
    ensures Verhogen(s, a).free == s.free && Verhogen(s, a).birth == s.birth && Verhogen(s, a).clock == s.clock
    ensures
      var s' := DeviceInterrupt(s, a);
      s'.free == s.free && s'.birth == s.birth && s'.clock == s.clock
  {
  }

  lemma ClockAges(s: State)
    requires Inv(s)
    ensures ArePcbs(Waiting(s, CLOCK))
    ensures
      var s' := ClockInterrupt(s);
      s'.free == s.free && s'.birth == s.birth && s'.clock == s.clock
  {
    hide Placed, Counted, Balanced, Clocked, Rooted, Drain;
    DrainKeeps(s);
  }

  lemma PreemptAges(s: State)
    ensures Preempt(s).free == s.free && Preempt(s).birth == s.birth && Preempt(s).clock == s.clock
  {
  }

  // ------------------------------------------------------------------------------ the join

  // A process that may still signal: a later one, or one that lives and has not.
  ghost predicate MaySignal(s: State, leaving: set<Ptr>, q: Process) {
    q.birth >= s.clock || (Live(s, q.pcb) && q.birth == s.birth[q.pcb] && q.pcb !in leaving)
  }

  // No process signals twice, so there are as many processes that have signalled as there are signals.
  lemma {:induction false} SignalsAreDistinct(s: State, es: seq<Event>, master: Address, leaving: set<Ptr>)
    requires Inv(s) && IsRun(s, es) && EndsAfterSignal(s, es, master, leaving)
    ensures |Signallers(s, es, master)| == Signals(es, master)
    ensures forall q :: q in Signallers(s, es, master) ==> MaySignal(s, leaving, q)
    decreases |es|
  {
    hide Inv, Next, Possible, Disciplined, HasRoom, MaySignal;
    if es != [] {
      var s', left := Next(s, es[0]), Leaving(s, es[0], master, leaving);
      NextKeeps(s, es[0]);
      SignalsAreDistinct(s', es[1..], master, left);
      var rest := Signallers(s', es[1..], master);
      forall q | q in rest
        ensures MaySignal(s, leaving, q)
      {
        StillMaySignal(s, es[0], master, leaving, q);
      }
      if es[0] == Sys4(master) {
        SignalsOnce(s, master, leaving);
        StepDefined(s);
        assert Process(s.curr, s.birth[s.curr]) !in rest;
      }
    }
  }

  lemma StillMaySignal(s: State, e: Event, master: Address, leaving: set<Ptr>, q: Process)
    requires Inv(s) && Possible(s, e) && MaySignal(Next(s, e), Leaving(s, e, master, leaving), q)
    ensures MaySignal(s, leaving, q)
  {
    hide Inv, Next, Possible;
    NextAges(s, e);
  }

  lemma SignalsOnce(s: State, master: Address, leaving: set<Ptr>)
    requires Inv(s) && Possible(s, Sys4(master)) && s.curr !in leaving
    ensures IsPcb(s.curr) && MaySignal(s, leaving, Process(s.curr, s.birth[s.curr]))
    ensures !MaySignal(Next(s, Sys4(master)), Leaving(s, Sys4(master), master, leaving),
                       Process(s.curr, s.birth[s.curr]))
  {
    hide Placed, Counted, Balanced, Clocked, Next;
    StepDefined(s);
    NextAges(s, Sys4(master));
    SignalAgesNext(s, master);
  }

  lemma SignalAgesNext(s: State, master: Address)
    requires Inv(s) && Possible(s, Sys4(master))
    ensures Next(s, Sys4(master)).clock == s.clock
  {
    hide Inv, Verhogen;
    StepDefinedAt(s, master);
    SignalAges(s, master);
  }

  // From the master semaphore's 0 on, no more P's on it are completed than processes have signalled it.
  lemma JoinWaitsForAll(s: State, es: seq<Event>, master: Address)
    requires Inv(s) && IsRun(s, es) && !IsDeviceSem(master) && Unwritten(es, master) && Sem(s, master) == 0
    requires EndsAfterSignal(s, es, master, {})
    ensures |Signallers(s, es, master)| == Signals(es, master)
    ensures AllPasses(s, es, master) <= |Signallers(s, es, master)|
  {
    hide Inv, IsRun, After, EndsAfterSignal, Signallers;
    SignalsAreDistinct(s, es, master, {});
    PassesAndSignals(s, es, master);
  }

  // So if nobody but the user processes signals it, the first process gets past its join, one P for each of
  // them, only when every one of them has signalled.
  lemma JoinIsOver(s: State, es: seq<Event>, master: Address, users: set<Process>)
    requires Inv(s) && IsRun(s, es) && !IsDeviceSem(master) && Unwritten(es, master) && Sem(s, master) == 0
    requires EndsAfterSignal(s, es, master, {}) && Signallers(s, es, master) <= users
    requires AllPasses(s, es, master) >= |users|
    ensures Signallers(s, es, master) == users
  {
    hide Inv, IsRun, After, EndsAfterSignal, Signallers, AllPasses;
    JoinWaitsForAll(s, es, master);
    var others := users - Signallers(s, es, master);
    assert users == Signallers(s, es, master) + others;
  }
}
