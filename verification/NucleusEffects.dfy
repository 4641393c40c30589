// What every event does to each part of the nucleus, one law a part: who runs and who is ready, who waits
// where, which semaphores have descriptors, what their values are, and the families (phase2/exceptions.c:163-340,
// phase2/interrupts.c:176-300, phase2/scheduler.c:53-83).
module NucleusEffects {
  import opened Constants
  import opened Queues
  import opened Pcbs
  import opened ActiveSemaphores
  import opened NucleusState
  import opened NucleusInvariant
  import opened NucleusBlocking
  import opened ProcessTree
  import opened NucleusKill
  import opened NucleusRuns
  import opened NucleusFairness

  // The event is a V on a by a process or by a device.
  predicate Signals(e: Event, a: Address) {
    e == Sys4(a) || (e.Interrupt? && e.device.Exists() && SemOf(e.device) == a)
  }

  // The V takes the process that has waited longest off the queue of a: the semaphore is negative.
  predicate Wakes(s: State, e: Event, a: Address) {
    Signals(e, a) && Sem(s, a) < 0 && Waiting(s, a) != []
  }

  // The event puts the running process on the queue of a.
  predicate Blocks(s: State, e: Event, a: Address)
    requires Possible(s, e)
  {
    a != NULL && Target(s, e) == a && !Full(s.queues, a)
  }

  // The event lets the running process do a P on a.
  predicate Takes(s: State, e: Event, a: Address) {
    match e
    case Sys3(b) => a == b
    case Sys5(device) => device.Exists() && a == SemOf(device)
    case Sys7 => a == CLOCK
    case _ => false
  }

  // the processes that the event makes ready, in this order
  function Joining(s: State, e: Event): seq<Ptr> {
    match e
    case Sys1 => if s.free == [] then [] else [s.free[0]]
    case Sys4(a) => if Wakes(s, e, a) then [Waiting(s, a)[0]] else []
    case Interrupt(device) =>
      if device.Exists() && Wakes(s, e, SemOf(device)) then [Waiting(s, SemOf(device))[0]] else []
    case ClockTick => Waiting(s, CLOCK)
    case QuantumEnd => [s.curr]
    case _ => []
  }

  // the victims of the event
  ghost function Dying(s: State, e: Event): set<Ptr>
    requires Inv(s) && Possible(s, e)
  {
    StepDefined(s);
    if e.Sys2? then Subtree(s, s.curr) else {}
  }

  // ----------------------------------------------------------------------- the processor

  // The ready queue: who dies leaves it, and who is made ready joins it at its end. Then, if the event ends in
  // the scheduler, its head runs; otherwise whoever ran goes on.
  lemma NextReady(s: State, e: Event)
    requires Inv(s) && Possible(s, e)
    ensures
      var s', line := Next(s, e), Avoiding(s.ready, Dying(s, e)) + Joining(s, e);
      if Dispatches(s, e) then s'.curr == Head(line) && s'.ready == Tail(line)
      else s'.curr == s.curr && s'.ready == line
  {
    hide Placed, Counted, Balanced, Clocked, Rooted, Subtree, Avoiding, Drain, Inserted, Full, KillAll, Victims;
    StepDefined(s);
    AvoidingNone(s.ready, {});
    match e
    case Sys1 =>
    case Sys2 => KilledQueues(s); TerminateReady(s);
    case Sys4(a) => SignalReady(s, a);
    case Interrupt(device) => SignalReady(s, SemOf(device)); InterruptReady(s, SemOf(device));
    case ClockTick => ClockReady(s);
    case _ =>
  }

  lemma TerminateReady(s: State)
    requires Inv(s) && s.curr != NIL
    ensures Rooted(s) && Live(s, s.curr)
    ensures
      var line := Avoiding(s.ready, Subtree(s, s.curr)) + [];
      Terminate(s).curr == Head(line) && Terminate(s).ready == Tail(line)
  {
    hide Placed, Counted, Balanced, Clocked, Rooted, Subtree, Avoiding, KillAll, Victims;
    KilledQueues(s);
    assert Avoiding(s.ready, Subtree(s, s.curr)) + [] == Avoiding(s.ready, Subtree(s, s.curr));
  }

  lemma SignalReady(s: State, a: Address)
    requires Inv(s)
    ensures Head(Waiting(s, a)) == NIL || IsPcb(Head(Waiting(s, a)))
    ensures
      var s' := Verhogen(s, a);
      && s'.curr == s.curr && s'.softblockCnt == s.softblockCnt
      && s'.ready == s.ready + if Sem(s, a) < 0 && Waiting(s, a) != [] then [Waiting(s, a)[0]] else []
  {
    hide Counted, Balanced, Clocked, Rooted;
    HeadIsPcb(s, a);
  }

  lemma InterruptReady(s: State, a: Address)
    requires Inv(s)
    ensures Head(Waiting(s, a)) == NIL || IsPcb(Head(Waiting(s, a)))
    ensures
      var s', v := DeviceInterrupt(s, a), Verhogen(s, a);
      if s.curr == NIL then s'.curr == Head(v.ready) && s'.ready == Tail(v.ready)
      else s'.curr == s.curr && s'.ready == v.ready
  {
    hide Counted, Balanced, Clocked, Rooted, Unblock;
    SignalReady(s, a);
  }

  // After a tick of the pseudo-clock, the interrupted process goes on; if there was none, the first of the
  // ready, or else of those that waited for the tick, runs.
  lemma ClockReady(s: State)
    requires Inv(s)
    ensures ArePcbs(Waiting(s, CLOCK))
    ensures
      var s', line := ClockInterrupt(s), s.ready + Waiting(s, CLOCK);
      if s.curr == NIL then s'.curr == Head(line) && s'.ready == Tail(line)
      else s'.curr == s.curr && s'.ready == line
  {
    hide Placed, Counted, Balanced, Clocked, Rooted, Drain;
    DrainKeeps(s);
  }

  // So an event that does not end in the scheduler returns to whom it interrupted, and nobody loses a place.
  lemma NextRunsOn(s: State, e: Event)
    requires Inv(s) && Possible(s, e) && !Dispatches(s, e)
    ensures Next(s, e).curr == s.curr && s.ready <= Next(s, e).ready
  {
    hide Inv, Next, Dispatches, Avoiding, Joining, Possible;
    NextReady(s, e);
    OnlySys2Kills(s, e);
    AvoidingNone(s.ready, {});
  }

  lemma OnlySys2Kills(s: State, e: Event)
    requires Inv(s) && Possible(s, e) && !Dispatches(s, e)
    ensures Dying(s, e) == {}
  {
    hide Inv;
  }

  // -------------------------------------------------------------------------- the queues

  // Who waits on b: who blocks there joins the queue at its end, a V takes the first, a tick all of the
  // clock's, and a kill the dead, unless a device owns the semaphore.
  lemma NextWaiting(s: State, e: Event, b: Address)
    requires Inv(s) && Possible(s, e)
    ensures
      var q, q' := Waiting(s, b), Waiting(Next(s, e), b);
      q' == if Blocks(s, e, b) then q + [s.curr]
            else if Wakes(s, e, b) then q[1..]
            else if e.ClockTick? && b == CLOCK then []
            else if IsDeviceSem(b) then q
            else Avoiding(q, Dying(s, e))
  {
    hide Placed, Counted, Balanced, Clocked, Rooted, Subtree, Avoiding, Drain, KillAll, Victims;
    StepDefined(s);
    AvoidingNone(Waiting(s, b), {});
    match e
    case Sys2 => KilledQueues(s); TerminateWaiting(s, b);
    case Sys4(a) => SignalWaiting(s, a, b);
    case Interrupt(device) => SignalWaiting(s, SemOf(device), b);
    case ClockTick => ClockWaiting(s, b);
    case _ =>
  }

  lemma TerminateWaiting(s: State, b: Address)
    requires Inv(s) && s.curr != NIL
    ensures Rooted(s) && Live(s, s.curr)
    ensures
      Waiting(Terminate(s), b) == if IsDeviceSem(b) then Waiting(s, b) else Avoiding(Waiting(s, b), Subtree(s, s.curr))
    ensures b in Terminate(s).queues <==>
      b in s.queues && (IsDeviceSem(b) || Waiting(s, b) == [] || Waiting(Terminate(s), b) != [])
    ensures Sem(Terminate(s), b) + |Waiting(Terminate(s), b)| == Sem(s, b) + |Waiting(s, b)|
  {
    hide Placed, Counted, Balanced, Clocked, Rooted, Subtree, Avoiding, KillAll, Victims;
    KilledQueues(s);
    var s' := Killed(s).(curr := NIL);
    assert Waiting(Terminate(s), b) == Waiting(s', b) && Sem(Terminate(s), b) == Sem(s', b);
  }

  lemma SignalWaiting(s: State, a: Address, b: Address)
    requires Inv(s)
    ensures Head(Waiting(s, a)) == NIL || IsPcb(Head(Waiting(s, a)))
    ensures
      var s', woken := Verhogen(s, a), Sem(s, a) < 0 && Waiting(s, a) != [];
      && Waiting(s', b) == (if b == a && woken then Waiting(s, b)[1..] else Waiting(s, b))
      && (b in s'.queues <==> b in s.queues && !(b == a && Sem(s, a) < 0 && Waiting(s, a) == []))
      && Sem(s', b) == Sem(s, b) + if b == a then 1 else 0
    ensures DeviceInterrupt(s, a).queues == Verhogen(s, a).queues && DeviceInterrupt(s, a).mem == Verhogen(s, a).mem
  {
    hide Counted, Balanced, Clocked, Rooted;
    HeadIsPcb(s, a);
  }

  lemma ClockWaiting(s: State, b: Address)
    requires Inv(s)
    ensures ArePcbs(Waiting(s, CLOCK))
    ensures Waiting(ClockInterrupt(s), b) == if b == CLOCK then [] else Waiting(s, b)
    ensures b in ClockInterrupt(s).queues <==> b in s.queues && b != CLOCK
    ensures Sem(ClockInterrupt(s), b) == if b == CLOCK then 0 else Sem(s, b)
  {
    hide Placed, Counted, Balanced, Clocked, Rooted, Drain;
    DrainKeeps(s);
    if b != CLOCK {
      DrainDescriptors(s, b);
    }
  }

  lemma {:induction false} DrainDescriptors(s: State, b: Address)
    requires ArePcbs(Waiting(s, CLOCK)) && b != CLOCK
    ensures b in Drain(s).queues <==> b in s.queues
    decreases |Waiting(s, CLOCK)|
  {
    if Waiting(s, CLOCK) != [] {
      var s1 := Unblock(s, CLOCK).(softblockCnt := s.softblockCnt - 1);
      assert Waiting(s1, CLOCK) == Waiting(s, CLOCK)[1..];
      DrainDescriptors(s1, b);
    }
  }

  // ---------------------------------------------------------------------- the descriptors

  // Which semaphores have a descriptor: a block makes one, a removal that finds the queue empty frees it, as a
  // tick does that of the clock, and a kill frees those of the queues that it empties.
  lemma NextDescriptors(s: State, e: Event, b: Address)
    requires Inv(s) && Possible(s, e)
    ensures b in Next(s, e).queues <==>
      || Blocks(s, e, b)
      || (b in s.queues && !(Signals(e, b) && Sem(s, b) < 0 && Waiting(s, b) == []) && !(e.ClockTick? && b == CLOCK)
          && (Waiting(s, b) != [] && !IsDeviceSem(b) ==> Avoiding(Waiting(s, b), Dying(s, e)) != []))
  {
    hide Placed, Counted, Balanced, Clocked, Rooted, Subtree, Avoiding, Drain, KillAll, Victims;
    StepDefined(s);
    AvoidingNone(Waiting(s, b), {});
    match e
    case Sys2 => TerminateWaiting(s, b);
    case Sys4(a) => SignalWaiting(s, a, b);
    case Interrupt(device) => SignalWaiting(s, SemOf(device), b);
    case ClockTick => ClockWaiting(s, b);
    case _ =>
  }

  // the semaphores whose descriptors a SYS2 frees: no device owns them and all who wait there die
  ghost function Emptied(s: State): set<Address>
    requires Rooted(s)
  {
    set a | a in s.queues && !IsDeviceSem(a) && s.queues[a] != [] && Avoiding(s.queues[a], Subtree(s, s.curr)) == []
  }

  lemma TerminateDescriptors(s: State)
    requires Inv(s) && s.curr != NIL
    ensures Rooted(s) && Live(s, s.curr)
    ensures Terminate(s).queues.Keys == s.queues.Keys - Emptied(s)
    ensures |Terminate(s).queues| == |s.queues| - |Emptied(s)|
    ensures forall a :: a in Emptied(s) <==>
      a in s.queues && !IsDeviceSem(a) && s.queues[a] != [] && forall p :: p in s.queues[a] ==> p in Subtree(s, s.curr)
  {
    hide Placed, Counted, Balanced, Clocked, Rooted, Subtree, Avoiding, KillAll, Victims;
    CurrentLives(s);
    var s', gone := Terminate(s), Subtree(s, s.curr);
    forall a: Address
      ensures a in s'.queues <==> a in s.queues && a !in Emptied(s)
    {
      TerminateWaiting(s, a);
    }
    assert s'.queues.Keys == s.queues.Keys - Emptied(s);
    assert |s'.queues.Keys| == |s'.queues| && |s.queues.Keys| == |s.queues|;
    forall a | a in s.queues
      ensures Avoiding(s.queues[a], gone) == [] <==> forall p :: p in s.queues[a] ==> p in gone
    {
      AllGone(s.queues[a], gone);
    }
  }

  lemma {:induction false} AllGone(q: seq<Ptr>, gone: set<Ptr>)
    ensures Avoiding(q, gone) == [] <==> forall p :: p in q ==> p in gone
  {
    if q != [] {
      AllGone(q[1..], gone);
      assert q == [q[0]] + q[1..];
      assert q[0] in q && forall p :: p in q <==> p == q[0] || p in q[1..];
    }
  }

  // -------------------------------------------------------------------------- the cells

  // The semaphores' values. The dead give back what they waited for, unless a device owns it.
  lemma NextCells(s: State, e: Event, b: Address)
    requires Inv(s) && Possible(s, e)
    ensures
      Sem(Next(s, e), b) ==
        if e.ClockTick? && b == CLOCK then 0
        else if e.Write? && e.a == b then e.value
        else if Takes(s, e, b) then Sem(s, b) - 1
        else if Signals(e, b) then Sem(s, b) + 1
        else if IsDeviceSem(b) then Sem(s, b)
        else Sem(s, b) + |Waiting(s, b)| - |Avoiding(Waiting(s, b), Dying(s, e))|
  {
    hide Placed, Counted, Balanced, Clocked, Rooted, Subtree, Avoiding, Drain, Inserted, Full, KillAll, Victims;
    StepDefined(s);
    AvoidingNone(Waiting(s, b), {});
    match e
    case Sys2 => TerminateWaiting(s, b);
    case Sys4(a) => SignalWaiting(s, a, b);
    case Interrupt(device) => SignalWaiting(s, SemOf(device), b);
    case ClockTick => ClockWaiting(s, b);
    case _ =>
  }

  // The soft-block count: up for who waits on a device or the clock, down for who is woken there.
  lemma NextSoftblocked(s: State, e: Event)
    requires Inv(s) && Possible(s, e)
    ensures
      Next(s, e).softblockCnt ==
        s.softblockCnt + (if e.Sys5? || e.Sys7? then 1 else 0)
          - (if e.Interrupt? || e.ClockTick? then |Joining(s, e)| else 0)
  {
    hide Placed, Counted, Balanced, Clocked, Rooted, Subtree, Avoiding, Drain, Inserted, Full, KillAll, Victims, Unblock;
    StepDefined(s);
    match e
    case Sys2 => KilledQueues(s);
    case Sys4(a) => SignalReady(s, a);
    case Interrupt(device) => SignalReady(s, SemOf(device)); HeadIsPcb(s, SemOf(device));
    case ClockTick => DrainKeeps(s);
    case _ =>
  }

  // ------------------------------------------------------------------------- the families

  // SYS1 takes the first free pcb and makes it the first child of the caller, born now. Without a free pcb it
  // changes nothing.
  lemma CreateExactly(s: State)
    requires Inv(s) && s.curr != NIL
    ensures s.free == [] ==> Next(s, Sys1) == s
    ensures s.free != [] ==>
      var s', p := Next(s, Sys1), s.free[0];
      && IsPcb(p) && IsPcb(s.curr) && !Live(s, p) && Live(s', p) && s.free == [p] + s'.free
      && s'.kids[s.curr] == [p] + s.kids[s.curr] && s'.kids[p] == [] && s'.parent[p] == s.curr
      && s'.birth[p] == s.clock && s'.clock == s.clock + 1 && s'.processCnt == s.processCnt + 1
      && forall q :: Live(s, q) ==>
           && Live(s', q) && s'.parent[q] == s.parent[q] && s'.birth[q] == s.birth[q] && s'.semAdd[q] == s.semAdd[q]
           && (q != s.curr ==> s'.kids[q] == s.kids[q])
  {
    hide Counted, Balanced, Clocked;
    StepDefined(s);
    if s.free != [] {
      TailDistinct(s.free);
    }
  }

  // Nothing else but SYS2, for which see KilledTree, touches the tree, the free list or the process count.
  lemma FamiliesStay(s: State, e: Event)
    requires Inv(s) && Possible(s, e) && !e.Sys1? && !e.Sys2?
    ensures
      var s' := Next(s, e);
      && s'.free == s.free && s'.parent == s.parent && s'.kids == s.kids && s'.birth == s.birth && s'.clock == s.clock
      && s'.processCnt == s.processCnt
  {
    hide Placed, Counted, Balanced, Clocked, Rooted, Drain, Inserted, Full;
    StepDefined(s);
    match e
    case Sys4(a) => StepDefinedAt(s, a);
    case Interrupt(device) => StepDefinedAt(s, SemOf(device));
    case ClockTick => DrainKeeps(s);
    case _ =>
  }

  // Who is queued records its semaphore, who is made ready records none, and everybody else who lives on
  // records what it did.
  lemma NextMarks(s: State, e: Event, p: Ptr)
    requires Inv(s) && Possible(s, e) && Live(s, p) && Live(Next(s, e), p)
    ensures
      Next(s, e).semAdd[p] ==
        if p == s.curr && Target(s, e) != NULL && !Full(s.queues, Target(s, e)) then Target(s, e)
        else if p in Joining(s, e) then NULL
        else s.semAdd[p]
  {
    hide Placed, Counted, Balanced, Clocked, Rooted, Subtree, Full, Create, Terminate, P, Verhogen, WaitFor,
        DeviceInterrupt, ClockInterrupt, Wakes;
    StepDefined(s);
    match e
    case Sys1 => CreateMarks(s, p);
    case Sys2 => TerminateMarks(s, p);
    case Sys3(a) => BlockMarks(s, a);
    case Sys4(a) => SignalMarks(s, a, p);
    case Sys5(device) => BlockMarks(s, SemOf(device));
    case Sys7 => BlockMarks(s, CLOCK);
    case Interrupt(device) => SignalMarks(s, SemOf(device), p); OneWoken(s, e, SemOf(device), p);
    case ClockTick => ClockMarks(s, p);
    case QuantumEnd => RunningUnmarked(s);
    case _ =>
  }

  lemma CreateMarks(s: State, p: Ptr)
    requires IsPcb(s.curr) && (s.free == [] || IsPcb(s.free[0])) && Live(s, p)
    ensures Create(s).semAdd[p] == s.semAdd[p] && (s.free == [] || p != s.free[0])
  {
  }

  lemma BlockMarks(s: State, a: Address)
    requires IsPcb(s.curr)
    ensures WaitFor(s, a).semAdd == if Full(s.queues, a) then s.semAdd else s.semAdd[s.curr := a]
    ensures P(s, a).semAdd == if Sem(s, a) >= 1 || Full(s.queues, a) then s.semAdd else s.semAdd[s.curr := a]
  {
  }

  lemma SignalMarks(s: State, a: Address, p: Ptr)
    requires Inv(s) && IsPcb(p)
    ensures Head(Waiting(s, a)) == NIL || IsPcb(Head(Waiting(s, a)))
    ensures
      var woken := Sem(s, a) < 0 && Waiting(s, a) != [] && Waiting(s, a)[0] == p;
      && Verhogen(s, a).semAdd[p] == (if woken then NULL else s.semAdd[p])
      && DeviceInterrupt(s, a).semAdd[p] == Verhogen(s, a).semAdd[p]
      && (p in Joining(s, Sys4(a)) <==> woken)
  {
    hide Counted, Balanced, Clocked, Rooted;
    HeadIsPcb(s, a);
  }

  lemma OneWoken(s: State, e: Event, a: Address, p: Ptr)
    requires e.Interrupt? && e.device.Exists() && SemOf(e.device) == a
    ensures Joining(s, e) == Joining(s, Sys4(a))
  {
  }

  lemma ClockMarks(s: State, p: Ptr)
    requires Inv(s) && IsPcb(p)
    ensures ArePcbs(Waiting(s, CLOCK))
    ensures ClockInterrupt(s).semAdd[p] == if p in Waiting(s, CLOCK) then NULL else s.semAdd[p]
  {
    hide Placed, Counted, Balanced, Clocked, Rooted, Drain;
    DrainKeeps(s);
    DrainMarks(s, p);
  }

  lemma RunningUnmarked(s: State)
    requires Inv(s) && s.curr != NIL
    ensures s.semAdd[s.curr] == NULL
  {
    hide Counted, Balanced, Clocked, Rooted;
  }

  lemma TerminateMarks(s: State, p: Ptr)
    requires Inv(s) && s.curr != NIL
    ensures Rooted(s) && Live(s, s.curr)
    ensures Live(s, p) && Live(Terminate(s), p) ==> Terminate(s).semAdd[p] == s.semAdd[p]
  {
    hide Placed, Counted, Balanced, Clocked, Rooted, Subtree, Avoiding, KillAll, Victims;
    KilledQueues(s);
    KilledTree(s);
    assert Live(Terminate(s), p) <==> Live(Killed(s), p);
    assert Killed(s).(curr := NIL).semAdd == Terminate(s).semAdd;
  }

  lemma {:induction false} DrainMarks(s: State, p: Ptr)
    requires ArePcbs(Waiting(s, CLOCK)) && IsPcb(p)
    ensures Drain(s).semAdd[p] == if p in Waiting(s, CLOCK) then NULL else s.semAdd[p]
    decreases |Waiting(s, CLOCK)|
  {
    if Waiting(s, CLOCK) != [] {
      var s1 := Unblock(s, CLOCK).(softblockCnt := s.softblockCnt - 1);
      DrainMarks(s1, p);
      assert Waiting(s, CLOCK) == [Waiting(s, CLOCK)[0]] + Waiting(s1, CLOCK);
    }
  }
}
