// What P and V guarantee over whole runs: a semaphore's tokens are conserved, so one that starts
// at 1 and is used in brackets never has two holders (phase2/exceptions.c:235-265, 394-401, 461-507).
module NucleusSemaphores {
  import opened Constants
  import opened Queues
  import opened Pcbs
  import opened ActiveSemaphores
  import opened NucleusState
  import opened NucleusInvariant
  import opened NucleusBlocking
  import opened ProcessTree
  import opened NucleusKill
  import opened NucleusRuns
  import opened Semaphores

  function Tokens(s: State, a: Address): nat {
    if Sem(s, a) > 0 then Sem(s, a) else 0
  }

  // Who has passed P on a and not yet done V: a P that goes through and a V that wakes a waiter
  // each make a holder, and a V ends the caller's hold.
  function HoldersAfter(s: State, e: Event, a: Address, holders: multiset<Ptr>): multiset<Ptr> {
    if e == Sys3(a) && Sem(s, a) >= 1 then holders + multiset{s.curr}
    else if e == Sys4(a) then
      holders - multiset{s.curr} + (if Woken(s, a) == NIL then multiset{} else multiset{Woken(s, a)})
    else holders
  }

  // V only by a holder, and nobody overwrites the semaphore.
  predicate Bracketed(s: State, e: Event, a: Address, holders: multiset<Ptr>) {
    (e == Sys4(a) ==> s.curr in holders) && !(e.Write? && e.a == a)
  }

  lemma TokenConserved(s: State, e: Event, a: Address, holders: multiset<Ptr>)
    requires Inv(s) && Possible(s, e) && Disciplined(s, e) && HasRoom(s, e) && !IsDeviceSem(a)
    requires Bracketed(s, e, a, holders)
    ensures Tokens(Next(s, e), a) + |HoldersAfter(s, e, a, holders)| == Tokens(s, a) + |holders|
  {
    hide Inv, Terminate, Create, P, Verhogen, WaitFor, DeviceInterrupt, ClockInterrupt, Preempt, Tokens;
    StepDefined(s);
    match e
    case Sys1 => CreateCells(s); TokensSame(s, Create(s), a);
    case Sys2 => TerminateTokens(s, a);
    case Sys3(b) => PTokens(s, a, b);
    case Sys4(b) => VTokens(s, a, b);
    case Sys5(device) => WaitTokens(s, a, SemOf(device));
    case Sys7 => WaitTokens(s, a, CLOCK);
    case Interrupt(device) => InterruptTokens(s, a, SemOf(device));
    case ClockTick => ClockTokens(s, a);
    case QuantumEnd => PreemptCells(s); TokensSame(s, Preempt(s), a);
    case Write(b, value) => TokensSame(s, Next(s, e), a);
  }

  lemma TokensSame(s: State, s': State, a: Address)
    requires Sem(s', a) == Sem(s, a)
    ensures Tokens(s', a) == Tokens(s, a)
  {
  }

  lemma PTokens(s: State, a: Address, b: Address)
    requires IsPcb(s.curr)
    ensures b != a ==> Tokens(P(s, b), a) == Tokens(s, a)
    ensures b == a ==> Tokens(P(s, b), a) + (if Sem(s, a) >= 1 then 1 else 0) == Tokens(s, a)
  {
    hide Full, Inserted;
  }

  lemma WaitTokens(s: State, a: Address, b: Address)
    requires IsPcb(s.curr) && a != b
    ensures Tokens(WaitFor(s, b), a) == Tokens(s, a)
  {
    hide Full, Inserted;
  }

  lemma InterruptTokens(s: State, a: Address, b: Address)
    requires Inv(s) && a != b
    ensures Head(Waiting(s, b)) == NIL || IsPcb(Head(Waiting(s, b)))
    ensures Tokens(DeviceInterrupt(s, b), a) == Tokens(s, a)
  {
    hide Inv, Unblock;
    StepDefinedAt(s, b);
    UnblockCells(s.(mem := s.mem[b := Sem(s, b) + 1]), b);
  }

  lemma ClockTokens(s: State, a: Address)
    requires Inv(s) && a != CLOCK
    ensures ArePcbs(Waiting(s, CLOCK)) && Tokens(ClockInterrupt(s), a) == Tokens(s, a)
  {
    hide Inv, ClockInterrupt;
    StepDefinedAt(s, CLOCK);
    ClockCells(s);
  }

  lemma PreemptCells(s: State)
    ensures Preempt(s).mem == s.mem
  {
  }

  lemma CreateCells(s: State)
    requires IsPcb(s.curr) && (s.free == [] || IsPcb(s.free[0]))
    ensures Create(s).mem == s.mem
  {
  }

  lemma UnblockCells(s: State, a: Address)
    requires Head(Waiting(s, a)) == NIL || IsPcb(Head(Waiting(s, a)))
    ensures Unblock(s, a).mem == s.mem && Unblock(s, a).curr == s.curr
  {
  }

  lemma ClockCells(s: State)
    requires Inv(s) && ArePcbs(Waiting(s, CLOCK))
    ensures ClockInterrupt(s).mem == s.mem[CLOCK := 0]
  {
    hide Placed, Counted, Balanced, Clocked, Rooted, Drain;
    DrainKeeps(s);
  }

  lemma VTokens(s: State, a: Address, b: Address)
    requires Inv(s) && !IsDeviceSem(a)
    ensures Head(Waiting(s, b)) == NIL || IsPcb(Head(Waiting(s, b)))
    ensures b != a ==> Tokens(Verhogen(s, b), a) == Tokens(s, a)
    ensures b == a ==> Tokens(Verhogen(s, b), a) + (if Woken(s, a) == NIL then 0 else 1) == Tokens(s, a) + 1
  {
    hide Counted, Clocked, Rooted, Unblock;
    StepDefinedAt(s, b);
    HeadIsPcb(s, b);
    UnblockCells(s.(mem := s.mem[b := Sem(s, b) + 1]), b);
    assert |Waiting(s, a)| == if Sem(s, a) < 0 then -Sem(s, a) else 0;
  }

  lemma TerminateTokens(s: State, a: Address)
    requires Inv(s) && s.curr != NIL && !IsDeviceSem(a)
    ensures Live(s, s.curr) && Tokens(Terminate(s), a) == Tokens(s, a)
  {
    hide Placed, Counted, Clocked, Rooted, Victims, KillAll;
    KilledQueues(s);
    var s' := Killed(s).(curr := NIL);
    assert Sem(s', a) + |Waiting(s', a)| == Sem(s, a) + |Waiting(s, a)|;
    assert Sem(Terminate(s), a) == Sem(s', a);
  }

  ghost predicate BracketedRun(s: State, es: seq<Event>, a: Address, holders: multiset<Ptr>)
    requires Inv(s) && IsRun(s, es)
    decreases |es|
  {
    es != [] ==>
      Bracketed(s, es[0], a, holders) &&
      (NextKeeps(s, es[0]); BracketedRun(Next(s, es[0]), es[1..], a, HoldersAfter(s, es[0], a, holders)))
  }

  ghost function Holders(s: State, es: seq<Event>, a: Address, holders: multiset<Ptr>): multiset<Ptr>
    requires Inv(s) && IsRun(s, es)
    decreases |es|
  {
    if es == [] then holders
    else (NextKeeps(s, es[0]); Holders(Next(s, es[0]), es[1..], a, HoldersAfter(s, es[0], a, holders)))
  }

  lemma {:induction false} TokensConserved(s: State, es: seq<Event>, a: Address, holders: multiset<Ptr>)
    requires Inv(s) && IsRun(s, es) && !IsDeviceSem(a) && BracketedRun(s, es, a, holders)
    ensures Tokens(After(s, es), a) + |Holders(s, es, a, holders)| == Tokens(s, a) + |holders|
    decreases |es|
  {
    hide Inv, Next, Disciplined, HasRoom, Possible, Bracketed, HoldersAfter, Tokens;
    if es != [] {
      NextKeeps(s, es[0]);
      TokenConserved(s, es[0], a, holders);
      TokensConserved(Next(s, es[0]), es[1..], a, HoldersAfter(s, es[0], a, holders));
    }
  }

  // Mutual exclusion, with processes preempted, woken and killed in between in any order.
  lemma MutualExclusion(s: State, es: seq<Event>, a: Address)
    requires Inv(s) && IsRun(s, es) && !IsDeviceSem(a) && Sem(s, a) == 1 && BracketedRun(s, es, a, multiset{})
    ensures |Holders(s, es, a, multiset{})| <= 1
    ensures |Holders(s, es, a, multiset{})| == 1 <==> Sem(After(s, es), a) <= 0
  {
    hide Inv, IsRun, After, Holders, BracketedRun;
    TokensConserved(s, es, a, multiset{});
  }

  // As many processes queue on a semaphore as it is negative, in every state of a run.
  lemma WaitersCounted(s: State, es: seq<Event>, a: Address)
    requires Inv(s) && Settled(s) && IsRun(s, es) && !IsDeviceSem(a)
    ensures
      var s' := After(s, es);
      |Waiting(s', a)| == if Sem(s', a) < 0 then -Sem(s', a) else 0
  {
    hide Placed, Counted, Clocked, Rooted, IsRun, After;
    RunKeeps(s, es);
  }

  // What P and V do to one semaphore, as its users see it: a value and a queue. The V of a process wakes
  // the one that has waited longest, exactly when somebody waits.
  lemma UsersView(s: State, a: Address)
    requires Inv(s) && s.curr != NIL && !IsDeviceSem(a) && a < MAXINT && !Full(s.queues, a)
    ensures IsPcb(s.curr) && (Head(Waiting(s, a)) == NIL || IsPcb(Head(Waiting(s, a))))
    ensures Sem(P(s, a), a) == Sem(s, a) - 1 && Sem(Verhogen(s, a), a) == Sem(s, a) + 1
    ensures if Sem(s, a) >= 1 then P(s, a).curr == s.curr && P(s, a).ready == s.ready
            else P(s, a).curr == Head(s.ready) && P(s, a).ready == Tail(s.ready)
    ensures Waiting(P(s, a), a) == if Sem(s, a) >= 1 then [] else Waiting(s, a) + [s.curr]
    ensures Waiting(Verhogen(s, a), a) == Tail(Waiting(s, a))
    ensures Verhogen(s, a).curr == s.curr && (Waiting(s, a) != [] <==> Sem(s, a) < 0)
    ensures Waiting(s, a) != [] ==>
      Woken(s, a) == Waiting(s, a)[0] && Verhogen(s, a).ready == s.ready + [Waiting(s, a)[0]]
    ensures Waiting(s, a) == [] ==> Woken(s, a) == NIL && Verhogen(s, a).ready == s.ready
    ensures forall b :: b != a ==> Waiting(P(s, a), b) == Waiting(s, b) && Sem(P(s, a), b) == Sem(s, b)
    ensures forall b :: b != a ==> Waiting(Verhogen(s, a), b) == Waiting(s, b) && Sem(Verhogen(s, a), b) == Sem(s, b)
  {
    hide Placed, Counted, Clocked, Rooted, Full;
    StepDefined(s);
    StepDefinedAt(s, a);
    NotFull(s, a);
    assert |Waiting(s, a)| == if Sem(s, a) < 0 then -Sem(s, a) else 0;
    MemoryIrrelevant(s, s.mem[a := Sem(s, a) + 1]);
    UnblockWaiting(s.(mem := s.mem[a := Sem(s, a) + 1]), a);
  }

  function SemView(s: State, a: Address): View {
    View(Sem(s, a), Waiting(s, a))
  }

  // So they are the P and V of a semaphore that is first come, first served.
  lemma PAndVInOrder(s: State, a: Address)
    requires Inv(s) && s.curr != NIL && !IsDeviceSem(a) && a < MAXINT && !Full(s.queues, a)
    ensures IsPcb(s.curr) && (Head(Waiting(s, a)) == NIL || IsPcb(Head(Waiting(s, a))))
    ensures SemView(P(s, a), a) == Down(SemView(s, a), s.curr)
    ensures SemView(Verhogen(s, a), a) == Up(SemView(s, a))
  {
    hide Inv, Full, P, Verhogen;
    UsersView(s, a);
    NoWaiters(s, a);
  }

  lemma NoWaiters(s: State, a: Address)
    requires Inv(s) && !IsDeviceSem(a)
    ensures Waiting(s, a) != [] <==> Sem(s, a) < 0
  {
    hide Placed, Counted, Clocked, Rooted;
    assert |Waiting(s, a)| == if Sem(s, a) < 0 then -Sem(s, a) else 0;
  }

  // ----------------------------------------------------------- counting P's against V's

  // the P's on a that the event completes: one that goes through, or one whose caller a V wakes
  function Passes(s: State, e: Event, a: Address): nat {
    if (e == Sys3(a) && Sem(s, a) >= 1) || (e == Sys4(a) && Woken(s, a) != NIL) then 1 else 0
  }

  lemma NextPasses(s: State, e: Event, a: Address)
    requires Inv(s) && Possible(s, e) && Disciplined(s, e) && HasRoom(s, e) && !IsDeviceSem(a)
    requires !(e.Write? && e.a == a)
    ensures Tokens(Next(s, e), a) + Passes(s, e, a) == Tokens(s, a) + if e == Sys4(a) then 1 else 0
  {
    hide Inv, Next, Tokens;
    var holders := if e == Sys4(a) then multiset{s.curr} else multiset{};
    TokenConserved(s, e, a, holders);
  }

  ghost predicate Unwritten(es: seq<Event>, a: Address) {
    forall i :: 0 <= i < |es| ==> !(es[i].Write? && es[i].a == a)
  }

  ghost function AllPasses(s: State, es: seq<Event>, a: Address): nat
    requires Inv(s) && IsRun(s, es)
    decreases |es|
  {
    if es == [] then 0 else Passes(s, es[0], a) + (NextKeeps(s, es[0]); AllPasses(Next(s, es[0]), es[1..], a))
  }

  function Signals(es: seq<Event>, a: Address): nat {
    if es == [] then 0 else (if es[0] == Sys4(a) then 1 else 0) + Signals(es[1..], a)
  }

  lemma {:induction false} PassesAndSignals(s: State, es: seq<Event>, a: Address)
    requires Inv(s) && IsRun(s, es) && !IsDeviceSem(a) && Unwritten(es, a)
    ensures Tokens(After(s, es), a) + AllPasses(s, es, a) == Tokens(s, a) + Signals(es, a)
    decreases |es|
  {
    hide Inv, Next, Disciplined, HasRoom, Possible, Passes, Tokens;
    if es != [] {
      NextKeeps(s, es[0]);
      NextPasses(s, es[0], a);
      PassesAndSignals(Next(s, es[0]), es[1..], a);
    }
  }
}
