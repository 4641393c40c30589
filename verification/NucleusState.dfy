// The nucleus as a state machine: what each system call, interrupt and scheduler pass does to
// the process queues, the process tree, the semaphores and the counters
// (phase2/exceptions.c, phase2/interrupts.c, phase2/scheduler.c, phase2/initial.c).
module NucleusState {
  import opened Constants
  import opened Queues
  import opened Pcbs
  import opened ActiveSemaphores

  // The address of device_sem[0]; where the linker puts the array does not matter.
  const DEVICE_SEM: Address := 0x2000_8000

  function DeviceSem(i: nat): Address
    requires i < DEVSEMNO
  {
    DEVICE_SEM + WORDLEN * i
  }

  predicate IsDeviceSem(a: Address) {
    DEVICE_SEM <= a <= DEVICE_SEM + WORDLEN * (DEVSEMNO - 1)
  }

  const CLOCK: Address := DeviceSem(PSEUDOCLK)

  // The device lines are 3 to 7; the terminals of line 7 have a transmitter and a receiver each.
  datatype Device = Device(line: nat, number: nat, receiver: nat) {
    predicate Exists() {
      3 <= line <= TERMINT && number < DEVPERINT && receiver < SUBDEVPERTERM
    }

    // the semaphore SYS5 waits on and the device's interrupt signals
    function Index(): nat
      requires Exists()
    {
      if line != TERMINT then (line - 3) * DEVPERINT + number
      else (line - 3) * DEVPERINT + number * SUBDEVPERTERM + receiver
    }
  }

  // free, ready, queues: the pcb free list, the ready queue and the ASL, heads first.
  // semAdd, parent, kids, birth: one entry a pcb. birth and clock are history, not part of the
  // kernel's memory: the time at which a pcb was last allocated.
  // mem: the integers of memory that have been written; the others are 0, as static memory is.
  datatype Memory = Memory(free: seq<Ptr>, ready: seq<Ptr>, curr: Ptr, queues: WaitMap, semAdd: seq<Address>,
                           parent: seq<Ptr>, kids: seq<seq<Ptr>>, birth: seq<nat>, clock: nat,
                           mem: map<Address, int>, processCnt: int, softblockCnt: int)

  predicate Shaped(s: Memory) {
    |s.semAdd| == |s.parent| == |s.kids| == |s.birth| == MAXPROC
  }

  type State = s: Memory | Shaped(s)
    witness Memory([], [], NIL, map[], seq(MAXPROC, i => 0), seq(MAXPROC, i => NIL), seq(MAXPROC, i => []),
                   seq(MAXPROC, i => 0), 0, map[], 0, 0)

  function Cell(mem: map<Address, int>, a: Address): int {
    if a in mem then mem[a] else 0
  }

  function Sem(s: State, a: Address): int {
    Cell(s.mem, a)
  }

  function Waiting(s: State, a: Address): seq<Ptr> {
    QueueAt(s.queues, a)
  }

  predicate Live(s: State, p: Ptr) {
    IsPcb(p) && p !in s.free
  }

  predicate Blocked(s: State, p: Ptr)
    requires IsPcb(p)
  {
    p in Waiting(s, s.semAdd[p])
  }

  // ------------------------------------------------------------------- operations

  // the first n device semaphores set to 0
  function DeviceCells(n: nat): (mem: map<Address, int>)
    requires n <= DEVSEMNO
    ensures forall a :: a in mem ==> mem[a] == 0
  {
    if n == 0 then map[] else DeviceCells(n - 1)[DeviceSem(n - 1) := 0]
  }

  // One process, pcb 0, is ready.
  function Booted(): State {
    Memory(seq(MAXPROC - 1, i => i + 1), [0], NIL, map[], seq(MAXPROC, i => 0)[0 := NULL], seq(MAXPROC, i => NIL),
           seq(MAXPROC, i => []), seq(MAXPROC, i => 0), 1, DeviceCells(DEVSEMNO), 1, 0)
  }

  function Schedule(s: State): State {
    s.(curr := Head(s.ready), ready := Tail(s.ready))
  }

  datatype Verdict = Dispatch | Halt | Wait | Panic

  // what the scheduler does once it has taken the head of the ready queue
  function Decision(s: State): Verdict {
    if s.curr != NIL then Dispatch
    else if s.processCnt == 0 then Halt
    else if s.softblockCnt > 0 then Wait
    else Panic
  }

  // SYS1; the caller sees failure when no pcb is free
  function Create(s: State): State
    requires IsPcb(s.curr) && (s.free == [] || IsPcb(s.free[0]))
  {
    if s.free == [] then s
    else
      var p := s.free[0];
      s.(free := s.free[1..], ready := s.ready + [p], semAdd := s.semAdd[p := NULL],
         parent := s.parent[p := s.curr], kids := s.kids[p := []][s.curr := [p] + s.kids[s.curr]],
         birth := s.birth[p := s.clock], clock := s.clock + 1, processCnt := s.processCnt + 1)
  }

  // The process that cannot be queued, because no descriptor is free, is silently lost.
  function Passeren(s: State, a: Address): State
    requires IsPcb(s.curr)
  {
    s.(mem := s.mem[a := Sem(s, a) - 1], queues := Inserted(s.queues, a, s.curr),
       semAdd := if Full(s.queues, a) then s.semAdd else s.semAdd[s.curr := a])
  }

  // the process that V takes off the queue of a, or NIL
  function Woken(s: State, a: Address): Ptr {
    if Sem(s, a) + 1 <= 0 then Head(Waiting(s, a)) else NIL
  }

  function Unblock(s: State, a: Address): State
    requires Head(Waiting(s, a)) == NIL || IsPcb(Head(Waiting(s, a)))
  {
    var p := Head(Waiting(s, a));
    s.(queues := Removed(s.queues, a), semAdd := Marked(s.semAdd, p, NULL),
       ready := if p == NIL then s.ready else s.ready + [p])
  }

  function Verhogen(s: State, a: Address): State
    requires Head(Waiting(s, a)) == NIL || IsPcb(Head(Waiting(s, a)))
  {
    var s' := s.(mem := s.mem[a := Sem(s, a) + 1]);
    if Sem(s, a) + 1 <= 0 then Unblock(s', a) else s'
  }

  // SYS3
  function P(s: State, a: Address): State
    requires IsPcb(s.curr)
  {
    if Sem(s, a) - 1 >= 0 then s.(mem := s.mem[a := Sem(s, a) - 1]) else Schedule(Passeren(s, a))
  }

  // SYS5 and SYS7
  function WaitFor(s: State, a: Address): State
    requires IsPcb(s.curr)
  {
    Schedule(Passeren(s, a).(softblockCnt := s.softblockCnt + 1))
  }

  // An interrupted process goes on; otherwise the scheduler is called.
  function Resume(s: State): State {
    if s.curr != NIL then s else Schedule(s)
  }

  function DeviceInterrupt(s: State, a: Address): State
    requires Head(Waiting(s, a)) == NIL || IsPcb(Head(Waiting(s, a)))
  {
    var s' := Verhogen(s, a);
    Resume(if Woken(s, a) == NIL then s' else s'.(softblockCnt := s.softblockCnt - 1))
  }

  // Every process waiting on the pseudo-clock becomes ready, in order; the last, failing,
  // removal frees the clock's descriptor.
  function Drain(s: State): State
    requires forall i :: 0 <= i < |Waiting(s, CLOCK)| ==> IsPcb(Waiting(s, CLOCK)[i])
    decreases |Waiting(s, CLOCK)|
  {
    if Waiting(s, CLOCK) == [] then Unblock(s, CLOCK)
    else Drain(Unblock(s, CLOCK).(softblockCnt := s.softblockCnt - 1))
  }

  function ClockInterrupt(s: State): State
    requires forall i :: 0 <= i < |Waiting(s, CLOCK)| ==> IsPcb(Waiting(s, CLOCK)[i])
  {
    var s' := Drain(s);
    Resume(s'.(mem := s'.mem[CLOCK := 0]))
  }

  // the end of the running process's time slice
  function Preempt(s: State): State {
    Schedule(s.(ready := s.ready + [s.curr]))
  }

  // Leaving the ready queue, or the queue of a semaphore that no device owns.
  function Withdraw(s: State, p: Ptr): State
    requires IsPcb(p)
  {
    var a := s.semAdd[p];
    if a == NULL then s.(ready := Without(s.ready, p))
    else if IsDeviceSem(a) then s
    else s.(mem := s.mem[a := Sem(s, a) + 1], queues := Left(s.queues, a, p),
            semAdd := if p in Waiting(s, a) then s.semAdd[p := NULL] else s.semAdd)
  }

  function Orphan(s: State, p: Ptr): State
    requires IsPcb(p)
  {
    var q := s.parent[p];
    if IsPcb(q) then s.(kids := s.kids[q := Without(s.kids[q], p)]) else s
  }

  function Kill(s: State, p: Ptr): State
    requires IsPcb(p)
  {
    var s' := Orphan(Withdraw(s, p), p);
    s'.(free := [p] + s'.free, processCnt := s'.processCnt - 1)
  }

  function KillAll(s: State, victims: seq<Ptr>): State
    requires ArePcbs(victims)
    decreases |victims|
  {
    if victims == [] then s else KillAll(Kill(s, victims[0]), victims[1..])
  }
}
