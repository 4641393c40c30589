// The delay facility as a protocol: user processes that call SYS18, and the daemon, over the ADL,
// its mutual exclusion semaphore and the private semaphores, with time passing at any moment
// (phase5/delayDaemon.c:146-178, 200-239).
module DelayProtocol {
  import opened Constants
  import opened Queues
  import opened DelayLists

  const DAEMON: int := 0

  predicate IsUproc(a: int) {
    1 <= a <= UPROCMAX
  }

  predicate IsParty(a: int) {
    0 <= a <= UPROCMAX
  }

  // Where a user process stands in SYS18, and the daemon in its loop. deadline: the time of the call
  // plus the seconds asked for; it is history, not part of the kernel's memory.
  datatype Stage =
    | Awake
    | Asking(secs: int, deadline: int) | Queued(secs: int, deadline: int) | Entered(secs: int, deadline: int)
    | Listed(deadline: int) | Asleep(deadline: int)
    | Terminated
    | Resting | Rising | Standing | Scanning(i: nat)

  // delays and wakeups count the P's that blocked on each private semaphore and the daemon's V's on it.
  datatype Memory = Memory(now: int, adl: seq<Entry>, free: int, sem: int, waiting: seq<int>, stage: seq<Stage>,
                           privateSem: seq<int>, delays: seq<nat>, wakeups: seq<nat>)

  predicate Shaped(s: Memory) {
    |s.stage| == |s.privateSem| == |s.delays| == |s.wakeups| == UPROCMAX + 1
  }

  type State = s: Memory | Shaped(s) witness Initial(0)

  function Initial(now: int): Memory {
    Memory(now, [], UPROCMAX, 1, [], seq(UPROCMAX + 1, i => if i == DAEMON then Resting else Awake),
           seq(UPROCMAX + 1, i => 0), seq(UPROCMAX + 1, i => 0), seq(UPROCMAX + 1, i => 0))
  }

  // Elapse: time passes. Call: SYS18. Enter: P on the semaphore. Enroll: the descriptor goes on the
  // list. Sleep: V on the semaphore and P on the private semaphore, in one. Tick: the daemon's SYS7
  // returns. Inspect: the daemon looks at the next descriptor, or finds the tail and does its V.
  datatype Event =
    | Elapse(time: nat) | Call(a: int, secs: int) | Enter(a: int) | Enroll(a: int) | Sleep(a: int) | Tick | Inspect

  predicate Enabled(s: State, e: Event) {
    match e
    case Elapse(time) => true
    case Call(a, secs) => IsUproc(a) && s.stage[a].Awake?
    case Enter(a) => IsParty(a) && (s.stage[a].Asking? || s.stage[a].Rising?)
    case Enroll(a) => IsUproc(a) && s.stage[a].Entered?
    case Sleep(a) => IsUproc(a) && s.stage[a].Listed?
    case Tick => s.stage[DAEMON].Resting?
    case Inspect => s.stage[DAEMON].Scanning?
  }

  // The time asked for fits into the word below the tail sentinel's value.
  predicate Fits(s: State, e: Event) {
    e.Enroll? && Enabled(s, e) ==> s.now + s.stage[e.a].secs * MILLION < DUMMYTAILVAL
  }

  function SetStage(s: State, a: int, x: Stage): State
    requires IsParty(a)
  {
    s.(stage := s.stage[a := x])
  }

  // what becomes of a process that gets past the P
  function Past(x: Stage): Stage {
    match x
    case Asking(secs, deadline) => Entered(secs, deadline)
    case Queued(secs, deadline) => Entered(secs, deadline)
    case Rising => Scanning(0)
    case Standing => Scanning(0)
    case _ => x
  }

  function DoEnter(s: State, a: int): State
    requires IsParty(a)
  {
    var s' := s.(sem := s.sem - 1);
    if s.sem - 1 >= 0 then SetStage(s', a, Past(s.stage[a]))
    else
      var blocked := if s.stage[a].Asking? then Queued(s.stage[a].secs, s.stage[a].deadline) else Standing;
      SetStage(s', a, blocked).(waiting := s.waiting + [a])
  }

  // V on the semaphore of the list: who is first in its queue goes past its P.
  function Leave(s: State): State
    requires s.waiting != [] ==> IsParty(s.waiting[0])
  {
    var s' := s.(sem := s.sem + 1);
    if s.sem + 1 <= 0 && s.waiting != [] then
      SetStage(s', s.waiting[0], Past(s.stage[s.waiting[0]])).(waiting := s.waiting[1..])
    else s'
  }

  function DoEnroll(s: State, a: int): State
    requires IsUproc(a) && s.stage[a].Entered?
    requires s.waiting != [] ==> IsParty(s.waiting[0])
    requires s.free > 0 ==> Position(s.adl, WakeTime(s.now, s.stage[a].secs)) <= |s.adl|
  {
    if s.free <= 0 then Leave(SetStage(s, a, Terminated))
    else
      var wake := WakeTime(s.now, s.stage[a].secs);
      var k := Position(s.adl, wake);
      SetStage(s, a, Listed(s.stage[a].deadline)).(adl := s.adl[..k] + [Entry(wake, a)] + s.adl[k..], free := s.free - 1)
  }

  function DoSleep(s: State, a: int): State
    requires IsUproc(a) && s.stage[a].Listed?
    requires s.waiting != [] ==> IsParty(s.waiting[0])
  {
    var s' := s.(privateSem := s.privateSem[a := s.privateSem[a] - 1]);
    Leave(if s.privateSem[a] - 1 >= 0 then SetStage(s', a, Awake)
          else SetStage(s', a, Asleep(s.stage[a].deadline)).(delays := s'.delays[a := s'.delays[a] + 1]))
  }

  function DoInspect(s: State): State
    requires s.stage[DAEMON].Scanning? && s.stage[DAEMON].i <= |s.adl|
    requires s.waiting != [] ==> IsParty(s.waiting[0])
    requires forall i :: 0 <= i < |s.adl| ==> IsUproc(s.adl[i].asid)
  {
    var i := s.stage[DAEMON].i;
    if i == |s.adl| || s.adl[i].wake == DUMMYTAILVAL then Leave(SetStage(s, DAEMON, Resting))
    else if s.now >= s.adl[i].wake then
      var a := s.adl[i].asid;
      assert IsUproc(a);
      var s' := if s.privateSem[a] + 1 <= 0 then SetStage(s, a, Awake) else s;
      s'.(privateSem := s.privateSem[a := s.privateSem[a] + 1], wakeups := s.wakeups[a := s.wakeups[a] + 1],
          adl := Cut(s.adl, i), free := s.free + 1)
    else SetStage(s, DAEMON, Scanning(i + 1))
  }
}
