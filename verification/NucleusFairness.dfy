// Round robin: who stands at position k of the ready queue runs after at most k + 1 scheduler
// passes, unless it is killed, because everybody else queues up behind it (phase2/scheduler.c:56).
module NucleusFairness {
  import opened Constants
  import opened Queues
  import opened Pcbs
  import opened ActiveSemaphores
  import opened NucleusState
  import opened NucleusInvariant
  import opened NucleusBlocking
  import opened ProcessTree
  import opened NucleusKill
  import opened NucleusRuns

  // the event ends in a call of the scheduler
  predicate Dispatches(s: State, e: Event) {
    match e
    case Sys2 | Sys5(_) | Sys7 | QuantumEnd => true
    case Sys3(a) => Sem(s, a) < 1
    case Interrupt(_) => s.curr == NIL
    case ClockTick => s.curr == NIL
    case _ => false
  }

  // p runs, is dead, or is ready at position k at the latest
  ghost predicate Advanced(s: State, p: Ptr, k: int) {
    s.curr == p || !Live(s, p) || exists j :: 0 <= j < |s.ready| && j <= k && s.ready[j] == p
  }

  lemma ScheduleAdvances(s: State, p: Ptr, k: nat, q: seq<Ptr>)
    requires p != NIL && k < |q| && q[k] == p && q <= s.ready
    ensures Advanced(Schedule(s), p, k - 1)
  {
    if k > 0 {
      assert Schedule(s).ready[k - 1] == p;
    }
  }

  lemma StillReady(s: State, p: Ptr, k: nat, q: seq<Ptr>)
    requires k < |q| && q[k] == p && q <= s.ready
    ensures Advanced(s, p, k)
  {
    assert s.ready[k] == p;
  }

  lemma ResumeAdvances(s: State, p: Ptr, k: nat, q: seq<Ptr>)
    requires p != NIL && k < |q| && q[k] == p && q <= s.ready
    ensures Advanced(Resume(s), p, if s.curr == NIL then k - 1 else k)
  {
    hide Advanced;
    if s.curr == NIL {
      ScheduleAdvances(s, p, k, q);
    } else {
      StillReady(s, p, k, q);
    }
  }

  lemma ReadyIsPcb(s: State, p: Ptr, k: nat)
    requires Inv(s) && k < |s.ready| && s.ready[k] == p
    ensures IsPcb(p)
  {
  }

  lemma CreateAppends(s: State)
    requires IsPcb(s.curr) && (s.free == [] || IsPcb(s.free[0]))
    ensures s.ready <= Create(s).ready
  {
  }

  lemma UnblockAppends(s: State, a: Address)
    requires Head(Waiting(s, a)) == NIL || IsPcb(Head(Waiting(s, a)))
    ensures s.ready <= Unblock(s, a).ready && Unblock(s, a).curr == s.curr
  {
  }

  lemma InterruptAdvances(s: State, a: Address, p: Ptr, k: nat)
    requires Head(Waiting(s, a)) == NIL || IsPcb(Head(Waiting(s, a)))
    requires k < |s.ready| && s.ready[k] == p && p != NIL
    ensures Advanced(DeviceInterrupt(s, a), p, if s.curr == NIL then k - 1 else k)
  {
    hide Advanced, Unblock;
    UnblockAppends(s.(mem := s.mem[a := Sem(s, a) + 1]), a);
    var s' := Verhogen(s, a);
    var s2 := if Woken(s, a) == NIL then s' else s'.(softblockCnt := s.softblockCnt - 1);
    ResumeAdvances(s2, p, k, s.ready);
  }

  lemma ClockAdvances(s: State, p: Ptr, k: nat)
    requires Inv(s) && k < |s.ready| && s.ready[k] == p && p != NIL
    ensures ArePcbs(Waiting(s, CLOCK)) && Advanced(ClockInterrupt(s), p, if s.curr == NIL then k - 1 else k)
  {
    hide Placed, Counted, Balanced, Clocked, Rooted, Drain, Advanced;
    DrainKeeps(s);
    var s1 := Drain(s);
    ResumeAdvances(s1.(mem := s1.mem[CLOCK := 0]), p, k, s.ready);
  }

  // The kill of others only moves p towards the head.
  lemma TerminateAdvances(s: State, p: Ptr, k: nat)
    requires Inv(s) && s.curr != NIL && k < |s.ready| && s.ready[k] == p && IsPcb(p)
    ensures Live(s, s.curr) && Advanced(Terminate(s), p, k - 1)
  {
    hide Counted, Balanced, Clocked, Rooted, Descends, Victims, KillAll;
    KilledTree(s);
    KilledQueues(s);
    var s' := Killed(s);
    if p in Subtree(s, s.curr) {
      assert !Live(s', p);
    } else {
      var j := AvoidingIndex(s.ready, Subtree(s, s.curr), k);
      assert s'.ready[j] == p;
      ScheduleAdvances(s', p, j, s'.ready);
    }
  }

  lemma NextAdvances(s: State, e: Event, p: Ptr, k: nat)
    requires Inv(s) && Possible(s, e) && k < |s.ready| && s.ready[k] == p
    ensures Advanced(Next(s, e), p, if Dispatches(s, e) then k - 1 else k)
  {
    hide Inv, Create, Terminate, Drain, Advanced, Inserted, Full, Removed;
    StepDefined(s);
    ReadyIsPcb(s, p, k);
    match e
    case Sys1 => CreateAppends(s); StillReady(Create(s), p, k, s.ready);
    case Sys2 => TerminateAdvances(s, p, k);
    case Sys3(a) =>
      if Sem(s, a) < 1 {
        ScheduleAdvances(Passeren(s, a), p, k, s.ready);
      } else {
        StillReady(P(s, a), p, k, s.ready);
      }
    case Sys4(a) => StepDefinedAt(s, a); StillReady(Verhogen(s, a), p, k, s.ready);
    case Sys5(device) => ScheduleAdvances(Passeren(s, SemOf(device)).(softblockCnt := s.softblockCnt + 1), p, k, s.ready);
    case Sys7 => ScheduleAdvances(Passeren(s, CLOCK).(softblockCnt := s.softblockCnt + 1), p, k, s.ready);
    case Interrupt(device) =>
      StepDefinedAt(s, SemOf(device));
      InterruptAdvances(s, SemOf(device), p, k);
    case ClockTick => ClockAdvances(s, p, k);
    case QuantumEnd => ScheduleAdvances(s.(ready := s.ready + [s.curr]), p, k, s.ready);
    case Write(a, value) => StillReady(s.(mem := s.mem[a := value]), p, k, s.ready);
  }

  ghost function Passes(s: State, es: seq<Event>): nat
    requires Inv(s) && IsRun(s, es)
    decreases |es|
  {
    if es == [] then 0
    else (NextKeeps(s, es[0]); (if Dispatches(s, es[0]) then 1 else 0) + Passes(Next(s, es[0]), es[1..]))
  }

  // A process at position k of the ready queue is dispatched by the (k + 1)-th following scheduler
  // pass at the latest, unless it is killed first.
  lemma {:induction false} BoundedWait(s: State, es: seq<Event>, p: Ptr, k: nat) returns (i: nat)
    requires Inv(s) && IsRun(s, es) && Advanced(s, p, k) && Passes(s, es) >= k + 1
    ensures i <= |es| && IsRun(s, es[..i]) && (After(s, es[..i]).curr == p || !Live(After(s, es[..i]), p))
    decreases |es|
  {
    hide Inv, Next, Disciplined, HasRoom, Possible, Dispatches;
    if s.curr == p || !Live(s, p) {
      i := 0;
    } else {
      var j :| 0 <= j < |s.ready| && j <= k && s.ready[j] == p;
      var e := es[0];
      NextKeeps(s, e);
      NextAdvances(s, e, p, j);
      var k' := if Dispatches(s, e) then j - 1 else j;
      if k' < 0 {
        i := 1;
        assert es[..1] == [e];
        RunOne(s, e);
      } else {
        i := BoundedWait(Next(s, e), es[1..], p, k');
        i := i + 1;
        assert es[..i][0] == e && es[..i][1..] == es[1..][..i - 1];
      }
    }
  }
}
