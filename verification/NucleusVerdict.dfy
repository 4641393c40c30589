// The scheduler's verdict when nobody is ready, and the shutdown of the system
// (phase2/scheduler.c:53-83).
module NucleusVerdict {
  import opened Constants
  import opened Queues
  import opened Pcbs
  import opened ActiveSemaphores
  import opened NucleusState
  import opened NucleusInvariant
  import opened NucleusBlocking
  import opened ProcessTree
  import opened NucleusKill
  import opened NucleusRuns

  lemma NobodyLives(s: State)
    requires Filed(s) && Counted(s)
    ensures s.processCnt >= 0
    ensures s.processCnt == 0 <==> forall p :: !Live(s, p)
  {
    CoversWhenFull(s.free, MAXPROC);
  }

  // HALT when no process lives; WAIT when some process waits on a device or the clock; PANIC when
  // every process, and there is one, waits on a semaphore that no interrupt can signal.
  lemma VerdictSound(s: State)
    requires Inv(s) && Settled(s)
    ensures Decision(s) == Halt <==> forall p :: !Live(s, p)
    ensures Decision(s) == Wait <==> s.curr == NIL && exists p :: Live(s, p) && DeviceBlocked(s, p)
    ensures Decision(s) == Panic <==>
      (exists p :: Live(s, p)) && forall p :: Live(s, p) ==> Blocked(s, p) && !IsDeviceSem(s.semAdd[p])
  {
    PlacedIsFiled(s);
    NobodyLives(s);
    SoftblockedLive(s);
    hide Counted, Balanced, Clocked, Rooted, Softblocked;
    assert s.curr != NIL ==> Live(s, s.curr) && !Blocked(s, s.curr);
  }

  lemma SoftblockedLive(s: State)
    requires Inv(s)
    ensures s.softblockCnt > 0 <==> exists p :: Live(s, p) && DeviceBlocked(s, p)
  {
    if s.softblockCnt > 0 {
      assert Softblocked(s) != {};
      var p :| p in Softblocked(s);
      assert Live(s, p) && DeviceBlocked(s, p);
    }
    if p :| Live(s, p) && DeviceBlocked(s, p) {
      assert p in Softblocked(s);
    }
  }

  // SYS2 of the first process ends every process, whatever they wait on, and the system halts.
  lemma ShutdownHalts(s: State)
    requires Inv(s) && s.curr == 0
    ensures Live(s, s.curr)
    ensures var s' := Terminate(s);
      Decision(s') == Halt && s'.processCnt == 0 && s'.ready == [] && forall p :: !Live(s', p)
  {
    hide Balanced, Clocked, Rooted, Victims, KillAll, Descends;
    CurrentLives(s);
    KilledTree(s);
    KilledQueues(s);
    forall p | Live(s, p)
      ensures p in Subtree(s, 0)
    {
      AllDescendFromRoot(s, p);
    }
    var s' := Killed(s);
    CoversWhenFull(s'.free, MAXPROC);
    AvoidingAll(s.ready, Subtree(s, 0));
  }

  // What a SYS2 leaves of the counters and of the ready queue, whoever waits on what.
  lemma TerminateLeaves(s: State)
    requires Inv(s) && s.curr != NIL
    ensures Rooted(s) && Live(s, s.curr)
    ensures
      var s' := Terminate(s);
      && s'.softblockCnt == s.softblockCnt && s'.processCnt >= 0
      && (s'.processCnt == 0 <==> forall p :: !Live(s', p))
      && (s'.curr == NIL <==> forall p :: p in s.ready ==> p in Subtree(s, s.curr))
      && (s'.curr != NIL ==> Live(s', s'.curr))
      && (forall p :: Live(s', p) <==> Live(s, p) && p !in Subtree(s, s.curr))
  {
    hide Placed, Filed, Counted, Balanced, Clocked, Rooted, Victims, KillAll, Subtree, Avoiding, Blocked, DeviceBlocked;
    CurrentLives(s);
    KilledTree(s);
    KilledQueues(s);
    var k, s' := Killed(s).(curr := NIL), Terminate(s);
    assert s' == Schedule(k) && k.ready == Avoiding(s.ready, Subtree(s, s.curr));
    assert forall p :: Live(s', p) <==> Live(k, p);
    assert forall p :: Live(k, p) <==> Live(Killed(s), p);
    NobodyLives(k);
    ReadyLeft(s.ready, Subtree(s, s.curr));
    ReadyLive(k);
  }

  lemma ReadyLeft(ready: seq<Ptr>, gone: set<Ptr>)
    ensures Avoiding(ready, gone) == [] <==> forall p :: p in ready ==> p in gone
  {
    AvoidingElements(ready, gone);
    var left := Avoiding(ready, gone);
    assert forall i :: 0 <= i < |left| ==> left[i] in ready && left[i] !in gone;
    if left == [] {
      forall p | p in ready
        ensures p in gone
      {
        assert p !in left;
      }
    } else {
      var p: Ptr := left[0];
      assert p == left[0];
      assert exists q :: q in ready && q !in gone by {
        assert p in ready && p !in gone;
      }
    }
  }

  lemma ReadyLive(s: State)
    requires Filed(s)
    ensures s.ready != [] ==> Live(s, s.ready[0]) && s.ready[0] != NIL
  {
  }

  // Survivors wait on what they waited on.
  lemma SurvivorsWait(s: State)
    requires Inv(s) && s.curr != NIL
    ensures Rooted(s) && Live(s, s.curr)
    ensures
      var s' := Terminate(s);
      forall p :: Live(s, p) && p !in Subtree(s, s.curr) ==> (DeviceBlocked(s', p) <==> DeviceBlocked(s, p))
  {
    hide Placed, Counted, Balanced, Clocked, Rooted, Victims, KillAll, Subtree, Avoiding;
    CurrentLives(s);
    KilledQueues(s);
    var k, s' := Killed(s).(curr := NIL), Terminate(s);
    assert s'.queues == k.queues && s'.semAdd == k.semAdd;
    forall p | Live(s, p) && p !in Subtree(s, s.curr)
      ensures DeviceBlocked(s', p) <==> DeviceBlocked(s, p)
    {
      assert s'.semAdd[p] == s.semAdd[p];
      assert Waiting(s', s.semAdd[p]) == Waiting(k, s.semAdd[p]);
    }
  }

  // The verdict after a SYS2. The soft-block counter goes on counting the killed, so that the scheduler waits
  // if anybody, alive or killed, was waiting on a device or the clock.
  lemma TerminateVerdict(s: State)
    requires Inv(s) && s.curr != NIL
    ensures Live(s, s.curr)
    ensures
      var s', gone := Terminate(s), Subtree(s, s.curr);
      var idle := forall p :: p in s.ready ==> p in gone;
      var alone := forall p :: Live(s, p) ==> p in gone;
      var awaited := exists p :: Live(s, p) && DeviceBlocked(s, p);
      Decision(s') == if alone then Halt else if !idle then Dispatch else if awaited then Wait else Panic
  {
    hide Inv, Subtree, Terminate, DeviceBlocked;
    TerminateLeaves(s);
    SoftblockedLive(s);
    var s', gone := Terminate(s), Subtree(s, s.curr);
    if forall p :: Live(s, p) ==> p in gone {
      assert forall p :: !Live(s', p);
    }
  }

  // So it waits where it should panic, as every survivor waits on a semaphore that no interrupt signals,
  // exactly if nobody is ready, somebody survives, no survivor waits on a device and one of the killed did.
  lemma WaitsForTheDead(s: State)
    requires Inv(s) && s.curr != NIL
    ensures Live(s, s.curr)
    ensures
      var s', gone := Terminate(s), Subtree(s, s.curr);
      Decision(s') == Wait && (forall p :: Live(s', p) ==> !DeviceBlocked(s', p)) <==>
        && (forall p :: p in s.ready ==> p in gone) && (exists p :: Live(s, p) && p !in gone)
        && (forall p :: Live(s, p) && p !in gone ==> !DeviceBlocked(s, p))
        && (exists p :: Live(s, p) && p in gone && DeviceBlocked(s, p))
  {
    hide Inv, Subtree, Terminate, DeviceBlocked;
    TerminateLeaves(s);
    SurvivorsWait(s);
    TerminateVerdict(s);
  }
}
