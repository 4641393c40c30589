// What the delay protocol keeps, and what it promises its callers: nobody returns early, every
// delay is ended by exactly one V, and a descriptor is always at hand (phase5/delayDaemon.c:146-178,
// 200-239, 262-299).
module DelayInvariant {
  import opened Constants
  import opened Queues
  import opened DelayLists
  import opened DelayPass
  import opened DelayProtocol

  // past the P on the semaphore of the list
  predicate Inside(x: Stage) {
    x.Entered? || x.Listed? || x.Scanning?
  }

  predicate InQueue(x: Stage) {
    x.Queued? || x.Standing?
  }

  ghost predicate Held(s: State) {
    exists a :: IsParty(a) && Inside(s.stage[a])
  }

  ghost predicate Excluded(s: State) {
    && (forall a, b :: IsParty(a) && IsParty(b) && Inside(s.stage[a]) && Inside(s.stage[b]) ==> a == b)
    && s.sem == (if Held(s) then 0 else 1) - |s.waiting|
    && (s.waiting != [] ==> Held(s))
    && Distinct(s.waiting)
    && (forall a :: a in s.waiting <==> IsParty(a) && InQueue(s.stage[a]))
  }

  // the process has a descriptor on the list
  predicate Delayed(x: Stage) {
    x.Listed? || x.Asleep?
  }

  // The list has one descriptor for each process that is delayed, not due before its deadline, and
  // the other descriptors are free.
  ghost predicate Recorded(s: State) {
    && OnePerProcess(s.adl)
    && (forall i {:trigger s.adl[i]} :: 0 <= i < |s.adl| ==>
          var e := s.adl[i];
          IsUproc(e.asid) && Delayed(s.stage[e.asid]) && s.stage[e.asid].deadline <= e.wake && 0 <= e.wake < DUMMYTAILVAL)
    && (forall a {:trigger s.stage[a]} :: IsUproc(a) && Delayed(s.stage[a]) ==>
          exists i :: 0 <= i < |s.adl| && s.adl[i].asid == a)
    && s.free + |s.adl| == UPROCMAX
    && (s.stage[DAEMON].Scanning? ==> s.stage[DAEMON].i <= |s.adl|)
  }

  // A private semaphore is -1 while its process sleeps, else 0; every wake-up ended one delay.
  ghost predicate Paired(s: State) {
    forall a {:trigger s.stage[a]} {:trigger s.privateSem[a]} :: IsUproc(a) ==>
      && s.privateSem[a] == (if s.stage[a].Asleep? then -1 else 0)
      && s.delays[a] == s.wakeups[a] + if s.stage[a].Asleep? then 1 else 0
  }

  predicate Requested(x: Stage) {
    x.Asking? || x.Queued? || x.Entered?
  }

  ghost predicate Cast(s: State) {
    && (s.stage[DAEMON].Resting? || s.stage[DAEMON].Rising? || s.stage[DAEMON].Standing? || s.stage[DAEMON].Scanning?)
    && (forall a {:trigger s.stage[a]} :: IsUproc(a) ==>
          && !s.stage[a].Resting? && !s.stage[a].Rising? && !s.stage[a].Standing? && !s.stage[a].Scanning?
          && (Requested(s.stage[a]) ==> 0 <= s.stage[a].secs && s.stage[a].deadline <= s.now + s.stage[a].secs * MILLION))
    && s.now >= 0
  }

  ghost predicate Inv(s: State) {
    Excluded(s) && Recorded(s) && Paired(s) && Cast(s)
  }

  lemma InitialInv(now: nat)
    ensures Inv(Initial(now))
  {
  }

  // ------------------------------------------------------------------------ definedness

  function Asids(adl: seq<Entry>): seq<int> {
    seq(|adl|, i requires 0 <= i < |adl| => adl[i].asid)
  }

  // The processes on the list leave a descriptor for every other process.
  lemma PoolSuffices(s: State, a: int)
    requires Recorded(s) && IsUproc(a) && !Delayed(s.stage[a])
    ensures s.free > 0
  {
    var on := Asids(s.adl);
    forall i | 0 <= i < |on|
      ensures IsUproc(on[i]) && on[i] != a
    {
      assert s.adl[i].asid == on[i];
    }
    FewOthers(on, a);
  }

  lemma FewOthers(on: seq<int>, a: int)
    requires Distinct(on) && IsUproc(a) && forall i :: 0 <= i < |on| ==> IsUproc(on[i]) && on[i] != a
    ensures |on| < UPROCMAX
  {
    var others := Uprocs(UPROCMAX) - {a};
    DistinctSize(on);
    SubsetSize(Elements(on), others);
    assert |others| == UPROCMAX - 1;
  }

  ghost function Uprocs(n: nat): (procs: set<int>)
    ensures (forall b :: b in procs <==> 1 <= b <= n) && |procs| == n
  {
    if n == 0 then {} else Uprocs(n - 1) + {n}
  }

  lemma Defined(s: State)
    requires Inv(s)
    ensures s.waiting != [] ==> IsParty(s.waiting[0]) && InQueue(s.stage[s.waiting[0]])
    ensures s.stage[DAEMON].Scanning? ==> s.stage[DAEMON].i <= |s.adl|
    ensures forall i :: 0 <= i < |s.adl| ==> IsUproc(s.adl[i].asid)
  {
    if s.waiting != [] {
      assert s.waiting[0] in s.waiting;
    }
  }

  lemma EnrollDefined(s: State, a: int)
    requires Inv(s) && Enabled(s, Enroll(a)) && Fits(s, Enroll(a))
    ensures s.free > 0
    ensures WakeTime(s.now, s.stage[a].secs) == s.now + s.stage[a].secs * MILLION
    ensures Position(s.adl, WakeTime(s.now, s.stage[a].secs)) == 0
  {
    PoolSuffices(s, a);
    InsertedInFront(s.adl, s.now, s.stage[a].secs);
  }

  ghost function Next(s: State, e: Event): State
    requires Inv(s) && Enabled(s, e) && Fits(s, e)
  {
    Defined(s);
    match e
    case Elapse(time) => s.(now := s.now + time)
    case Call(a, secs) => SetStage(s, a, if secs < 0 then Terminated else Asking(secs, s.now + secs * MILLION))
    case Enter(a) => DoEnter(s, a)
    case Enroll(a) => EnrollDefined(s, a); DoEnroll(s, a)
    case Sleep(a) => DoSleep(s, a)
    case Tick => SetStage(s, DAEMON, Rising)
    case Inspect => DoInspect(s)
  }

  // ----------------------------------------------------------------------- preservation

  lemma Alone(s: State, a: int)
    requires Excluded(s) && IsParty(a) && Inside(s.stage[a])
    ensures forall b :: IsParty(b) && b != a ==> !Inside(s.stage[b])
  {
  }

  // A change of one stage that neither takes nor gives up the semaphore.
  lemma StageExcluded(s: State, a: int, x: Stage)
    requires Excluded(s) && IsParty(a) && (Inside(x) <==> Inside(s.stage[a])) && !InQueue(x) && !InQueue(s.stage[a])
    ensures Excluded(SetStage(s, a, x))
  {
    var s' := SetStage(s, a, x);
    assert forall b :: IsParty(b) ==> (Inside(s'.stage[b]) <==> Inside(s.stage[b])) && (InQueue(s'.stage[b]) <==>
        InQueue(s.stage[b]));
    assert Held(s') <==> Held(s);
  }

  lemma SameExcluded(s: State, s': State)
    requires Excluded(s) && s'.stage == s.stage && s'.sem == s.sem && s'.waiting == s.waiting
    ensures Excluded(s')
  {
  }

  lemma EnterExcluded(s: State, a: int)
    requires Excluded(s) && IsParty(a) && (s.stage[a].Asking? || s.stage[a].Rising?)
    ensures Excluded(DoEnter(s, a))
  {
    var s' := DoEnter(s, a);
    if s.sem - 1 >= 0 {
      assert !Held(s) && s.waiting == [];
      assert Inside(s'.stage[a]);
      assert forall b :: IsParty(b) && b != a ==> s'.stage[b] == s.stage[b];
    } else {
      assert InQueue(s'.stage[a]);
      forall b | IsParty(b)
        ensures Inside(s'.stage[b]) <==> Inside(s.stage[b])
        ensures InQueue(s'.stage[b]) <==> InQueue(s.stage[b]) || b == a
      {
      }
      assert Held(s') <==> Held(s);
      assert a !in s.waiting;
    }
  }

  // The holder of the semaphore gives it up.
  lemma LeaveExcluded(s: State, a: int, s1: State)
    requires Excluded(s) && IsParty(a) && Inside(s.stage[a])
    requires s1.sem == s.sem && s1.waiting == s.waiting && !Inside(s1.stage[a]) && !InQueue(s1.stage[a])
    requires forall b :: IsParty(b) && b != a ==> s1.stage[b] == s.stage[b]
    ensures s.waiting != [] ==> IsParty(s.waiting[0]) && InQueue(s1.stage[s.waiting[0]]) && s.waiting[0] != a
    ensures Excluded(Leave(s1))
  {
    Alone(s, a);
    if s.waiting != [] {
      var b := s.waiting[0];
      TailDistinct(s.waiting);
      assert b in s.waiting;
      assert InQueue(s1.stage[b]) && Inside(Past(s1.stage[b]));
      var s' := Leave(s1);
      assert forall c :: IsParty(c) && c != a && c != b ==> s'.stage[c] == s.stage[c];
      assert s.waiting == [b] + s.waiting[1..];
    } else {
      var s' := Leave(s1);
      assert forall c :: IsParty(c) ==> s'.stage[c] == s1.stage[c];
    }
  }

  // Who is first in the queue going on changes nothing else.
  lemma LeaveOthers(s: State)
    requires Recorded(s) && Paired(s) && Cast(s)
    requires s.waiting != [] ==> IsParty(s.waiting[0]) && InQueue(s.stage[s.waiting[0]])
    ensures Recorded(Leave(s)) && Paired(Leave(s)) && Cast(Leave(s))
  {
    var s' := Leave(s);
    forall a | IsParty(a)
      ensures s'.stage[a] == s.stage[a] || (InQueue(s.stage[a]) && s'.stage[a] == Past(s.stage[a]))
    {
    }
    StagesAdvance(s, s');
  }

  // Stages that change only between those without a descriptor.
  lemma StagesAdvance(s: State, s': State)
    requires Recorded(s) && Paired(s) && Cast(s)
    requires s'.adl == s.adl && s'.free == s.free && s'.privateSem == s.privateSem && s'.delays == s.delays &&
        s'.wakeups == s.wakeups
    requires s'.now >= s.now
    requires forall a :: IsUproc(a) ==> Advances(s', s.stage[a], s'.stage[a])
    requires s'.stage[DAEMON] == s.stage[DAEMON] || s'.stage[DAEMON] == Rising || s'.stage[DAEMON] == Standing ||
        s'.stage[DAEMON] == Scanning(0)
    ensures Recorded(s') && Paired(s') && Cast(s')
  {
    assert forall i :: 0 <= i < |s.adl| ==> s'.adl[i] == s.adl[i];
  }

  predicate Advances(s: State, x: Stage, y: Stage) {
    x == y || (!Delayed(x) && (y.Terminated? || (Requested(y) && 0 <= y.secs && y.deadline <= s.now + y.secs * MILLION)))
  }

  lemma EnterKeeps(s: State, a: int)
    requires Inv(s) && Enabled(s, Enter(a))
    ensures Inv(DoEnter(s, a))
  {
    hide Excluded, Recorded, Paired;
    EnterExcluded(s, a);
    StagesAdvance(s, DoEnter(s, a));
  }

  lemma CallKeeps(s: State, a: int, secs: int)
    requires Inv(s) && Enabled(s, Call(a, secs))
    ensures Inv(Next(s, Call(a, secs)))
  {
    hide Excluded, Recorded, Paired;
    var s' := Next(s, Call(a, secs));
    StageExcluded(s, a, s'.stage[a]);
    StagesAdvance(s, s');
  }

  lemma EnrollKeeps(s: State, a: int)
    requires Inv(s) && Enabled(s, Enroll(a)) && Fits(s, Enroll(a))
    ensures Inv(Next(s, Enroll(a)))
  {
    hide Excluded, Paired;
    EnrollDefined(s, a);
    Alone(s, a);
    var s' := Next(s, Enroll(a));
    var wake := WakeTime(s.now, s.stage[a].secs);
    assert s'.adl == [Entry(wake, a)] + s.adl;
    StageExcluded(s, a, s'.stage[a]);
    SameExcluded(SetStage(s, a, s'.stage[a]), s');
    EnrollRecorded(s, s', a, wake);
    EnrollPaired(s, s', a);
  }

  lemma EnrollPaired(s: State, s': State, a: int)
    requires Paired(s) && IsUproc(a) && s.stage[a].Entered? && s'.stage == s.stage[a := Listed(s.stage[a].deadline)]
    requires s'.privateSem == s.privateSem && s'.delays == s.delays && s'.wakeups == s.wakeups
    ensures Paired(s')
  {
  }

  lemma EnrollRecorded(s: State, s': State, a: int, wake: int)
    requires Recorded(s) && Cast(s) && IsUproc(a) && s.stage[a].Entered?
    requires s'.adl == [Entry(wake, a)] + s.adl && s'.free == s.free - 1 &&
        s'.stage == s.stage[a := Listed(s.stage[a].deadline)]
    requires s.stage[a].deadline <= wake && 0 <= wake < DUMMYTAILVAL && !s.stage[DAEMON].Scanning?
    ensures Recorded(s')
  {
    forall i | 0 <= i < |s'.adl|
      ensures s'.adl[i] == if i == 0 then Entry(wake, a) else s.adl[i - 1]
    {
    }
    forall b | IsUproc(b) && Delayed(s'.stage[b])
      ensures exists i :: 0 <= i < |s'.adl| && s'.adl[i].asid == b
    {
      if b == a {
        assert s'.adl[0].asid == b;
      } else {
        assert Delayed(s.stage[b]);
        var i :| 0 <= i < |s.adl| && s.adl[i].asid == b;
        assert s'.adl[i + 1].asid == b;
      }
    }
  }

  lemma SleepKeeps(s: State, a: int)
    requires Inv(s) && Enabled(s, Sleep(a))
    ensures Inv(Next(s, Sleep(a)))
  {
    hide Excluded, Recorded, Cast;
    Defined(s);
    var s1 := SetStage(s, a, Asleep(s.stage[a].deadline)).(privateSem := s.privateSem[a := -1],
        delays := s.delays[a := s.delays[a] + 1]);
    assert s.privateSem[a] == 0;
    assert DoSleep(s, a) == Leave(s1);
    LeaveExcluded(s, a, s1);
    FallsAsleep(s, a, s1);
    LeaveOthers(s1);
  }

  lemma FallsAsleep(s: State, a: int, s1: State)
    requires Recorded(s) && Paired(s) && Cast(s) && IsUproc(a) && s.stage[a].Listed?
    requires s1 == SetStage(s, a, Asleep(s.stage[a].deadline)).(privateSem := s.privateSem[a := -1],
        delays := s.delays[a := s.delays[a] + 1])
    ensures Recorded(s1) && Paired(s1) && Cast(s1)
  {
    assert forall i :: 0 <= i < |s.adl| ==> s1.adl[i] == s.adl[i];
    assert forall b :: IsUproc(b) ==> (Delayed(s1.stage[b]) <==> Delayed(s.stage[b]));
  }

  lemma InspectKeeps(s: State)
    requires Inv(s) && Enabled(s, Inspect)
    ensures Inv(Next(s, Inspect))
  {
    hide Excluded, Recorded, Paired, Cast;
    Defined(s);
    var i := s.stage[DAEMON].i;
    ScanFacts(s);
    if i == |s.adl| {
      var s1 := SetStage(s, DAEMON, Resting);
      LeaveExcluded(s, DAEMON, s1);
      DaemonRests(s, s1);
      LeaveOthers(s1);
    } else if s.now >= s.adl[i].wake {
      WakeKeeps(s);
    } else {
      StageExcluded(s, DAEMON, Scanning(i + 1));
      DaemonMoves(s, SetStage(s, DAEMON, Scanning(i + 1)));
    }
  }

  // While the daemon inspects the list, everybody on it sleeps.
  lemma ScanFacts(s: State)
    requires Inv(s) && s.stage[DAEMON].Scanning?
    ensures s.stage[DAEMON].i <= |s.adl|
    ensures forall i :: 0 <= i < |s.adl| ==>
      var a := s.adl[i].asid; IsUproc(a) && s.stage[a].Asleep? && s.privateSem[a] == -1 && s.adl[i].wake != DUMMYTAILVAL
  {
    Alone(s, DAEMON);
  }

  lemma DaemonRests(s: State, s': State)
    requires Recorded(s) && Paired(s) && Cast(s) && s' == SetStage(s, DAEMON, Resting)
    ensures Recorded(s') && Paired(s') && Cast(s')
  {
    assert forall i :: 0 <= i < |s.adl| ==> s'.adl[i] == s.adl[i];
  }

  lemma DaemonMoves(s: State, s': State)
    requires Recorded(s) && Paired(s) && Cast(s) && s.stage[DAEMON].Scanning? && s.stage[DAEMON].i < |s.adl|
    requires s' == SetStage(s, DAEMON, Scanning(s.stage[DAEMON].i + 1))
    ensures Recorded(s') && Paired(s') && Cast(s')
  {
    assert forall i :: 0 <= i < |s.adl| ==> s'.adl[i] == s.adl[i];
  }

  lemma WakeKeeps(s: State)
    requires Inv(s) && s.stage[DAEMON].Scanning? && s.stage[DAEMON].i < |s.adl| && s.now >= s.adl[s.stage[DAEMON].i].wake
    ensures Inv(Next(s, Inspect))
    ensures
      var i := s.stage[DAEMON].i;
      var a, s' := s.adl[i].asid, Next(s, Inspect);
      && IsUproc(a) && s.stage[a].Asleep? && s.stage[a].deadline <= s.now
      && s'.stage == s.stage[a := Awake] && s'.adl == Cut(s.adl, i) &&
          s'.wakeups == s.wakeups[a := s.wakeups[a] + 1] && s'.now == s.now
  {
    Defined(s);
    ScanFacts(s);
    var i := s.stage[DAEMON].i;
    var a, s' := s.adl[i].asid, Next(s, Inspect);
    assert s.adl[i].asid == a;
    StageExcluded(s, a, Awake);
    SameExcluded(SetStage(s, a, Awake), s');
    WakeRecorded(s, s', i);
    hide Excluded, Recorded;
  }

  lemma CutEntries(adl: seq<Entry>, i: nat)
    requires OnePerProcess(adl) && i < |adl|
    ensures |Cut(adl, i)| == |adl| - 1 && OnePerProcess(Cut(adl, i))
    ensures forall j :: 0 <= j < |adl| - 1 ==>
      Cut(adl, i)[j] == adl[if j < i then j else j + 1] && Cut(adl, i)[j].asid != adl[i].asid
  {
  }

  lemma WakeRecorded(s: State, s': State, i: nat)
    requires Recorded(s) && i < |s.adl| && s.stage[DAEMON] == Scanning(i)
    requires s'.adl == Cut(s.adl, i) && s'.free == s.free + 1 && s'.stage == s.stage[s.adl[i].asid := Awake]
    ensures Recorded(s')
  {
    hide Cut, OnePerProcess, Delayed;
    CutEntries(s.adl, i);
    WakeListed(s, s', i);
    WakeCovers(s, s', i);
  }

  lemma WakeListed(s: State, s': State, i: nat)
    requires Recorded(s) && i < |s.adl|
    requires s'.adl == Cut(s.adl, i) && s'.stage == s.stage[s.adl[i].asid := Awake]
    ensures forall j {:trigger s'.adl[j]} :: 0 <= j < |s'.adl| ==>
      var e := s'.adl[j];
      IsUproc(e.asid) && Delayed(s'.stage[e.asid]) && s'.stage[e.asid].deadline <= e.wake && 0 <= e.wake < DUMMYTAILVAL
  {
    hide Cut, OnePerProcess;
    CutEntries(s.adl, i);
    forall j | 0 <= j < |s'.adl|
      ensures
        var e := s'.adl[j];
        IsUproc(e.asid) && Delayed(s'.stage[e.asid]) && s'.stage[e.asid].deadline <= e.wake && 0 <= e.wake < DUMMYTAILVAL
    {
      var k := if j < i then j else j + 1;
      assert s'.adl[j] == s.adl[k];
    }
  }

  lemma WakeCovers(s: State, s': State, i: nat)
    requires Recorded(s) && i < |s.adl|
    requires s'.adl == Cut(s.adl, i) && s'.stage == s.stage[s.adl[i].asid := Awake]
    ensures forall b {:trigger s'.stage[b]} :: IsUproc(b) && Delayed(s'.stage[b]) ==>
        exists j :: 0 <= j < |s'.adl| && s'.adl[j].asid == b
  {
    hide Cut, OnePerProcess;
    CutEntries(s.adl, i);
    forall b | IsUproc(b) && Delayed(s'.stage[b])
      ensures exists j :: 0 <= j < |s'.adl| && s'.adl[j].asid == b
    {
      assert Delayed(s.stage[b]) && b != s.adl[i].asid;
      var j :| 0 <= j < |s.adl| && s.adl[j].asid == b;
      assert s'.adl[if j < i then j else j - 1].asid == b;
    }
  }

  lemma NextKeeps(s: State, e: Event)
    requires Inv(s) && Enabled(s, e) && Fits(s, e)
    ensures Inv(Next(s, e))
  {
    hide Excluded, Recorded, Paired;
    match e
    case Elapse(time) => SameExcluded(s, Next(s, e)); StagesAdvance(s, Next(s, e));
    case Call(a, secs) => CallKeeps(s, a, secs);
    case Enter(a) => EnterKeeps(s, a);
    case Enroll(a) => EnrollKeeps(s, a);
    case Sleep(a) => SleepKeeps(s, a);
    case Tick => StageExcluded(s, DAEMON, Rising); StagesAdvance(s, Next(s, e));
    case Inspect => InspectKeeps(s);
  }
}
