// What every event of the delay protocol does, one law a part, and that a delay ends in time
// (phase5/delayDaemon.c:146-178, 200-239).
module DelayEffects {
  import opened Constants
  import opened Queues
  import opened DelayLists
  import opened DelayPass
  import opened DelayProtocol
  import opened DelayInvariant
  import opened DelayGuarantees
  import opened Semaphores

  function ListSemaphore(s: State): View {
    View(s.sem, s.waiting)
  }

  // the daemon has reached the tail
  predicate AtTail(s: State) {
    s.stage[DAEMON].Scanning? && s.stage[DAEMON].i == |s.adl|
  }

  // the event ends with the V on the list's semaphore
  predicate Leaves(s: State, e: Event) {
    e.Sleep? || (e.Inspect? && AtTail(s))
  }

  // the daemon removes the descriptor that it inspects
  predicate Removes(s: State, e: Event) {
    e.Inspect? && s.stage[DAEMON].Scanning? && s.stage[DAEMON].i < |s.adl| && s.now >= s.adl[s.stage[DAEMON].i].wake
  }

  // The P's and V's on the list's semaphore are those of the nucleus; nothing else touches it.
  lemma NextListSemaphore(s: State, e: Event)
    requires Inv(s) && Enabled(s, e) && Fits(s, e)
    ensures
      ListSemaphore(Next(s, e)) ==
        if e.Enter? then Down(ListSemaphore(s), e.a)
        else if Leaves(s, e) then Up(ListSemaphore(s))
        else ListSemaphore(s)
  {
    hide Recorded, Paired, Cast, Cut;
    Defined(s);
    match e
    case Enroll(a) => EnrollDefined(s, a);
    case Sleep(a) => Alone(s, a);
    case Inspect => Alone(s, DAEMON); ScanFacts(s);
    case _ =>
  }

  // Where everybody stands after an event. Who is first in the queue at a V goes past its P.
  lemma NextStage(s: State, e: Event, b: int)
    requires Inv(s) && Enabled(s, e) && Fits(s, e) && IsParty(b)
    ensures
      var x, x' := s.stage[b], Next(s, e).stage[b];
      match e
      case Call(a, secs) =>
        x' == if a != b then x else if secs < 0 then Terminated else Asking(secs, s.now + secs * MILLION)
      case Enter(a) =>
        if a != b then x' == x
        else if x.Asking? then x' == if s.sem >= 1 then Entered(x.secs, x.deadline) else Queued(x.secs, x.deadline)
        else x' == if s.sem >= 1 then Scanning(0) else Standing
      case Enroll(a) => if a == b then x' == Listed(x.deadline) else x' == x
      case Tick => x' == if b == DAEMON then Rising else x
      case Sleep(a) => if a == b then x' == Asleep(x.deadline) else Follows(s, b, x')
      case Inspect =>
        if AtTail(s) then (if b == DAEMON then x' == Resting else Follows(s, b, x'))
        else if Removes(s, e) then x' == if s.adl[s.stage[DAEMON].i].asid == b then Awake else x
        else x' == if b == DAEMON then Scanning(s.stage[DAEMON].i + 1) else x
      case Elapse(_) => x' == x
  {
    hide Recorded, Paired, Cast, Cut;
    Defined(s);
    match e
    case Enroll(a) => EnrollDefined(s, a);
    case Sleep(a) => Alone(s, a); Wakeless(s, a);
    case Inspect => Alone(s, DAEMON); ScanFacts(s);
    case _ =>
  }

  lemma Wakeless(s: State, a: int)
    requires Inv(s) && IsUproc(a) && s.stage[a].Listed?
    ensures s.privateSem[a] == 0
  {
    hide Excluded, Recorded, Cast;
  }

  // x' is where b stands after a V by somebody else
  predicate Follows(s: State, b: int, x': Stage)
    requires IsParty(b)
  {
    var x := s.stage[b];
    if s.waiting != [] && s.waiting[0] == b
    then if x.Queued? then x' == Entered(x.secs, x.deadline) else x == Standing && x' == Scanning(0)
    else x' == x
  }

  // The list, the free descriptors and the time. What fits is listed for the time of the enrolment plus the
  // seconds asked for, in front.
  lemma NextList(s: State, e: Event)
    requires Inv(s) && Enabled(s, e) && Fits(s, e)
    ensures Next(s, e).now == s.now + if e.Elapse? then e.time else 0
    ensures
      var s' := Next(s, e);
      if e.Enroll? then
        s'.adl == [Entry(s.now + s.stage[e.a].secs * MILLION, e.a)] + s.adl && s'.free == s.free - 1
      else if Removes(s, e) then
        s'.adl == s.adl[..s.stage[DAEMON].i] + s.adl[s.stage[DAEMON].i + 1..] && s'.free == s.free + 1
      else s'.adl == s.adl && s'.free == s.free
  {
    hide Excluded, Paired, Cast;
    Defined(s);
    match e
    case Enroll(a) => EnrollDefined(s, a);
    case Inspect => ScanFacts(s);
    case _ =>
  }

  // An enrolment leaves the list that DelayList.Enroll leaves.
  lemma EnrollIsEnroll(s: State, a: int)
    requires Inv(s) && Enabled(s, Enroll(a)) && Fits(s, Enroll(a))
    ensures
      var wake := WakeTime(s.now, s.stage[a].secs);
      var k := Position(s.adl, wake);
      && |s.adl| < UPROCMAX && k <= |s.adl|
      && Next(s, Enroll(a)).adl == s.adl[..k] + [Entry(wake, a)] + s.adl[k..]
  {
    hide Excluded, Paired, Cast, Position, WakeTime;
    EnrollDefined(s, a);
    NextList(s, Enroll(a));
  }

  // ------------------------------------------------------------------- first come, first served

  ghost function Served(s: State, es: seq<Event>): nat
    requires Inv(s) && IsRun(s, es)
    decreases |es|
  {
    if es == [] then 0
    else (if Leaves(s, es[0]) then 1 else 0) + (NextKeeps(s, es[0]); Served(Next(s, es[0]), es[1..]))
  }

  // Who waits for the list at position k, process or daemon, is past its P at the (k + 1)-th V at the latest.
  lemma {:induction false} WaiterServed(s: State, es: seq<Event>, a: int, k: nat) returns (i: nat)
    requires Inv(s) && IsRun(s, es) && k < |s.waiting| && s.waiting[k] == a && Served(s, es) >= k + 1
    ensures i <= |es| && IsRun(s, es[..i]) && IsParty(a) && Inside(After(s, es[..i]).stage[a])
    ensures Served(s, es[..i]) == k + 1
    decreases |es|
  {
    hide Inv, Next, Enabled, Fits, Leaves;
    var e := es[0];
    NextKeeps(s, e);
    WaiterAdvances(s, e, a, k);
    var s1 := Next(s, e);
    if Leaves(s, e) && k == 0 {
      i := 1;
      assert es[..1] == [e] && [e][1..] == [];
      assert IsRun(s1, []) && Served(s1, []) == 0 && After(s1, []) == s1;
    } else {
      i := WaiterServed(s1, es[1..], a, if Leaves(s, e) then k - 1 else k);
      i := i + 1;
      assert es[..i][0] == e && es[..i][1..] == es[1..][..i - 1];
    }
  }

  lemma WaiterAdvances(s: State, e: Event, a: int, k: nat)
    requires Inv(s) && Enabled(s, e) && Fits(s, e) && k < |s.waiting| && s.waiting[k] == a
    ensures
      var s' := Next(s, e);
      && IsParty(a)
      && if !Leaves(s, e) then k < |s'.waiting| && s'.waiting[k] == a
         else if k > 0 then k - 1 < |s'.waiting| && s'.waiting[k - 1] == a
         else Inside(s'.stage[a])
  {
    hide Next, Recorded, Paired;
    NextListSemaphore(s, e);
    assert s.waiting[k] in s.waiting && InQueue(s.stage[a]);
    NextStage(s, e, a);
  }

  // ------------------------------------------------------------------------- never late

  // A descriptor stays on the list, or its process is woken; wake-ups are never undone.
  lemma StaysListed(s: State, e: Event, entry: Entry)
    requires Inv(s) && Enabled(s, e) && Fits(s, e) && IsUproc(entry.asid)
    ensures Next(s, e).wakeups[entry.asid] >= s.wakeups[entry.asid]
    ensures entry in s.adl ==> entry in Next(s, e).adl || Next(s, e).wakeups[entry.asid] > s.wakeups[entry.asid]
  {
    hide Excluded, Paired, Cast, Recorded, Next;
    NextList(s, e);
    NextWakeups(s, e, entry.asid);
    if entry in s.adl {
      var k :| 0 <= k < |s.adl| && s.adl[k] == entry;
      if e.Enroll? {
        assert Next(s, e).adl[k + 1] == entry;
      } else if Removes(s, e) {
        var i := s.stage[DAEMON].i;
        if k < i {
          assert Next(s, e).adl[k] == entry;
        } else if k > i {
          assert Next(s, e).adl[k - 1] == entry;
        }
      }
    }
  }

  lemma NextWakeups(s: State, e: Event, a: int)
    requires Inv(s) && Enabled(s, e) && Fits(s, e) && IsUproc(a)
    ensures
      Next(s, e).wakeups[a] ==
        s.wakeups[a] + if Removes(s, e) && s.adl[s.stage[DAEMON].i].asid == a then 1 else 0
  {
    hide Excluded, Paired, Cast, Recorded, Cut;
    Defined(s);
    match e
    case Enroll(b) => EnrollDefined(s, b);
    case Inspect => ScanFacts(s);
    case _ =>
  }

  lemma {:induction false} RunStaysListed(s: State, es: seq<Event>, entry: Entry)
    requires Inv(s) && IsRun(s, es) && IsUproc(entry.asid)
    ensures After(s, es).wakeups[entry.asid] >= s.wakeups[entry.asid]
    ensures entry in s.adl ==>
      entry in After(s, es).adl || After(s, es).wakeups[entry.asid] > s.wakeups[entry.asid]
    decreases |es|
  {
    hide Inv, Next, Enabled, Fits;
    if es != [] {
      NextKeeps(s, es[0]);
      StaysListed(s, es[0], entry);
      RunStaysListed(Next(s, es[0]), es[1..], entry);
    }
  }

  // A process that enrols at time t for n seconds has been woken by the end of any round that starts when
  // these have passed, whatever happens before and during the round; and its descriptor is gone.
  lemma WokenInTime(s: State, a: int, es: seq<Event>, round: seq<Event>)
    requires Inv(s) && Enabled(s, Enroll(a)) && Fits(s, Enroll(a))
    requires (NextKeeps(s, Enroll(a)); IsRun(Next(s, Enroll(a)), es))
    requires (NextKeeps(s, Enroll(a)); IsRun(After(Next(s, Enroll(a)), es), round))
    requires
      (NextKeeps(s, Enroll(a));
       var begun := After(Next(s, Enroll(a)), es);
       && begun.stage[DAEMON] == Scanning(0) && begun.now >= s.now + s.stage[a].secs * MILLION
       && InRound(begun, round) && After(begun, round).stage[DAEMON] == Resting)
    ensures Inv(Next(s, Enroll(a)))
    ensures
      var done := After(After(Next(s, Enroll(a)), es), round);
      && done.wakeups[a] > s.wakeups[a]
      && Entry(s.now + s.stage[a].secs * MILLION, a) !in done.adl
  {
    hide Inv, Next, IsRun, After, InRound, Fits;
    NextKeeps(s, Enroll(a));
    NextList(s, Enroll(a));
    NextWakeups(s, Enroll(a), a);
    var entry := Entry(s.now + s.stage[a].secs * MILLION, a);
    var s1 := Next(s, Enroll(a));
    assert s1.adl[0] == entry;
    var begun := After(s1, es);
    RunStaysListed(s1, es, entry);
    RunStaysListed(begun, round, entry);
    RoundStart(begun);
    RoundSweeps(begun, round, begun.now);
    AllLaterOut(After(begun, round), begun.now, entry);
  }

  lemma RoundStart(s: State)
    requires Inv(s) && s.stage[DAEMON] == Scanning(0)
    ensures Swept(s, s.now)
  {
  }

  lemma AllLaterOut(s: State, t: int, entry: Entry)
    requires AllLater(s, t) && entry.wake <= t
    ensures entry !in s.adl
  {
  }
}
