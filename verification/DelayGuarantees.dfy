// What SYS18 promises, over every run of the delay protocol.
module DelayGuarantees {
  import opened Constants
  import opened Queues
  import opened DelayLists
  import opened DelayPass
  import opened DelayProtocol
  import opened DelayInvariant

  ghost predicate IsRun(s: State, es: seq<Event>)
    requires Inv(s)
    decreases |es|
  {
    es != [] ==>
      Enabled(s, es[0]) && Fits(s, es[0]) && (NextKeeps(s, es[0]); IsRun(Next(s, es[0]), es[1..]))
  }

  ghost function After(s: State, es: seq<Event>): (s': State)
    requires Inv(s) && IsRun(s, es)
    ensures Inv(s')
    decreases |es|
  {
    if es == [] then s else (NextKeeps(s, es[0]); After(Next(s, es[0]), es[1..]))
  }

  // ---------------------------------------------------------------------- one step

  // in SYS18, to return at the deadline d at the earliest
  predicate Due(x: Stage, d: int) {
    (Requested(x) || Delayed(x)) && x.deadline == d
  }

  // In any step a process stays in its delay, or is woken by the daemon once its deadline has passed.
  lemma StepOfDelay(s: State, e: Event, a: int, d: int)
    requires Inv(s) && Enabled(s, e) && Fits(s, e) && IsUproc(a) && Due(s.stage[a], d)
    ensures Inv(Next(s, e)) && s.now <= Next(s, e).now
    ensures
      var s' := Next(s, e);
      || (Due(s'.stage[a], d) && s'.wakeups[a] == s.wakeups[a])
      || (e == Inspect && s.stage[a].Asleep? && s'.stage[a] == Awake && s'.wakeups[a] == s.wakeups[a] + 1 && d <= s.now)
  {
    hide Excluded, Recorded, Paired, Cut;
    NextKeeps(s, e);
    Defined(s);
    match e
    case Enroll(b) => EnrollDefined(s, b);
    case Sleep(b) => NobodyAwake(s, b);
    case Inspect => InspectStep(s, a);
    case _ =>
  }

  lemma NobodyAwake(s: State, a: int)
    requires Paired(s) && IsUproc(a) && !s.stage[a].Asleep?
    ensures s.privateSem[a] == 0
  {
  }

  lemma InspectStep(s: State, a: int)
    requires Inv(s) && Enabled(s, Inspect) && IsUproc(a)
    ensures
      var s' := Next(s, Inspect);
      && s'.now == s.now && s'.delays == s.delays
      && if s.stage[a].Asleep? && s'.stage[a] != s.stage[a]
         then s'.stage[a] == Awake && s'.wakeups[a] == s.wakeups[a] + 1 && s.stage[a].deadline <= s.now
         else s'.wakeups[a] == s.wakeups[a] &&
                (s'.stage[a] == s.stage[a] || (InQueue(s.stage[a]) && s'.stage[a] == Past(s.stage[a])))
  {
    hide Excluded, Recorded, Paired, Cast;
    Defined(s);
    ScanFacts(s);
    var i := s.stage[DAEMON].i;
    if i < |s.adl| && s.now >= s.adl[i].wake {
      WakeKeeps(s);
    }
  }

  // --------------------------------------------------------------------- never early

  // Whatever happens, a process that is in a delay is still in it, or its deadline has passed.
  lemma {:induction false} NeverEarly(s: State, es: seq<Event>, a: int, d: int)
    requires Inv(s) && IsRun(s, es) && IsUproc(a) && Due(s.stage[a], d)
    ensures Due(After(s, es).stage[a], d) || After(s, es).now >= d
    decreases |es|
  {
    hide Inv, Next, Enabled, Fits, Due;
    if es != [] {
      var s1 := Next(s, es[0]);
      NextKeeps(s, es[0]);
      StepOfDelay(s, es[0], a, d);
      if Due(s1.stage[a], d) {
        NeverEarly(s1, es[1..], a, d);
      } else {
        TimePasses(s1, es[1..]);
      }
    }
  }

  lemma {:induction false} TimePasses(s: State, es: seq<Event>)
    requires Inv(s) && IsRun(s, es)
    ensures s.now <= After(s, es).now
    decreases |es|
  {
    hide Inv, Next, Enabled, Fits;
    if es != [] {
      NextKeeps(s, es[0]);
      NextTime(s, es[0]);
      TimePasses(Next(s, es[0]), es[1..]);
    }
  }

  lemma NextTime(s: State, e: Event)
    requires Inv(s) && Enabled(s, e) && Fits(s, e)
    ensures s.now <= Next(s, e).now
  {
    hide Inv;
    Defined(s);
    if e.Enroll? {
      EnrollDefined(s, e.a);
    }
  }

  // A call of SYS18 for secs seconds does not return before that much time has passed.
  lemma DelayLastsLongEnough(s: State, secs: int, es: seq<Event>, a: int)
    requires Inv(s) && secs >= 0 && IsRun(s, [Call(a, secs)] + es)
    ensures
      var s' := After(s, [Call(a, secs)] + es);
      IsUproc(a) && (s'.stage[a] == Awake || s'.stage[a] == Terminated ==> s'.now >= s.now + secs * MILLION)
  {
    hide Inv, Paired, Recorded, Excluded;
    var all := [Call(a, secs)] + es;
    assert all[0] == Call(a, secs) && all[1..] == es;
    NextKeeps(s, Call(a, secs));
    NeverEarly(Next(s, Call(a, secs)), es, a, s.now + secs * MILLION);
  }

  // ------------------------------------------------------------------ one V per delay

  function Sleeps(es: seq<Event>, a: int): nat {
    if es == [] then 0 else (if es[0] == Sleep(a) then 1 else 0) + Sleeps(es[1..], a)
  }

  lemma NextCounts(s: State, e: Event, a: int)
    requires Inv(s) && Enabled(s, e) && Fits(s, e) && IsUproc(a)
    ensures Next(s, e).delays[a] == s.delays[a] + if e == Sleep(a) then 1 else 0
  {
    hide Excluded, Recorded, Paired, Cast;
    Defined(s);
    match e
    case Enroll(b) => EnrollDefined(s, b);
    case Inspect => InspectStep(s, a);
    case Sleep(b) => NobodyAwake(s, b);
    case _ =>
  }

  lemma {:induction false} DelaysCounted(s: State, es: seq<Event>, a: int)
    requires Inv(s) && IsRun(s, es) && IsUproc(a)
    ensures After(s, es).delays[a] == s.delays[a] + Sleeps(es, a)
    decreases |es|
  {
    hide Inv, Next, Enabled, Fits;
    if es != [] {
      NextKeeps(s, es[0]);
      NextCounts(s, es[0], a);
      DelaysCounted(Next(s, es[0]), es[1..], a);
    }
  }

  // The daemon does exactly one V for each time that a process went to sleep, but for the sleep that it
  // is still in; its private semaphore never rises above 0.
  lemma OneWakeupPerDelay(now: nat, es: seq<Event>, a: int)
    requires IsUproc(a) && (InitialInv(now); IsRun(Initial(now), es))
    ensures Inv(Initial(now))
    ensures
      var s := After(Initial(now), es);
      s.wakeups[a] + (if s.stage[a].Asleep? then 1 else 0) == Sleeps(es, a) &&
          s.privateSem[a] == if s.stage[a].Asleep? then -1 else 0
  {
    hide Excluded, Recorded, Cast;
    InitialInv(now);
    DelaysCounted(Initial(now), es, a);
  }

  // ---------------------------------------------------------------------- descriptors

  // The branch that terminates a caller for want of a descriptor is never taken: only a negative delay
  // terminates its caller.
  lemma DescriptorAtHand(s: State, e: Event, a: int)
    requires Inv(s) && Enabled(s, e) && Fits(s, e) && IsUproc(a)
    ensures e == Enroll(a) ==> s.free > 0
    ensures Next(s, e).stage[a].Terminated? <==> s.stage[a].Terminated? || exists secs :: secs < 0 && e == Call(a, secs)
  {
    hide Excluded, Recorded, Paired;
    Defined(s);
    match e
    case Enroll(b) => EnrollDefined(s, b);
    case Inspect => InspectStep(s, a);
    case _ =>
  }

  // ------------------------------------------------------------------------- a round

  // What the daemon has passed over in this round was not due at time t.
  predicate Swept(s: State, t: int) {
    && s.stage[DAEMON].Scanning? && s.stage[DAEMON].i <= |s.adl| && t <= s.now
    && forall k :: 0 <= k < s.stage[DAEMON].i ==> s.adl[k].wake > t
  }

  predicate AllLater(s: State, t: int) {
    forall k :: 0 <= k < |s.adl| ==> s.adl[k].wake > t
  }

  lemma StepSweeps(s: State, e: Event, t: int)
    requires Inv(s) && Swept(s, t) && Enabled(s, e) && Fits(s, e)
    ensures Inv(Next(s, e))
    ensures
      var s' := Next(s, e);
      if s'.stage[DAEMON].Scanning? then Swept(s', t) else e == Inspect && s'.stage[DAEMON] == Resting && AllLater(s', t)
  {
    hide Recorded, Paired, Cast;
    NextKeeps(s, e);
    Defined(s);
    Alone(s, DAEMON);
    assert !e.Enroll? && !e.Sleep?;
    ScanFacts(s);
    assert DAEMON !in s.waiting;
  }

  ghost predicate InRound(s: State, es: seq<Event>)
    requires Inv(s) && IsRun(s, es)
    decreases |es|
  {
    es != [] ==> s.stage[DAEMON].Scanning? && (NextKeeps(s, es[0]); InRound(Next(s, es[0]), es[1..]))
  }

  lemma {:induction false} RoundSweeps(s: State, es: seq<Event>, t: int)
    requires Inv(s) && IsRun(s, es) && InRound(s, es) && Swept(s, t)
    ensures
      var s' := After(s, es);
      if s'.stage[DAEMON].Scanning? then Swept(s', t) else AllLater(s', t)
    decreases |es|
  {
    hide Inv, Next, Enabled, Fits, Swept;
    if es != [] {
      var s1 := Next(s, es[0]);
      NextKeeps(s, es[0]);
      StepSweeps(s, es[0], t);
      if s1.stage[DAEMON].Scanning? {
        RoundSweeps(s1, es[1..], t);
      } else {
        assert InRound(s1, es[1..]);
        assert es[1..] == [];
      }
    } else {
      SweptScans(s, t);
    }
  }

  lemma SweptScans(s: State, t: int)
    requires Swept(s, t)
    ensures s.stage[DAEMON].Scanning?
  {
  }

  // A round of the daemon leaves nobody on the list who was due when it started, though other
  // processes run, call SYS18 and queue up for the list meanwhile.
  lemma RoundWakesTheDue(s: State, es: seq<Event>)
    requires Inv(s) && IsRun(s, es) && InRound(s, es) && s.stage[DAEMON] == Scanning(0)
    requires After(s, es).stage[DAEMON] == Resting
    ensures forall a :: IsUproc(a) && Delayed(After(s, es).stage[a]) ==>
      exists k :: 0 <= k < |After(s, es).adl| && After(s, es).adl[k].asid == a && After(s, es).adl[k].wake > s.now
  {
    hide Excluded, Paired, Cast, IsRun, InRound, After;
    RoundSweeps(s, es, s.now);
    var s' := After(s, es);
    forall a | IsUproc(a) && Delayed(s'.stage[a])
      ensures exists k :: 0 <= k < |s'.adl| && s'.adl[k].asid == a && s'.adl[k].wake > s.now
    {
      var k :| 0 <= k < |s'.adl| && s'.adl[k].asid == a;
      assert s'.adl[k].wake > s.now;
    }
  }

  // What happened to the processes in a round: those woken are awake and have had one wake-up each, and
  // only who queued for the list has moved on otherwise.
  ghost predicate RoundWoke(s: State, s': State, woken: seq<int>) {
    forall a {:trigger s'.stage[a]} {:trigger s'.wakeups[a]} :: IsUproc(a) ==>
      && s'.wakeups[a] == s.wakeups[a] + (if a in woken then 1 else 0)
      && (if a in woken then s'.stage[a] == Awake else s'.stage[a] == s.stage[a] || InQueue(s.stage[a]))
  }

  // The linked-list round of DelayList.Pass is a run of the protocol: with nobody interfering, the round
  // that reads clock(k), clock(k + 1), ... leaves the list that Pass leaves and wakes whom Pass wakes.
  lemma {:induction false} RoundIsPass(s: State, clock: nat -> int, k: nat) returns (es: seq<Event>)
    requires Inv(s) && s.stage[DAEMON].Scanning? && s.now <= clock(k)
    requires forall l, m :: l <= m ==> clock(l) <= clock(m)
    ensures IsRun(s, es) && After(s, es).stage[DAEMON] == Resting
    ensures s.stage[DAEMON].i <= |s.adl|
    ensures After(s, es).adl == s.adl[..s.stage[DAEMON].i] + Survivors(s.adl[s.stage[DAEMON].i..], clock, k)
    ensures RoundWoke(s, After(s, es), Woken(s.adl[s.stage[DAEMON].i..], clock, k))
    decreases |s.adl| - s.stage[DAEMON].i
  {
    hide Inv, Next, Survivors, Woken, Cut, RoundWoke;
    Defined(s);
    var i := s.stage[DAEMON].i;
    if i == |s.adl| {
      es := [Inspect];
      LastInspection(s);
      PassEnds(s.adl, clock, i, k);
      NobodyWoken(s, clock, k);
      RunOne(s, Inspect);
    } else {
      var s1 := Next(s, Elapse(clock(k) - s.now));
      NextKeeps(s, Elapse(clock(k) - s.now));
      TimeOnly(s, clock(k) - s.now);
      var s2 := Next(s1, Inspect);
      NextKeeps(s1, Inspect);
      OneInspection(s1);
      PassInspects(s.adl, clock, i, k);
      var rest := RoundIsPass(s2, clock, k + 1);
      es := [Elapse(clock(k) - s.now), Inspect] + rest;
      assert es[1..] == [Inspect] + rest && es[1..][1..] == rest;
      JoinWoken(s, s2, After(s2, rest), clock, k);
    }
  }

  lemma NobodyWoken(s: State, clock: nat -> int, k: nat)
    requires Inv(s) && s.stage[DAEMON].Scanning? && s.stage[DAEMON].i == |s.adl|
    ensures RoundWoke(s, Next(s, Inspect), Woken(s.adl[s.stage[DAEMON].i..], clock, k))
  {
    hide Inv;
    LastInspection(s);
  }

  // The first inspection and the others together.
  lemma JoinWoken(s: State, s2: State, s': State, clock: nat -> int, k: nat)
    requires Inv(s) && s.stage[DAEMON].Scanning? && s.stage[DAEMON].i < |s.adl|
    requires
      var i := s.stage[DAEMON].i;
      if clock(k) >= s.adl[i].wake then
        && s2.stage == s.stage[s.adl[i].asid := Awake]
        && s2.wakeups == s.wakeups[s.adl[i].asid := s.wakeups[s.adl[i].asid] + 1]
        && RoundWoke(s2, s', Woken(Cut(s.adl, i)[i..], clock, k + 1))
      else
        && s2.stage == s.stage[DAEMON := Scanning(i + 1)] && s2.wakeups == s.wakeups
        && RoundWoke(s2, s', Woken(s.adl[i + 1..], clock, k + 1))
    ensures RoundWoke(s, s', Woken(s.adl[s.stage[DAEMON].i..], clock, k))
  {
    hide Inv, Woken, Cut, RoundWoke;
    var i := s.stage[DAEMON].i;
    ScanFacts(s);
    PassInspects(s.adl, clock, i, k);
    CutRest(s.adl, i);
    if clock(k) >= s.adl[i].wake {
      ListedOnce(s, clock, k);
      FirstWoken(s, s2, s', s.adl[i].asid, Woken(s.adl[i + 1..], clock, k + 1));
    } else {
      FirstPassed(s, s2, s', Woken(s.adl[i + 1..], clock, k + 1));
    }
  }

  lemma FirstWoken(s: State, s2: State, s': State, a: int, rest: seq<int>)
    requires IsUproc(a) && a !in rest && RoundWoke(s2, s', rest)
    requires s2.stage == s.stage[a := Awake] && s2.wakeups == s.wakeups[a := s.wakeups[a] + 1]
    ensures RoundWoke(s, s', [a] + rest)
  {
    forall b | IsUproc(b)
      ensures s2.stage[b] == (if b == a then Awake else s.stage[b]) && (b in [a] + rest <==> b == a || b in rest)
    {
    }
  }

  lemma FirstPassed(s: State, s2: State, s': State, rest: seq<int>)
    requires RoundWoke(s2, s', rest) && s2.wakeups == s.wakeups && s2.stage == s.stage[DAEMON := s2.stage[DAEMON]]
    ensures RoundWoke(s, s', rest)
  {
    assert forall b :: IsUproc(b) ==> s2.stage[b] == s.stage[b];
  }

  // Nobody is on the list twice.
  lemma ListedOnce(s: State, clock: nat -> int, k: nat)
    requires Inv(s) && s.stage[DAEMON].Scanning? && s.stage[DAEMON].i < |s.adl|
    ensures s.adl[s.stage[DAEMON].i].asid !in Woken(s.adl[s.stage[DAEMON].i + 1..], clock, k + 1)
  {
    hide Excluded, Paired, Cast, Woken;
    var i := s.stage[DAEMON].i;
    var rest := s.adl[i + 1..];
    assert forall j :: 0 <= j < |rest| ==> rest[j] == s.adl[i + 1 + j] && rest[j].asid != s.adl[i].asid;
    WokenAreListed(rest, clock, k + 1);
  }

  lemma CutRest(adl: seq<Entry>, i: nat)
    requires i < |adl|
    ensures Cut(adl, i)[i..] == adl[i + 1..]
  {
  }

  lemma RunOne(s: State, e: Event)
    requires Inv(s) && Enabled(s, e) && Fits(s, e)
    ensures Inv(Next(s, e)) && IsRun(s, [e]) && After(s, [e]) == Next(s, e)
  {
    hide Inv, Next, Enabled, Fits;
    NextKeeps(s, e);
    assert [e][1..] == [];
    assert IsRun(Next(s, e), []);
  }

  lemma TimeOnly(s: State, time: nat)
    requires Inv(s)
    ensures Next(s, Elapse(time)) == s.(now := s.now + time)
  {
    hide Inv;
  }

  lemma LastInspection(s: State)
    requires Inv(s) && s.stage[DAEMON].Scanning? && s.stage[DAEMON].i == |s.adl|
    ensures Next(s, Inspect).stage[DAEMON] == Resting && Next(s, Inspect).adl == s.adl
    ensures Next(s, Inspect).wakeups == s.wakeups
    ensures forall a :: IsUproc(a) ==> Next(s, Inspect).stage[a] == s.stage[a] || InQueue(s.stage[a])
  {
    hide Recorded, Paired, Cast;
    Defined(s);
    assert DAEMON !in s.waiting;
  }

  lemma OneInspection(s: State)
    requires Inv(s) && s.stage[DAEMON].Scanning? && s.stage[DAEMON].i < |s.adl|
    ensures
      var s', i := Next(s, Inspect), s.stage[DAEMON].i;
      && s'.now == s.now && s.adl[i].wake != DUMMYTAILVAL && IsUproc(s.adl[i].asid)
      && if s.now >= s.adl[i].wake then
           && s'.stage == s.stage[s.adl[i].asid := Awake] && s'.adl == Cut(s.adl, i)
           && s'.wakeups == s.wakeups[s.adl[i].asid := s.wakeups[s.adl[i].asid] + 1]
         else s'.stage == s.stage[DAEMON := Scanning(i + 1)] && s'.adl == s.adl && s'.wakeups == s.wakeups
  {
    hide Excluded, Recorded, Paired, Cast, Cut;
    Defined(s);
    ScanFacts(s);
    if s.now >= s.adl[s.stage[DAEMON].i].wake {
      WakeKeeps(s);
    }
  }
}
