// Page replacement in terms of loads: the frame being changed is the one chosen last, so the order of the
// choices is the order in which pages became valid (phase3/vmSupport.c:64-73, 111-118, 157-170).
module PagerLoads {
  import opened Constants
  import opened PagerState
  import opened PagerInvariant
  import opened PagerRefinement
  import opened PagerFifo

  // The frame in hand is the one chosen last.
  ghost predicate Latest(s: State) {
    forall f {:trigger InHand(s, f)} :: 0 <= f < FRAMES && InHand(s, f) ==> s.victim > 0 && f == (s.victim - 1) % FRAMES
  }

  // The event makes the page in frame f valid.
  predicate Publishes(s: State, e: Event, f: int) {
    e.Advance? && IsAsid(e.a) && s.phase[e.a].Recorded? && s.phase[e.a].f == f
  }

  predicate Chooses(s: State, e: Event) {
    e.Advance? && IsAsid(e.a) && s.phase[e.a].Holding?
  }

  // A choice takes the next frame in hand, while none is; a publication gives it back; no other event
  // changes what is in hand.
  lemma NextInHand(s: State, e: Event)
    requires Inv(s) && Enabled(s, e)
    ensures
      var s' := Next(s, e);
      if Chooses(s, e) then
        s'.victim == s.victim + 1 && forall f :: !InHand(s, f) && (InHand(s', f) <==> f == s.victim % FRAMES)
      else
        s'.victim == s.victim && forall f :: InHand(s', f) <==> InHand(s, f) && !Publishes(s, e, f)
    ensures forall f :: Publishes(s, e, f) ==> InHand(s, f) && forall g :: InHand(s, g) ==> g == f
  {
    hide Mapped, Framed, Writable, Current, Excluded, Awaited, Step;
    match e
    case Fault(a, j) => FaultExcluded(s, a, j);
    case Advance(a) => StepIsNext(s, e); StepInHand(s, a);
    case _ => SamePhase(s, Next(s, e));
  }

  lemma StepInHand(s: State, a: int)
    requires Inv(s) && Enabled(s, Advance(a))
    ensures AdvanceDefined(s, a)
    ensures
      var s' := Step(s, a);
      if s.phase[a].Holding? then
        s'.victim == s.victim + 1 && forall f :: !InHand(s, f) && (InHand(s', f) <==> f == s.victim % FRAMES)
      else
        s'.victim == s.victim &&
        forall f :: InHand(s', f) <==> InHand(s, f) && !(s.phase[a].Recorded? && s.phase[a].f == f)
    ensures s.phase[a].Recorded? ==> InHand(s, s.phase[a].f) && forall g :: InHand(s, g) ==> g == s.phase[a].f
  {
    hide Mapped, Framed, Writable, Current, Excluded, Awaited;
    AdvanceIsDefined(s, a);
    var s' := Step(s, a);
    if s.phase[a].Faulted? {
      AcquireExcluded(s, a);
    } else if s.phase[a].Published? {
      ReleaseExcluded(s, a);
    } else {
      InsideExcluded(s, a, s'.phase[a]);
      SamePhase(SetPhase(s, a, s'.phase[a]), s');
    }
  }

  lemma NextLatest(s: State, e: Event)
    requires Inv(s) && Latest(s) && Enabled(s, e)
    ensures Latest(Next(s, e))
  {
    hide Inv, InHand, Next, Enabled, Publishes, Chooses;
    NextInHand(s, e);
  }

  lemma InitialLatest(flash: seq<seq<Page>>)
    requires |flash| == UPROCMAX && forall i :: 0 <= i < UPROCMAX ==> |flash[i]| == PAGETABLESIZE
    ensures Latest(Initial(flash))
  {
    var s := Initial(flash);
    forall f
      ensures !InHand(s, f)
    {
      assert forall a :: IsAsid(a) ==> s.phase[a] == Running;
    }
  }

  // ---------------------------------------------------------------------- load times

  // The time of the last publication in each frame, events being counted by time.
  function Reloaded(s: State, e: Event, loads: seq<int>, time: int): seq<int> {
    if e.Advance? && IsAsid(e.a) && s.phase[e.a].Recorded? && 0 <= s.phase[e.a].f < |loads|
    then loads[s.phase[e.a].f := time]
    else loads
  }

  ghost function LoadTimes(s: State, es: seq<Event>, loads: seq<int>, time: int): (loads': seq<int>)
    requires Inv(s) && IsRun(s, es)
    ensures |loads'| == |loads|
    decreases |es|
  {
    if es == [] then loads
    else (NextKeeps(s, es[0]); LoadTimes(Next(s, es[0]), es[1..], Reloaded(s, es[0], loads, time), time + 1))
  }

  // a frame that has been taken and holds its page
  ghost predicate Stands(s: State, f: int) {
    0 <= f < FRAMES && s.victim > f && !InHand(s, f)
  }

  // Of two standing frames, the one chosen earlier was loaded earlier.
  ghost predicate Ordered(s: State, loads: seq<int>, time: int) {
    && |loads| == FRAMES
    && (forall f {:trigger loads[f]} :: 0 <= f < FRAMES ==> loads[f] < time)
    && (forall f, g {:trigger Stands(s, f), Stands(s, g)} ::
          Stands(s, f) && Stands(s, g) && Taken(s.victim, f) < Taken(s.victim, g) ==> loads[f] < loads[g])
  }

  lemma NextOrdered(s: State, e: Event, loads: seq<int>, time: int)
    requires Inv(s) && Latest(s) && Enabled(s, e) && Ordered(s, loads, time)
    ensures Ordered(Next(s, e), Reloaded(s, e, loads, time), time + 1)
  {
    hide Inv, InHand, Next, Enabled, Taken;
    NextInHand(s, e);
    var s', loads' := Next(s, e), Reloaded(s, e, loads, time);
    forall f, g | Stands(s', f) && Stands(s', g) && Taken(s'.victim, f) < Taken(s'.victim, g)
      ensures loads'[f] < loads'[g]
    {
      TakenNext(s.victim, f);
      TakenNext(s.victim, g);
      if Chooses(s, e) {
        assert Stands(s, f) && Stands(s, g);
      } else if Publishes(s, e, f) {
        LastTaken(s, f, g);
      } else {
        assert Stands(s, f);
        assert Publishes(s, e, g) || Stands(s, g);
      }
    }
  }

  // No frame was chosen after the one in hand.
  lemma LastTaken(s: State, f: int, g: int)
    requires Latest(s) && 0 <= f < FRAMES && 0 <= g < FRAMES && InHand(s, f)
    ensures Taken(s.victim, g) <= Taken(s.victim, f) == s.victim
  {
    hide InHand;
    TakenNext(s.victim - 1, f);
    TakenNext(s.victim, g);
  }

  lemma {:induction false} RunOrdered(s: State, es: seq<Event>, loads: seq<int>, time: int)
    requires Inv(s) && Filled(s) && Latest(s) && Ordered(s, loads, time) && IsRun(s, es)
    ensures Filled(After(s, es)) && Latest(After(s, es))
    ensures Ordered(After(s, es), LoadTimes(s, es, loads, time), time + |es|)
    decreases |es|
  {
    hide Inv, Filled, Latest, Ordered, Next, Enabled, Reloaded;
    if es != [] {
      NextKeeps(s, es[0]);
      NextFilled(s, es[0]);
      NextLatest(s, es[0]);
      NextOrdered(s, es[0], loads, time);
      RunOrdered(Next(s, es[0]), es[1..], Reloaded(s, es[0], loads, time), time + 1);
    }
  }

  // nothing loaded yet
  function NoLoads(): seq<int> {
    seq(FRAMES, f => -1)
  }

  // First in, first out: after any run from the initial tables, the frame to be chosen is unoccupied if any
  // is, and otherwise its page became valid before the page of every other frame.
  lemma VictimLoadedFirst(flash: seq<seq<Page>>, es: seq<Event>, a: int)
    requires |flash| == UPROCMAX && forall i :: 0 <= i < UPROCMAX ==> |flash[i]| == PAGETABLESIZE
    requires (InitialInv(flash); IsRun(Initial(flash), es) && IsAsid(a) && After(Initial(flash), es).phase[a].Holding?)
    ensures Inv(Initial(flash))
    ensures
      var s, loads := After(Initial(flash), es), LoadTimes(Initial(flash), es, NoLoads(), 0);
      var f := s.victim % FRAMES;
      if exists g :: 0 <= g < FRAMES && !Occupied(s, g) then !Occupied(s, f)
      else |loads| == FRAMES && forall g :: 0 <= g < FRAMES && g != f ==> loads[f] < loads[g]
  {
    hide Inv, IsRun, After, LoadTimes, Filled, Latest;
    InitialInv(flash);
    InitialFilled(flash);
    InitialLatest(flash);
    var s0 := Initial(flash);
    assert Ordered(s0, NoLoads(), 0);
    RunOrdered(s0, es, NoLoads(), 0);
    var s := After(s0, es);
    VictimIsOldest(s, a);
    if !exists g :: 0 <= g < FRAMES && !Occupied(s, g) {
      AllStand(s, a);
      var f, loads := s.victim % FRAMES, LoadTimes(s0, es, NoLoads(), 0);
      assert Stands(s, FRAMES - 1) && Stands(s, f) && Ordered(s, loads, 0 + |es|);
      forall g | 0 <= g < FRAMES && g != f
        ensures loads[f] < loads[g]
      {
        assert Stands(s, g);
        OldestStrictly(s.victim, g);
      }
    }
  }

  lemma AllStand(s: State, a: int)
    requires Inv(s) && Filled(s) && IsAsid(a) && s.phase[a].Holding? && forall g :: 0 <= g < FRAMES ==> Occupied(s, g)
    ensures forall g :: 0 <= g < FRAMES ==> Stands(s, g)
  {
    hide Mapped, Framed, Writable, Current, Awaited;
    Alone(s, a);
    forall g | 0 <= g < FRAMES
      ensures Stands(s, g)
    {
      assert s.table[g] == s.table[g] && Occupied(s, g);
    }
  }

  lemma OldestStrictly(n: nat, g: nat)
    requires g < FRAMES && n > g && g != n % FRAMES && n >= FRAMES
    ensures Taken(n, n % FRAMES) < Taken(n, g)
  {
    hide Taken;
    TakenNext(n, n % FRAMES);
    TakenNext(n, g);
    TakenLast(n, g);
  }

  // Among the occupied frames, only the next one was taken FRAMES - 1 choices before the last.
  lemma TakenLast(n: nat, g: nat)
    requires g < FRAMES && n > g && g != n % FRAMES
    ensures Taken(n, g) + FRAMES > n + 1
  {
    var k, r := (n - 1 - g) / 8, (n - 1 - g) % 8;
    assert n == 8 * k + r + 1 + g;
  }

  // ------------------------------------------------------------- survival of a page just loaded

  // A page that becomes valid stays in its frame as long as fewer than FRAMES further frames are chosen, in
  // any run: it survives the next seven faults.
  lemma LoadedPageSurvives(s: State, a: int, es: seq<Event>)
    requires Inv(s) && Filled(s) && Latest(s) && IsAsid(a) && s.phase[a].Recorded?
    requires (NextKeeps(s, Advance(a)); IsRun(Next(s, Advance(a)), es))
    ensures Inv(Next(s, Advance(a))) && IsPage(a, s.phase[a].j) && 0 <= s.phase[a].f < FRAMES
    ensures
      var s1 := Next(s, Advance(a));
      && Lo(s1, a, s.phase[a].j) == Resident(s.phase[a].f) && s1.victim == s.victim
      && (After(s1, es).victim < s.victim + FRAMES ==> Lo(After(s1, es), a, s.phase[a].j) == Resident(s.phase[a].f))
  {
    hide Filled, IsRun, After, Latest, Excluded, Mapped, Framed, Writable, Current;
    var j, f := s.phase[a].j, s.phase[a].f;
    var s1 := Next(s, Advance(a));
    NextKeeps(s, Advance(a));
    NextFilled(s, Advance(a));
    PublishedEntry(s, a);
    ResidentFields(f);
    NextInHand(s, Advance(a));
    assert Publishes(s, Advance(a), f);
    LastTaken(s, f, f);
    PageSurvives(s1, es, a, j);
  }

  lemma PublishedEntry(s: State, a: int)
    requires Inv(s) && IsAsid(a) && s.phase[a].Recorded?
    ensures IsPage(a, s.phase[a].j) && 0 <= s.phase[a].f < FRAMES
    ensures Lo(Next(s, Advance(a)), a, s.phase[a].j) == Resident(s.phase[a].f) && Next(s, Advance(a)).victim == s.victim
  {
    hide Excluded, Mapped, Framed, Writable, Current;
    AdvanceIsDefined(s, a);
    StepIsNext(s, Advance(a));
    assert Absent(s, a, s.phase[a].j) && Names(s, s.phase[a].f, a, s.phase[a].j);
  }
}
