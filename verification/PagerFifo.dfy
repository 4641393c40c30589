// Page replacement is first in, first out over whole runs (phase3/vmSupport.c:64-73, 111-118, 157-161).
module PagerFifo {
  import opened Constants
  import opened PagerState
  import opened PagerInvariant
  import opened PagerRefinement

  // The number, counted from 1, of the last of the first n choices that took frame f; 0 for none.
  function Taken(n: nat, f: nat): nat
    requires f < FRAMES
  {
    if n <= f then 0 else n - (n - 1 - f) % FRAMES
  }

  // A frame is occupied from the first fault that takes it on, once that fault has recorded it.
  ghost predicate Filled(s: State) {
    forall f {:trigger s.table[f]} :: 0 <= f < FRAMES ==>
      (s.victim <= f ==> !Occupied(s, f) && !InHand(s, f)) && (s.victim > f && !InHand(s, f) ==> Occupied(s, f))
  }

  lemma TakenNext(n: nat, f: nat)
    requires f < FRAMES
    ensures Taken(n, f) <= n && (Taken(n, f) == 0 <==> n <= f)
    ensures n % FRAMES == f ==> Taken(n + 1, f) == n + 1 && (n > f ==> n == Taken(n, f) + FRAMES - 1)
    ensures n % FRAMES != f ==> Taken(n + 1, f) == Taken(n, f)
    ensures n > f ==> n < Taken(n, f) + FRAMES
  {
  }

  lemma OldestIsNext(n: nat, f: nat)
    requires f < FRAMES
    ensures Taken(n, n % FRAMES) <= Taken(n, f)
  {
    TakenNext(n, n % FRAMES);
    TakenNext(n, f);
  }

  // An unoccupied frame is used as long as there is one; then the page loaded longest ago has to go.
  lemma VictimIsOldest(s: State, a: int)
    requires Inv(s) && Filled(s) && IsAsid(a) && s.phase[a].Holding?
    ensures (exists f :: 0 <= f < FRAMES && !Occupied(s, f)) ==> !Occupied(s, s.victim % FRAMES)
    ensures forall f :: 0 <= f < FRAMES ==> Taken(s.victim, s.victim % FRAMES) <= Taken(s.victim, f)
  {
    hide Mapped, Framed, Writable, Current, Awaited;
    Alone(s, a);
    if f :| 0 <= f < FRAMES && !Occupied(s, f) {
      assert s.table[f] == s.table[f] && !InHand(s, f);
      assert s.victim <= f;
      assert s.table[s.victim] == s.table[s.victim];
    }
    forall f | 0 <= f < FRAMES
      ensures Taken(s.victim, s.victim % FRAMES) <= Taken(s.victim, f)
    {
      OldestIsNext(s.victim, f);
    }
  }

  lemma InitialFilled(flash: seq<seq<Page>>)
    requires |flash| == UPROCMAX && forall i :: 0 <= i < UPROCMAX ==> |flash[i]| == PAGETABLESIZE
    ensures Filled(Initial(flash))
  {
    var s := Initial(flash);
    forall f | 0 <= f < FRAMES
      ensures !Occupied(s, f) && !InHand(s, f)
    {
      assert s.table[f] == SwapFrame(UNOCCUPIED, 0, NoPte);
    }
  }

  lemma FilledSame(s: State, s': State)
    requires Filled(s) && s'.table == s.table && s'.victim == s.victim && forall f :: InHand(s', f) <==> InHand(s, f)
    ensures Filled(s')
  {
    forall f | 0 <= f < FRAMES
      ensures s'.victim <= f ==> !Occupied(s', f) && !InHand(s', f)
      ensures s'.victim > f && !InHand(s', f) ==> Occupied(s', f)
    {
      assert s'.table[f] == s.table[f];
    }
  }

  lemma SamePhase(s: State, s': State)
    requires s'.phase == s.phase
    ensures forall f :: InHand(s', f) <==> InHand(s, f)
  {
  }

  lemma NextFilled(s: State, e: Event)
    requires Inv(s) && Filled(s) && Enabled(s, e)
    ensures Inv(Next(s, e)) && Filled(Next(s, e))
  {
    hide Inv, Filled, Step;
    NextKeeps(s, e);
    InvExcluded(s);
    match e
    case Fault(a, j) => FaultExcluded(s, a, j); FilledSame(s, Next(s, e));
    case Advance(a) => StepIsNext(s, e); StepFilled(s, a);
    case _ => SamePhase(s, Next(s, e)); FilledSame(s, Next(s, e));
  }

  lemma InvExcluded(s: State)
    requires Inv(s)
    ensures Excluded(s)
  {
  }

  lemma StepFilled(s: State, a: int)
    requires Inv(s) && Filled(s) && Enabled(s, Advance(a))
    ensures AdvanceDefined(s, a) && Filled(Step(s, a))
  {
    hide Mapped, Framed, Writable, Current, Excluded;
    AdvanceIsDefined(s, a);
    var s' := Step(s, a);
    if s.phase[a].Faulted? {
      AcquireExcluded(s, a);
      FilledSame(s, s');
    } else if s.phase[a].Published? {
      ReleaseExcluded(s, a);
      FilledSame(s, s');
    } else {
      InsideExcluded(s, a, s'.phase[a]);
      SamePhase(SetPhase(s, a, s'.phase[a]), s');
      InsideFilled(s, s', a);
    }
  }

  // The choice takes the next frame in hand; every other step leaves the frame in hand occupied or in hand.
  lemma InsideFilled(s: State, s': State, a: int)
    requires Filled(s) && IsAsid(a)
    requires (forall f :: InHand(s', f) <==> Handles(s'.phase[a], f)) && (forall f :: InHand(s, f) <==>
        Handles(s.phase[a], f))
    requires forall f :: 0 <= f < FRAMES && !Handles(s'.phase[a], f) ==> s'.table[f] == s.table[f]
    requires forall f :: 0 <= f < FRAMES && Handles(s.phase[a], f) && !Handles(s'.phase[a], f) ==> Occupied(s', f)
    requires
      if s.phase[a].Holding? then s'.victim == s.victim + 1 && forall f :: 0 <= f < FRAMES ==>
          (Handles(s'.phase[a], f) <==> f == s.victim % FRAMES)
      else s'.victim == s.victim && forall f :: 0 <= f < FRAMES && Handles(s'.phase[a], f) ==> Handles(s.phase[a], f)
    ensures Filled(s')
  {
    hide Handles;
    forall f | 0 <= f < FRAMES
      ensures s'.victim <= f ==> !Occupied(s', f) && !InHand(s', f)
      ensures s'.victim > f && !InHand(s', f) ==> Occupied(s', f)
    {
      assert s.table[f] == s.table[f];
    }
  }

  // --------------------------------------------------------------------------- survival

  // A page stays in its frame till the frame is chosen again, at the eighth choice after the one that
  // loaded it; that choice makes it absent.
  lemma StepSurvival(s: State, e: Event, a: int, j: int)
    requires Inv(s) && Filled(s) && Enabled(s, e) && IsPage(a, j) && Valid(Lo(s, a, j))
    ensures
      var s', f := Next(s, e), FrameOf(Lo(s, a, j));
      && 0 <= f < FRAMES && s'.victim >= s.victim
      && (s'.victim < Taken(s.victim, f) + FRAMES ==>
            Lo(s', a, j) == Lo(s, a, j) && Taken(s'.victim, f) == Taken(s.victim, f))
      && (s'.victim >= Taken(s.victim, f) + FRAMES ==> Absent(s', a, j))
  {
    hide Writable, Current, Excluded, Awaited;
    var s', f := Next(s, e), FrameOf(Lo(s, a, j));
    assert Names(s, f, a, j) && Occupied(s, f);
    assert !InHand(s, f) && s.victim > f;
    TakenNext(s.victim, f);
    if e.Advance? {
      StepIsNext(s, e);
      InvExcluded(s);
      if s.phase[e.a].Holding? {
        InvalidatedFields(Lo(s, a, j));
        AdvanceIsDefined(s, e.a);
        var g := s.victim % FRAMES;
        Alone(s, e.a);
        assert Occupied(s, g) && g != f ==> s.table[g].pte != Pte(a, j);
      } else {
        StepLo(s, e.a, a, j);
      }
    }
  }

  lemma StepLo(s: State, c: int, a: int, j: int)
    requires Inv(s) && Enabled(s, Advance(c)) && !s.phase[c].Holding? && IsPage(a, j) && Valid(Lo(s, a, j))
    ensures AdvanceDefined(s, c) && Step(s, c).victim == s.victim && Lo(Step(s, c), a, j) == Lo(s, a, j)
  {
    hide Excluded, Mapped, Framed, Writable, Current;
    AdvanceIsDefined(s, c);
    if s.phase[c].Recorded? {
      assert Absent(s, c, s.phase[c].j) && Names(s, s.phase[c].f, c, s.phase[c].j);
    }
  }

  // So a page survives the next seven faults, over any run.
  lemma {:induction false} PageSurvives(s: State, es: seq<Event>, a: int, j: int)
    requires Inv(s) && Filled(s) && IsRun(s, es) && IsPage(a, j) && Valid(Lo(s, a, j))
    ensures var s', f := After(s, es), FrameOf(Lo(s, a, j));
      && 0 <= f < FRAMES && s'.victim >= s.victim
      && (s'.victim < Taken(s.victim, f) + FRAMES ==>
            Lo(s', a, j) == Lo(s, a, j) && Taken(s'.victim, f) == Taken(s.victim, f))
    decreases |es|
  {
    hide Inv, Filled, Next, Enabled, Taken, FrameOf, Valid;
    FrameInPool(s, a, j);
    if es != [] {
      var s1 := Next(s, es[0]);
      NextKeeps(s, es[0]);
      NextFilled(s, es[0]);
      StepSurvival(s, es[0], a, j);
      if s1.victim < Taken(s.victim, FrameOf(Lo(s, a, j))) + FRAMES {
        PageSurvives(s1, es[1..], a, j);
      } else {
        VictimGrows(s1, es[1..]);
      }
    }
  }

  lemma FrameInPool(s: State, a: int, j: int)
    requires Inv(s) && IsPage(a, j) && Valid(Lo(s, a, j))
    ensures 0 <= FrameOf(Lo(s, a, j)) < FRAMES
  {
  }

  lemma {:induction false} VictimGrows(s: State, es: seq<Event>)
    requires Inv(s) && IsRun(s, es)
    ensures After(s, es).victim >= s.victim
    decreases |es|
  {
    hide Inv, Next, Enabled;
    if es != [] {
      NextKeeps(s, es[0]);
      NextVictim(s, es[0]);
      VictimGrows(Next(s, es[0]), es[1..]);
    }
  }

  lemma NextVictim(s: State, e: Event)
    requires Inv(s) && Enabled(s, e)
    ensures Next(s, e).victim == s.victim + if e.Advance? && s.phase[e.a].Holding? then 1 else 0
  {
    hide Inv;
    if e.Advance? {
      StepIsNext(s, e);
    }
  }
}
