// Who goes on in the pager: the swap pool semaphore is first come, first served, and every process goes
// through the pager step by step (phase3/vmSupport.c:105-173, phase2/exceptions.c:461-508).
module PagerQueue {
  import opened Constants
  import opened Queues
  import opened PagerState
  import opened PagerInvariant
  import opened PagerRefinement
  import opened Semaphores

  function SwapPool(s: State): View {
    View(s.sem, s.waiting)
  }

  // the process does its P, and its V
  predicate Acquires(s: State, e: Event) {
    e.Advance? && IsAsid(e.a) && s.phase[e.a].Faulted?
  }

  predicate Releases(s: State, e: Event) {
    e.Advance? && IsAsid(e.a) && s.phase[e.a].Published?
  }

  // The P and the V of the pager are those of the nucleus; nothing else touches the semaphore.
  lemma NextSwapPool(s: State, e: Event)
    requires Inv(s) && Enabled(s, e)
    ensures
      SwapPool(Next(s, e)) ==
        if Acquires(s, e) then Down(SwapPool(s), e.a)
        else if Releases(s, e) then Up(SwapPool(s))
        else SwapPool(s)
  {
    hide Mapped, Framed, Writable, Current, Awaited;
    if e.Advance? {
      StepIsNext(s, e);
      if Releases(s, e) {
        assert Critical(s.phase[e.a]);
      }
    }
  }

  // Whoever is first in the queue at a V goes on; the process that makes the step goes on to its next phase;
  // nobody else moves.
  lemma NextPhase(s: State, e: Event, b: int)
    requires Inv(s) && Enabled(s, e) && IsAsid(b)
    ensures
      var p, p' := s.phase[b], Next(s, e).phase[b];
      if e == Advance(b) then
        match p
        case Faulted(j) => p' == if s.sem >= 1 then Holding(j) else Queued(j)
        case Holding(j) =>
          p' == if Occupied(s, s.victim % FRAMES) then Evicting(j, s.victim % FRAMES) else Loading(j, s.victim % FRAMES)
        case Evicting(j, f) => p' == Loading(j, f)
        case Loading(j, f) => p' == Loaded(j, f)
        case Loaded(j, f) => p' == Recorded(j, f)
        case Recorded(_, _) => p' == Published
        case _ => p' == Running
      else if e.Fault? && e.a == b then p' == Faulted(e.j)
      else if Releases(s, e) && s.waiting != [] && s.waiting[0] == b then p.Queued? && p' == Holding(p.j)
      else p' == p
  {
    hide Mapped, Framed, Writable, Current, Awaited;
    if e.Advance? {
      StepIsNext(s, e);
      if Releases(s, e) {
        assert Critical(s.phase[e.a]);
        assert s.waiting != [] ==> s.waiting[0] in s.waiting;
      }
    }
  }

  ghost function Served(s: State, es: seq<Event>): nat
    requires Inv(s) && IsRun(s, es)
    decreases |es|
  {
    if es == [] then 0
    else (if Releases(s, es[0]) then 1 else 0) + (NextKeeps(s, es[0]); Served(Next(s, es[0]), es[1..]))
  }

  // Nobody is passed over: who waits at position k is past its P at the (k + 1)-th V at the latest, whoever
  // faults meanwhile.
  lemma {:induction false} WaiterServed(s: State, es: seq<Event>, a: int, k: nat) returns (i: nat)
    requires Inv(s) && IsRun(s, es) && k < |s.waiting| && s.waiting[k] == a && Served(s, es) >= k + 1
    ensures i <= |es| && IsRun(s, es[..i]) && IsAsid(a) && After(s, es[..i]).phase[a].Holding?
    ensures Served(s, es[..i]) == k + 1
    decreases |es|
  {
    hide Inv, Next, Enabled, Releases;
    var e := es[0];
    NextKeeps(s, e);
    WaiterAdvances(s, e, a, k);
    var s1 := Next(s, e);
    if Releases(s, e) && k == 0 {
      i := 1;
      assert es[..1] == [e] && [e][1..] == [];
      assert IsRun(s1, []) && Served(s1, []) == 0 && After(s1, []) == s1;
    } else {
      i := WaiterServed(s1, es[1..], a, if Releases(s, e) then k - 1 else k);
      i := i + 1;
      assert es[..i][0] == e && es[..i][1..] == es[1..][..i - 1];
    }
  }

  // One step nearer at each V, and in its place otherwise.
  lemma WaiterAdvances(s: State, e: Event, a: int, k: nat)
    requires Inv(s) && Enabled(s, e) && k < |s.waiting| && s.waiting[k] == a
    ensures
      var s' := Next(s, e);
      && IsAsid(a) && s.phase[a].Queued?
      && if !Releases(s, e) then k < |s'.waiting| && s'.waiting[k] == a
         else if k > 0 then k - 1 < |s'.waiting| && s'.waiting[k - 1] == a
         else s'.phase[a] == Holding(s.phase[a].j)
  {
    hide Next;
    NextSwapPool(s, e);
    assert s.waiting[k] in s.waiting;
    NextPhase(s, e, a);
  }

  // ------------------------------------------------------------------- what the steps do to the tables

  // The TLB: a refill enters one entry, replacements drop one, and the two steps that change a page table
  // clear it, the choice of an occupied frame and the publication.
  lemma NextTlb(s: State, e: Event, hi: Word)
    requires Inv(s) && Enabled(s, e)
    ensures
      var s' := Next(s, e);
      if e.Advance? && (s.phase[e.a].Recorded? || (s.phase[e.a].Holding? && Occupied(s, s.victim % FRAMES))) then
        hi !in s'.tlb
      else if e.Forget? && e.hi == hi then hi !in s'.tlb
      else if e.Refill? && hi == EntryHi(e.a, RefillIndex(e.hi)) then
        hi in s'.tlb && s'.tlb[hi] == Lo(s, e.a, RefillIndex(e.hi))
      else (hi in s'.tlb <==> hi in s.tlb) && (hi in s.tlb ==> s'.tlb[hi] == s.tlb[hi])
  {
    hide Mapped, Framed, Writable, Current, Awaited, Excluded;
    if e.Advance? {
      StepIsNext(s, e);
    }
  }

  // The swap pool table changes in one step, at the chosen frame: it names the missing page there.
  lemma NextTable(s: State, e: Event, f: nat)
    requires Inv(s) && Enabled(s, e) && f < FRAMES
    ensures
      Next(s, e).table[f] ==
        if e.Advance? && s.phase[e.a].Loaded? && s.phase[e.a].f == f then
          SwapFrame(e.a, PageNumber(s.phase[e.a].j) % 0x100, Pte(e.a, s.phase[e.a].j))
        else s.table[f]
  {
    hide Mapped, Framed, Writable, Current, Excluded;
    if e.Advance? {
      StepIsNext(s, e);
      if s.phase[e.a].Loaded? {
        IndexOfPage(e.a, s.phase[e.a].j);
        MissingNumber(e.a, s.phase[e.a].j);
      }
    }
  }

  // A frame changes by a store of the process whose page it holds and by the read of the missing page's block.
  lemma NextFrame(s: State, e: Event, f: nat)
    requires Inv(s) && Enabled(s, e) && f < FRAMES
    ensures
      Next(s, e).frames[f] ==
        if e.Store? && s.table[f].pte == Pte(e.a, e.j) && Lo(s, e.a, e.j) == Resident(f) then s.frames[f][e.k := e.v]
        else if e.Advance? && s.phase[e.a].Loading? && s.phase[e.a].f == f then Block(s, e.a, s.phase[e.a].j)
        else s.frames[f]
  {
    hide Excluded, Writable, Framed;
    if e.Store? {
      AccessInPool(s, e.a, e.j);
      ResidentFields(f);
      assert Lo(s, e.a, e.j) == Resident(Accessed(s, e.a, e.j));
      if Accessed(s, e.a, e.j) != f {
        ResidentFields(Accessed(s, e.a, e.j));
      }
    } else if e.Advance? {
      StepIsNext(s, e);
      if s.phase[e.a].Loading? {
        IndexOfPage(e.a, s.phase[e.a].j);
      }
    }
  }

  // A block changes when the page in the chosen frame is written out.
  lemma NextBlock(s: State, e: Event, a: int, j: int)
    requires Inv(s) && Enabled(s, e) && IsPage(a, j)
    ensures
      Block(Next(s, e), a, j) ==
        if e.Advance? && Evicts(s, e.a, a, j) then s.frames[s.phase[e.a].f] else Block(s, a, j)
  {
    hide Excluded, Writable, Mapped, Current;
    if e.Advance? {
      StepIsNext(s, e);
      if s.phase[e.a].Evicting? {
        assert Occupied(s, s.phase[e.a].f);
      }
    }
  }

  // A page table entry loses V when its frame is chosen, and gets the frame, V and D when that is published.
  lemma NextLo(s: State, e: Event, a: int, j: int)
    requires Inv(s) && Enabled(s, e) && IsPage(a, j)
    ensures
      Lo(Next(s, e), a, j) ==
        if e.Advance? && s.phase[e.a].Holding? && Names(s, s.victim % FRAMES, a, j) then Lo(s, a, j) - 0x200
        else if e.Advance? && s.phase[e.a].Recorded? && e.a == a && s.phase[a].j == j then Resident(s.phase[a].f)
        else Lo(s, a, j)
  {
    hide Writable, Current;
    if e.Advance? {
      StepIsNext(s, e);
      AdvanceIsDefined(s, e.a);
      if s.phase[e.a].Holding? {
        Alone(s, e.a);
        ResidentFields(s.victim % FRAMES);
        assert Occupied(s, s.victim % FRAMES) ==> !InHand(s, s.victim % FRAMES);
      } else if s.phase[e.a].Recorded? {
        assert Names(s, s.phase[e.a].f, e.a, s.phase[e.a].j);
      }
    }
  }

  // The mask leaves the pager the lowest eight bits of the page number.
  lemma MissingNumber(a: int, j: int)
    requires IsPage(a, j)
    ensures MissingVpn(EntryHi(a, j)) == PageNumber(j) % 0x100
  {
    var v := PageNumber(j);
    assert EntryHi(a, j) == v / 0x100 * 0x10_0000 + (v % 0x100 * 0x1000 + a * 0x40);
  }

  // After the refill of a valid page, an access to it goes through.
  lemma RefillTranslates(s: State, a: int, j: int)
    requires Inv(s) && IsPage(a, j) && Enabled(s, Refill(a, EntryHi(a, j))) && Valid(Lo(s, a, j))
    ensures Inv(Next(s, Refill(a, EntryHi(a, j)))) && Translates(Next(s, Refill(a, EntryHi(a, j))), a, j)
    ensures forall k: nat :: k < PAGEWORDS ==> Enabled(Next(s, Refill(a, EntryHi(a, j))), Load(a, j, k))
  {
    hide Inv;
    NextKeeps(s, Refill(a, EntryHi(a, j)));
    IndexOfPage(a, j);
  }
}
