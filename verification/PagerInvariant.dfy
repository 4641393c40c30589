// What the swap pool semaphore, the tables, the TLB and the frames keep to while any number of
// processes fault, and that every step of the pager keeps it.
module PagerInvariant {
  import opened Constants
  import opened Queues
  import opened PagerState

  // --------------------------------------------------------------- the swap pool semaphore

  predicate Critical(p: Phase) {
    !p.Running? && !p.Faulted? && !p.Queued?
  }

  ghost predicate Held(s: State) {
    exists a :: IsAsid(a) && Critical(s.phase[a])
  }

  // One process at most is past the P; the others wait in a queue as long as the semaphore is negative.
  ghost predicate Excluded(s: State) {
    && (forall a, b :: IsAsid(a) && IsAsid(b) && Critical(s.phase[a]) && Critical(s.phase[b]) ==> a == b)
    && s.sem == (if Held(s) then 0 else 1) - |s.waiting|
    && (s.waiting != [] ==> Held(s))
    && Distinct(s.waiting)
    && (forall a :: a in s.waiting <==> IsAsid(a) && s.phase[a].Queued?)
  }

  // -------------------------------------------------------------------------- the tables

  predicate Absent(s: State, a: int, j: int) {
    IsPage(a, j) && !Valid(Lo(s, a, j))
  }

  // the swap pool entry f is for page j of a
  predicate Names(s: State, f: nat, a: int, j: int)
    requires f < FRAMES
  {
    s.table[f].asid == a && s.table[f].vpn % PAGETABLESIZE == j && s.table[f].pte == Pte(a, j)
  }

  // the process is changing what frame f holds
  predicate Handles(p: Phase, f: int) {
    (p.Evicting? || p.Loading? || p.Loaded? || p.Recorded?) && p.f == f
  }

  ghost predicate InHand(s: State, f: int) {
    exists a :: IsAsid(a) && Handles(s.phase[a], f)
  }

  // A valid page is in the frame that its entry says, and the swap pool table knows.
  ghost predicate Mapped(s: State) {
    forall a, j {:trigger Lo(s, a, j)} :: IsPage(a, j) && Valid(Lo(s, a, j)) ==>
      var f := FrameOf(Lo(s, a, j));
      0 <= f < FRAMES && Lo(s, a, j) == Resident(f) && Names(s, f, a, j)
  }

  // An occupied frame holds a valid page, but for the frame being changed, which no entry maps.
  ghost predicate Framed(s: State) {
    forall f {:trigger s.table[f]} :: 0 <= f < FRAMES && Occupied(s, f) ==>
      var a, j := s.table[f].asid, s.table[f].vpn % PAGETABLESIZE;
      IsPage(a, j) && Names(s, f, a, j) && (if InHand(s, f) then Absent(s, a, j) else Lo(s, a, j) == Resident(f))
  }

  // Every page is writable, so that the TLB-modification exception never occurs.
  ghost predicate Writable(s: State) {
    forall a, j {:trigger Lo(s, a, j)} :: IsPage(a, j) ==> Dirty(Lo(s, a, j))
  }

  // Every TLB entry is the current page table entry of a page.
  ghost predicate Current(s: State) {
    forall hi {:trigger s.tlb[hi]} {:trigger hi in s.tlb} :: hi in s.tlb ==>
      var a, j := hi / 0x40 % 0x40, RefillIndex(hi);
      IsPage(a, j) && hi == EntryHi(a, j) && s.tlb[hi] == Lo(s, a, j)
  }

  // The page that a process waits for stays absent till its frame is published; what has been
  // read in is what the flash device holds.
  ghost predicate Awaited(s: State) {
    forall a {:trigger s.phase[a]} :: IsAsid(a) ==>
      match s.phase[a]
      case Running | Published => true
      case Faulted(j) => Absent(s, a, j)
      case Queued(j) => Absent(s, a, j)
      case Holding(j) => Absent(s, a, j)
      case Evicting(j, f) => Absent(s, a, j) && 0 <= f < FRAMES && Occupied(s, f)
      case Loading(j, f) => Absent(s, a, j) && 0 <= f < FRAMES
      case Loaded(j, f) => Absent(s, a, j) && 0 <= f < FRAMES && s.frames[f] == Block(s, a, j)
      case Recorded(j, f) => Absent(s, a, j) && 0 <= f < FRAMES && s.frames[f] == Block(s, a, j) && Names(s, f, a, j)
  }

  ghost predicate Inv(s: State) {
    Excluded(s) && Mapped(s) && Framed(s) && Writable(s) && Current(s) && Awaited(s)
  }

  // ------------------------------------------------------------------------- definedness

  lemma AccessInPool(s: State, a: int, j: int)
    requires Mapped(s) && Current(s) && Translates(s, a, j)
    ensures 0 <= Accessed(s, a, j) < FRAMES
    ensures Valid(Lo(s, a, j)) && Accessed(s, a, j) == FrameOf(Lo(s, a, j)) && Names(s, Accessed(s, a, j), a, j)
  {
    IndexOfPage(a, j);
    assert s.tlb[EntryHi(a, j)] == Lo(s, a, j);
  }

  predicate AdvanceDefined(s: State, a: int)
    requires IsAsid(a)
  {
    match s.phase[a]
    case Holding(j) => Occupied(s, s.victim % FRAMES) ==> PteExists(s.table[s.victim % FRAMES].pte)
    case Evicting(j, f) => 0 <= f < FRAMES && IsAsid(s.table[f].asid)
    case Loading(j, f) => 0 <= f < FRAMES && IsPage(a, j)
    case Loaded(j, f) => 0 <= f < FRAMES && IsPage(a, j)
    case Recorded(j, f) => 0 <= f < FRAMES && PteExists(s.table[f].pte)
    case Published => s.waiting != [] ==> IsAsid(s.waiting[0]) && s.phase[s.waiting[0]].Queued? && s.waiting[0] != a
    case _ => true
  }

  lemma AdvanceIsDefined(s: State, a: int)
    requires Inv(s) && IsAsid(a)
    ensures AdvanceDefined(s, a)
  {
    if s.waiting != [] {
      assert s.waiting[0] in s.waiting;
    }
    assert forall f :: 0 <= f < FRAMES && Occupied(s, f) ==> PteExists(s.table[f].pte) && IsAsid(s.table[f].asid);
  }

  ghost function Next(s: State, e: Event): State
    requires Inv(s) && Enabled(s, e)
  {
    match e
    case Load(a, j, k) => s
    case Store(a, j, k, v) => AccessInPool(s, a, j); DoStore(s, a, j, k, v)
    case Refill(a, hi) => DoRefill(s, a, hi)
    case Forget(hi) => DoForget(s, hi)
    case Fault(a, j) => SetPhase(s, a, Faulted(j))
    case Advance(a) => AdvanceIsDefined(s, a); Step(s, a)
  }

  function Step(s: State, a: int): State
    requires IsAsid(a) && AdvanceDefined(s, a)
  {
    match s.phase[a]
    case Faulted(j) => DoAcquire(s, a)
    case Holding(j) => DoChoose(s, a)
    case Evicting(j, f) => DoWriteOut(s, a)
    case Loading(j, f) => DoReadIn(s, a)
    case Loaded(j, f) => DoRecord(s, a)
    case Recorded(j, f) => DoPublish(s, a)
    case Published => DoRelease(s, a)
    case _ => s
  }

  // ------------------------------------------------------------------------ preservation

  lemma InitialInv(flash: seq<seq<Page>>)
    requires |flash| == UPROCMAX && forall i :: 0 <= i < UPROCMAX ==> |flash[i]| == PAGETABLESIZE
    ensures Inv(Initial(flash))
  {
    InvalidatedFields(0);
  }

  // The process past the P is the only one that handles a frame.
  lemma Alone(s: State, a: int)
    requires Excluded(s) && IsAsid(a) && Critical(s.phase[a])
    ensures forall b :: IsAsid(b) && b != a ==> !Critical(s.phase[b])
    ensures forall f :: InHand(s, f) <==> Handles(s.phase[a], f)
  {
  }

  // Phases change without a frame being taken or given back.
  lemma SamePhases(s: State, s': State)
    requires Mapped(s) && Framed(s) && Writable(s)
    requires s'.lo == s.lo && s'.table == s.table && forall f :: InHand(s', f) <==> InHand(s, f)
    ensures Mapped(s') && Framed(s') && Writable(s')
  {
    assert forall a, j :: IsPage(a, j) ==> Lo(s', a, j) == Lo(s, a, j);
    assert forall f :: 0 <= f < FRAMES ==> s'.table[f] == s.table[f];
  }

  lemma SameCurrent(s: State, s': State)
    requires Current(s) && s'.lo == s.lo && forall hi :: hi in s'.tlb ==> hi in s.tlb && s'.tlb[hi] == s.tlb[hi]
    ensures Current(s')
  {
    assert forall a, j :: IsPage(a, j) ==> Lo(s', a, j) == Lo(s, a, j);
  }

  lemma SameExcluded(s: State, s': State)
    requires Excluded(s) && s'.phase == s.phase && s'.sem == s.sem && s'.waiting == s.waiting
    ensures Excluded(s') && forall f :: InHand(s', f) <==> InHand(s, f)
  {
  }

  lemma StoreKeeps(s: State, a: int, j: int, k: nat, v: int)
    requires Inv(s) && Enabled(s, Store(a, j, k, v))
    ensures Inv(Next(s, Store(a, j, k, v)))
  {
    hide Excluded;
    AccessInPool(s, a, j);
    var s' := DoStore(s, a, j, k, v);
    SameExcluded(s, s');
    SamePhases(s, s');
    SameCurrent(s, s');
    forall b | IsAsid(b) && (s.phase[b].Loaded? || s.phase[b].Recorded?)
      ensures s'.frames[s.phase[b].f] == s.frames[s.phase[b].f]
    {
      assert Handles(s.phase[b], s.phase[b].f);
      assert s.table[Accessed(s, a, j)].asid == a;
    }
  }

  lemma RefillKeeps(s: State, a: int, hi: Word)
    requires Inv(s) && IsAsid(a)
    ensures Inv(DoRefill(s, a, hi))
  {
    hide Excluded, Mapped, Framed, Writable;
    var s' := DoRefill(s, a, hi);
    IndexOfPage(a, RefillIndex(hi));
    SameExcluded(s, s');
    SamePhases(s, s');
    assert forall b, k :: IsPage(b, k) ==> Lo(s', b, k) == Lo(s, b, k);
  }

  // Only addresses of pages are ever in the TLB: however often another one is refilled, an access to it
  // neither goes through nor reaches the pager.
  lemma OnlyPagesServed(s: State, hi: Word)
    requires Inv(s) && hi in s.tlb
    ensures IsPage(hi / 0x40 % 0x40, RefillIndex(hi)) && hi == EntryHi(hi / 0x40 % 0x40, RefillIndex(hi))
  {
    hide Excluded, Mapped, Framed, Writable, Awaited;
  }

  lemma ForgetKeeps(s: State, hi: Word)
    requires Inv(s)
    ensures Inv(DoForget(s, hi))
  {
    hide Excluded, Mapped, Framed, Writable;
    var s' := DoForget(s, hi);
    SameExcluded(s, s');
    SamePhases(s, s');
    SameCurrent(s, s');
  }

  // A process that is not past the P changes its phase to another such.
  lemma OutsideHandles(s: State, a: int, p: Phase)
    requires IsAsid(a) && !Critical(s.phase[a]) && !Critical(p)
    ensures forall f :: InHand(SetPhase(s, a, p), f) <==> InHand(s, f)
    ensures Held(SetPhase(s, a, p)) <==> Held(s)
  {
    var s' := SetPhase(s, a, p);
    forall b | IsAsid(b)
      ensures Critical(s'.phase[b]) <==> Critical(s.phase[b])
      ensures forall f :: Handles(s'.phase[b], f) <==> Handles(s.phase[b], f)
    {
    }
  }

  lemma FaultKeeps(s: State, a: int, j: int)
    requires Inv(s) && Enabled(s, Fault(a, j))
    ensures Inv(SetPhase(s, a, Faulted(j)))
  {
    hide Mapped, Framed, Writable, Excluded;
    var s' := SetPhase(s, a, Faulted(j));
    FaultExcluded(s, a, j);
    IndexOfPage(a, j);
    assert s.tlb[EntryHi(a, j)] == Lo(s, a, j);
    SamePhases(s, s');
    SameCurrent(s, s');
  }

  lemma FaultExcluded(s: State, a: int, j: int)
    requires Excluded(s) && IsAsid(a) && s.phase[a].Running?
    ensures Excluded(SetPhase(s, a, Faulted(j))) && forall f :: InHand(SetPhase(s, a, Faulted(j)), f) <==> InHand(s, f)
  {
    OutsideHandles(s, a, Faulted(j));
  }

  lemma AcquireKeeps(s: State, a: int)
    requires Inv(s) && IsAsid(a) && s.phase[a].Faulted?
    ensures Inv(DoAcquire(s, a))
  {
    hide Mapped, Framed, Writable, Current;
    var s', j := DoAcquire(s, a), s.phase[a].j;
    assert Absent(s, a, j);
    AcquireExcluded(s, a);
    SamePhases(s, s');
    SameCurrent(s, s');
    AcquireAwaited(s, a);
  }

  lemma AcquireExcluded(s: State, a: int)
    requires Excluded(s) && IsAsid(a) && s.phase[a].Faulted?
    ensures Excluded(DoAcquire(s, a)) && forall f :: InHand(DoAcquire(s, a), f) <==> InHand(s, f)
  {
    var s', j := DoAcquire(s, a), s.phase[a].j;
    if s.sem - 1 >= 0 {
      assert !Held(s) && s.waiting == [];
      assert Critical(s'.phase[a]);
      assert forall b :: IsAsid(b) && b != a ==> s'.phase[b] == s.phase[b];
    } else {
      OutsideHandles(s, a, Queued(j));
      assert forall f :: InHand(s', f) <==> InHand(SetPhase(s, a, Queued(j)), f);
      assert Held(s') <==> Held(SetPhase(s, a, Queued(j)));
    }
  }

  lemma AcquireAwaited(s: State, a: int)
    requires Awaited(s) && IsAsid(a) && s.phase[a].Faulted?
    ensures Awaited(DoAcquire(s, a))
  {
    var s' := DoAcquire(s, a);
    assert Absent(s, a, s.phase[a].j);
    forall b | IsAsid(b) && b != a
      ensures s'.phase[b] == s.phase[b]
    {
    }
  }

  // Steps of the process past the P keep it there.
  lemma InsideExcluded(s: State, a: int, p: Phase)
    requires Excluded(s) && IsAsid(a) && Critical(s.phase[a]) && Critical(p)
    ensures
      var s' := SetPhase(s, a, p);
      && Excluded(s') && (forall b :: IsAsid(b) && b != a ==> !Critical(s.phase[b]) && s'.phase[b] == s.phase[b])
      && (forall f :: InHand(s', f) <==> Handles(p, f)) && (forall f :: InHand(s, f) <==> Handles(s.phase[a], f))
  {
    var s' := SetPhase(s, a, p);
    assert Critical(s'.phase[a]);
    Alone(s, a);
  }

  lemma ChooseKeeps(s: State, a: int)
    requires Inv(s) && IsAsid(a) && s.phase[a].Holding?
    ensures AdvanceDefined(s, a) && Inv(DoChoose(s, a))
  {
    hide Excluded, Mapped, Writable;
    AdvanceIsDefined(s, a);
    var s', f := DoChoose(s, a), s.victim % FRAMES;
    InsideExcluded(s, a, s'.phase[a]);
    SameExcluded(SetPhase(s, a, s'.phase[a]), s');
    assert Absent(s, a, s.phase[a].j);
    if Occupied(s, f) {
      var b, k := s.table[f].asid, s.table[f].vpn % PAGETABLESIZE;
      assert Lo(s, b, k) == Resident(f);
      ResidentFields(f);
      InvalidatedFields(Resident(f));
      assert forall c, l :: IsPage(c, l) ==> Lo(s', c, l) == if c == b &&
          l == k then Invalidated(Resident(f)) else Lo(s, c, l);
      EntriesChanged(s, s', f, b, k, Invalidated(Resident(f)));
    } else {
      assert forall c, l :: IsPage(c, l) ==> Lo(s', c, l) == Lo(s, c, l);
      UnoccupiedTaken(s, s', f);
      SameCurrent(s, s');
    }
  }

  lemma UnoccupiedTaken(s: State, s': State, f: int)
    requires Mapped(s) && Framed(s) && Writable(s) && s'.table == s.table && s'.lo == s.lo
    requires 0 <= f < FRAMES && !Occupied(s, f) && forall g :: g != f ==> (InHand(s', g) <==> InHand(s, g))
    ensures Mapped(s') && Framed(s') && Writable(s')
  {
    assert forall c, l :: IsPage(c, l) ==> Lo(s', c, l) == Lo(s, c, l);
    assert forall g :: 0 <= g < FRAMES ==> s'.table[g] == s.table[g];
  }

  lemma WriteOutKeeps(s: State, a: int)
    requires Inv(s) && IsAsid(a) && s.phase[a].Evicting?
    ensures AdvanceDefined(s, a) && Inv(DoWriteOut(s, a))
  {
    hide Excluded, Mapped, Framed, Writable, Current;
    AdvanceIsDefined(s, a);
    var s' := DoWriteOut(s, a);
    InsideExcluded(s, a, s'.phase[a]);
    SameExcluded(SetPhase(s, a, s'.phase[a]), s');
    SamePhases(s, s');
    SameCurrent(s, s');
    assert Absent(s, a, s.phase[a].j);
    assert forall b :: IsAsid(b) && b != a ==> s'.phase[b] == s.phase[b] && !Critical(s.phase[b]);
  }

  lemma ReadInKeeps(s: State, a: int)
    requires Inv(s) && IsAsid(a) && s.phase[a].Loading?
    ensures AdvanceDefined(s, a) && Inv(DoReadIn(s, a))
  {
    hide Excluded, Mapped, Framed, Writable, Current;
    AdvanceIsDefined(s, a);
    var s' := DoReadIn(s, a);
    InsideExcluded(s, a, s'.phase[a]);
    SameExcluded(SetPhase(s, a, s'.phase[a]), s');
    SamePhases(s, s');
    SameCurrent(s, s');
    IndexOfPage(a, s.phase[a].j);
    assert Absent(s, a, s.phase[a].j);
    assert forall b :: IsAsid(b) && b != a ==> s'.phase[b] == s.phase[b] && !Critical(s.phase[b]);
  }

  lemma RecordKeeps(s: State, a: int)
    requires Inv(s) && IsAsid(a) && s.phase[a].Loaded?
    ensures AdvanceDefined(s, a) && Inv(DoRecord(s, a))
  {
    hide Excluded, Current;
    AdvanceIsDefined(s, a);
    var s', j, f := DoRecord(s, a), s.phase[a].j, s.phase[a].f;
    InsideExcluded(s, a, s'.phase[a]);
    SameExcluded(SetPhase(s, a, s'.phase[a]), s');
    SameCurrent(s, s');
    IndexOfPage(a, j);
    assert Absent(s, a, j);
    assert forall b :: IsAsid(b) && b != a ==> s'.phase[b] == s.phase[b] && !Critical(s.phase[b]);
    assert forall c, l :: IsPage(c, l) ==> Lo(s', c, l) == Lo(s, c, l);
  }

  lemma PublishKeeps(s: State, a: int)
    requires Inv(s) && IsAsid(a) && s.phase[a].Recorded?
    ensures AdvanceDefined(s, a) && Inv(DoPublish(s, a))
  {
    hide Excluded, Mapped, Framed, Writable;
    AdvanceIsDefined(s, a);
    var s', j, f := DoPublish(s, a), s.phase[a].j, s.phase[a].f;
    InsideExcluded(s, a, s'.phase[a]);
    SameExcluded(SetPhase(s, a, s'.phase[a]), s');
    assert Absent(s, a, j) && Names(s, f, a, j);
    ResidentFields(f);
    assert forall c, l :: IsPage(c, l) ==> Lo(s', c, l) == if c == a && l == j then Resident(f) else Lo(s, c, l);
    assert forall b :: IsAsid(b) && b != a ==> s'.phase[b] == s.phase[b] && !Critical(s.phase[b]);
    EntriesChanged(s, s', f, a, j, Resident(f));
  }

  // The entry of the page that frame f is for changes, and no other frame is in hand.
  lemma EntriesChanged(s: State, s': State, f: int, a: int, j: int, w: Word)
    requires Mapped(s) && Framed(s) && Writable(s) && s'.table == s.table
    requires 0 <= f < FRAMES && Occupied(s, f) && IsPage(a, j) && Names(s, f, a, j)
    requires forall c, l :: IsPage(c, l) ==> Lo(s', c, l) == if c == a && l == j then w else Lo(s, c, l)
    requires Dirty(w) && (if InHand(s', f) then !Valid(w) else Valid(w) && w == Resident(f))
    requires forall g :: g != f ==> !InHand(s', g) && !InHand(s, g)
    requires FrameOf(Resident(f)) == f
    ensures Mapped(s') && Framed(s') && Writable(s')
  {
    hide Mapped, Dirty, Valid, Resident, FrameOf;
    EntriesMapped(s, s', f, a, j, w);
    forall g | 0 <= g < FRAMES && Occupied(s, g) && g != f
      ensures s.table[g].asid != a || s.table[g].vpn % PAGETABLESIZE != j
    {
      ResidentFields(g);
      assert InHand(s, f) ==> Absent(s, a, j);
    }
    assert forall g :: 0 <= g < FRAMES ==> s'.table[g] == s.table[g];
  }

  lemma EntriesMapped(s: State, s': State, f: int, a: int, j: int, w: Word)
    requires Mapped(s) && Writable(s) && s'.table == s.table
    requires 0 <= f < FRAMES && IsPage(a, j) && Names(s, f, a, j) && FrameOf(Resident(f)) == f
    requires forall c, l :: IsPage(c, l) ==> Lo(s', c, l) == if c == a && l == j then w else Lo(s, c, l)
    requires Dirty(w) && (!Valid(w) || w == Resident(f))
    ensures Mapped(s') && Writable(s')
  {
    hide Dirty, Valid, Resident, FrameOf;
  }

  lemma ReleaseKeeps(s: State, a: int)
    requires Inv(s) && IsAsid(a) && s.phase[a].Published?
    ensures AdvanceDefined(s, a) && Inv(DoRelease(s, a))
  {
    hide Mapped, Framed, Writable, Current;
    AdvanceIsDefined(s, a);
    var s' := DoRelease(s, a);
    ReleaseExcluded(s, a);
    SamePhases(s, s');
    SameCurrent(s, s');
  }

  lemma ReleaseExcluded(s: State, a: int)
    requires Excluded(s) && IsAsid(a) && s.phase[a].Published? && AdvanceDefined(s, a)
    ensures Excluded(DoRelease(s, a)) && forall f :: InHand(DoRelease(s, a), f) <==> InHand(s, f)
  {
    var s' := DoRelease(s, a);
    Alone(s, a);
    if s.waiting != [] {
      var b := s.waiting[0];
      TailDistinct(s.waiting);
      assert s.sem + 1 <= 0;
      assert s'.phase[b].Holding?;
      assert forall c :: IsAsid(c) && c != a && c != b ==> s'.phase[c] == s.phase[c];
      assert s.waiting == [b] + s.waiting[1..];
    } else {
      assert forall c :: IsAsid(c) && c != a ==> s'.phase[c] == s.phase[c];
    }
  }

  lemma StepKeeps(s: State, a: int)
    requires Inv(s) && Enabled(s, Advance(a))
    ensures AdvanceDefined(s, a) && Inv(Step(s, a))
  {
    hide Inv, DoAcquire, DoChoose, DoWriteOut, DoReadIn, DoRecord, DoPublish, DoRelease;
    AdvanceIsDefined(s, a);
    match s.phase[a]
    case Faulted(j) => AcquireKeeps(s, a);
    case Holding(j) => ChooseKeeps(s, a);
    case Evicting(j, f) => WriteOutKeeps(s, a);
    case Loading(j, f) => ReadInKeeps(s, a);
    case Loaded(j, f) => RecordKeeps(s, a);
    case Recorded(j, f) => PublishKeeps(s, a);
    case Published => ReleaseKeeps(s, a);
    case _ =>
  }

  lemma NextKeeps(s: State, e: Event)
    requires Inv(s) && Enabled(s, e)
    ensures Inv(Next(s, e))
  {
    hide Inv, Step, DoStore, DoRefill, DoForget;
    match e
    case Store(a, j, k, v) => StoreKeeps(s, a, j, k, v);
    case Refill(a, hi) => RefillKeeps(s, a, hi);
    case Forget(hi) => ForgetKeeps(s, hi);
    case Fault(a, j) => FaultKeeps(s, a, j);
    case Advance(a) => StepKeeps(s, a);
    case _ =>
  }

  // Outside the windows in which a process changes a frame, occupied frames and valid entries
  // correspond one to one; the TLB agrees with the page tables at all times, and as every page is
  // writable the pager never sees a TLB-modification exception.
  lemma FramesMatchPages(s: State)
    requires Inv(s)
    ensures forall f :: 0 <= f < FRAMES && Occupied(s, f) && !InHand(s, f) ==>
      var a, j := s.table[f].asid, s.table[f].vpn % PAGETABLESIZE;
      IsPage(a, j) && s.table[f].pte == Pte(a, j) && Lo(s, a, j) == Resident(f)
    ensures forall a, j :: IsPage(a, j) && Valid(Lo(s, a, j)) ==>
      exists f :: 0 <= f < FRAMES && Lo(s, a, j) == Resident(f) && Names(s, f, a, j) && !InHand(s, f)
    ensures forall a, j, b, k :: IsPage(a, j) && IsPage(b, k) && Valid(Lo(s, a, j)) && Lo(s, a, j) == Lo(s, b, k) ==>
        a == b && j == k
    ensures forall a, j :: IsPage(a, j) && EntryHi(a, j) in s.tlb ==> s.tlb[EntryHi(a, j)] == Lo(s, a, j)
    ensures forall hi :: hi in s.tlb ==> Dirty(s.tlb[hi])
  {
    hide Excluded, Awaited;
    forall a, j | IsPage(a, j) && Valid(Lo(s, a, j))
      ensures exists f :: 0 <= f < FRAMES && Lo(s, a, j) == Resident(f) && Names(s, f, a, j) && !InHand(s, f)
    {
      var f := FrameOf(Lo(s, a, j));
      assert Names(s, f, a, j) && Occupied(s, f);
      assert !InHand(s, f);
    }
    forall a, j | IsPage(a, j) && EntryHi(a, j) in s.tlb
      ensures s.tlb[EntryHi(a, j)] == Lo(s, a, j)
    {
      IndexOfPage(a, j);
    }
  }
}
