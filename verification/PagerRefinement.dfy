// RAM frames, page tables, TLB, swap pool table and flash devices together implement private
// pages: what a process finds on a page is what it last stored there, whoever faults meanwhile
// (phase3/vmSupport.c:90-173).
module PagerRefinement {
  import opened Constants
  import opened PagerState
  import opened PagerInvariant

  // Process c has invalidated page j of a and not yet written it out.
  predicate Evicts(s: State, c: int, a: int, j: int) {
    IsAsid(c) && s.phase[c].Evicting? && 0 <= s.phase[c].f < FRAMES && Names(s, s.phase[c].f, a, j)
  }

  // What page j of process a holds: the frame that its page table entry says, the frame it is still
  // in while it is being evicted, and otherwise its block of the flash device.
  ghost function Content(s: State, a: int, j: int): Page
    requires IsPage(a, j) && Inv(s)
  {
    if Valid(Lo(s, a, j)) then ValidFrame(s, a, j); s.frames[FrameOf(Lo(s, a, j))]
    else if Evicts(s, Evictor(s, a, j), a, j) then s.frames[s.phase[Evictor(s, a, j)].f]
    else Block(s, a, j)
  }

  // who is evicting the page, if somebody is
  ghost function Evictor(s: State, a: int, j: int): (c: int)
    ensures (exists d :: Evicts(s, d, a, j)) ==> Evicts(s, c, a, j)
  {
    if d :| Evicts(s, d, a, j) then d else 0
  }

  lemma ValidFrame(s: State, a: int, j: int)
    requires Inv(s) && IsPage(a, j) && Valid(Lo(s, a, j))
    ensures 0 <= FrameOf(Lo(s, a, j)) < FRAMES
  {
  }

  lemma EvictedContent(s: State, c: int, a: int, j: int)
    requires Inv(s) && IsPage(a, j) && Evicts(s, c, a, j)
    ensures Absent(s, a, j) && Content(s, a, j) == s.frames[s.phase[c].f]
  {
    hide Mapped, Writable, Current;
    var f := s.phase[c].f;
    assert Handles(s.phase[c], f) && s.table[f].asid == a;
    assert Absent(s, a, j);
    var d := Evictor(s, a, j);
    assert Critical(s.phase[c]) && Critical(s.phase[d]);
  }

  // Whoever changes neither what is stored nor who evicts what leaves every page as it is.
  lemma SameContent(s: State, s': State, a: int, j: int)
    requires Inv(s) && Inv(s') && IsPage(a, j)
    requires s'.frames == s.frames && Block(s', a, j) == Block(s, a, j) && Lo(s', a, j) == Lo(s, a, j)
    requires forall c :: Evicts(s', c, a, j) <==> Evicts(s, c, a, j)
    requires forall c :: Evicts(s, c, a, j) ==> s'.phase[c] == s.phase[c]
    ensures Content(s', a, j) == Content(s, a, j)
  {
    hide Inv;
    if c :| Evicts(s, c, a, j) {
      EvictedContent(s, c, a, j);
      EvictedContent(s', c, a, j);
    }
  }

  // the effect of an event on page j of a, seen by the process
  function Applied(p: Page, e: Event, a: int, j: int): Page {
    if e.Store? && e.a == a && e.j == j && e.k < PAGEWORDS then p[e.k := e.v] else p
  }

  lemma StoreContent(s: State, e: Event, a: int, j: int)
    requires Inv(s) && e.Store? && Enabled(s, e) && IsPage(a, j)
    ensures Inv(Next(s, e)) && Content(Next(s, e), a, j) == Applied(Content(s, a, j), e, a, j)
  {
    hide Excluded, Writable, Awaited;
    NextKeeps(s, e);
    AccessInPool(s, e.a, e.j);
    var s', g := Next(s, e), Accessed(s, e.a, e.j);
    assert s'.lo == s.lo && s'.table == s.table && s'.phase == s.phase && s'.flash == s.flash;
    if Valid(Lo(s, a, j)) {
      assert Lo(s', a, j) == Lo(s, a, j);
    } else if c :| Evicts(s, c, a, j) {
      EvictedContent(s, c, a, j);
      assert Evicts(s', c, a, j);
      EvictedContent(s', c, a, j);
      assert s.phase[c].f != g;
    } else {
      assert forall c :: !Evicts(s', c, a, j) by {
        assert forall c :: Evicts(s', c, a, j) <==> Evicts(s, c, a, j);
      }
      assert Lo(s', a, j) == Lo(s, a, j);
    }
  }

  // Steps that move no page.
  lemma QuietContent(s: State, e: Event, a: int, j: int)
    requires Inv(s) && Enabled(s, e) && IsPage(a, j) && !e.Store?
    requires e.Advance? ==> s.phase[e.a].Faulted? || s.phase[e.a].Published?
    ensures Inv(Next(s, e)) && Content(Next(s, e), a, j) == Content(s, a, j)
  {
    hide Inv;
    NextKeeps(s, e);
    if e.Advance? {
      StepIsNext(s, e);
    }
    var s' := Next(s, e);
    assert s'.frames == s.frames && s'.flash == s.flash && s'.lo == s.lo && s'.table == s.table;
    forall c | IsAsid(c)
      ensures s'.phase[c].Evicting? <==> s.phase[c].Evicting?
      ensures s.phase[c].Evicting? ==> s'.phase[c] == s.phase[c]
    {
    }
    SameContent(s, s', a, j);
  }

  lemma StepIsNext(s: State, e: Event)
    requires Inv(s) && Enabled(s, e) && e.Advance?
    ensures AdvanceDefined(s, e.a) && Next(s, e) == Step(s, e.a)
  {
  }

  // An absent page that nobody evicts is on its flash device.
  lemma StoredContent(s: State, a: int, j: int)
    requires Inv(s) && Absent(s, a, j) && forall c :: !Evicts(s, c, a, j)
    ensures Content(s, a, j) == Block(s, a, j)
  {
    hide Inv;
  }

  // Only the process past the P can be evicting.
  lemma OnlyEvictor(s: State, c: int)
    requires Inv(s) && IsAsid(c) && Critical(s.phase[c])
    ensures forall d, a, j :: Evicts(s, d, a, j) ==> d == c
  {
    hide Mapped, Framed, Writable, Current, Awaited;
  }

  lemma ChooseContent(s: State, c: int, a: int, j: int)
    requires Inv(s) && IsAsid(c) && s.phase[c].Holding? && IsPage(a, j)
    ensures AdvanceDefined(s, c) && Inv(DoChoose(s, c)) && Content(DoChoose(s, c), a, j) == Content(s, a, j)
  {
    hide Excluded, Writable, Awaited, Current;
    ChooseKeeps(s, c);
    OnlyEvictor(s, c);
    var s', f := DoChoose(s, c), s.victim % FRAMES;
    OnlyEvictor(s', c);
    Alone(s, c);
    if Occupied(s, f) {
      var b, k := s.table[f].asid, s.table[f].vpn % PAGETABLESIZE;
      ResidentFields(f);
      InvalidatedFields(Resident(f));
      if a == b && j == k {
        assert Evicts(s', c, a, j);
        EvictedContent(s', c, a, j);
      } else {
        assert Lo(s', a, j) == Lo(s, a, j);
        SameContent(s, s', a, j);
      }
    } else {
      assert Lo(s', a, j) == Lo(s, a, j);
      SameContent(s, s', a, j);
    }
  }

  lemma WriteOutContent(s: State, c: int, a: int, j: int)
    requires Inv(s) && IsAsid(c) && s.phase[c].Evicting? && IsPage(a, j)
    ensures AdvanceDefined(s, c) && Inv(DoWriteOut(s, c)) && Content(DoWriteOut(s, c), a, j) == Content(s, a, j)
  {
    hide Excluded, Mapped, Writable, Current;
    WriteOutKeeps(s, c);
    OnlyEvictor(s, c);
    var s', f := DoWriteOut(s, c), s.phase[c].f;
    OnlyEvictor(s', c);
    assert Handles(s.phase[c], f) && Occupied(s, f);
    assert Lo(s', a, j) == Lo(s, a, j);
    if Names(s, f, a, j) {
      EvictedContent(s, c, a, j);
      StoredContent(s', a, j);
    } else {
      assert Block(s', a, j) == Block(s, a, j);
      SameContent(s, s', a, j);
    }
  }

  lemma ReadInContent(s: State, c: int, a: int, j: int)
    requires Inv(s) && IsAsid(c) && s.phase[c].Loading? && IsPage(a, j)
    ensures AdvanceDefined(s, c) && Inv(DoReadIn(s, c)) && Content(DoReadIn(s, c), a, j) == Content(s, a, j)
  {
    hide Excluded, Writable, Current, Awaited;
    ReadInKeeps(s, c);
    OnlyEvictor(s, c);
    var s', f := DoReadIn(s, c), s.phase[c].f;
    OnlyEvictor(s', c);
    assert Handles(s.phase[c], f);
    assert Lo(s', a, j) == Lo(s, a, j);
    if Valid(Lo(s, a, j)) {
      var g := FrameOf(Lo(s, a, j));
      assert Names(s, g, a, j) && Occupied(s, g);
      assert g != f;
    } else {
      StoredContent(s, a, j);
      StoredContent(s', a, j);
    }
  }

  lemma RecordContent(s: State, c: int, a: int, j: int)
    requires Inv(s) && IsAsid(c) && s.phase[c].Loaded? && IsPage(a, j)
    ensures AdvanceDefined(s, c) && Inv(DoRecord(s, c)) && Content(DoRecord(s, c), a, j) == Content(s, a, j)
  {
    hide Excluded, Mapped, Framed, Writable, Current, Awaited;
    RecordKeeps(s, c);
    OnlyEvictor(s, c);
    var s' := DoRecord(s, c);
    OnlyEvictor(s', c);
    assert Lo(s', a, j) == Lo(s, a, j);
    SameContent(s, s', a, j);
  }

  lemma PublishContent(s: State, c: int, a: int, j: int)
    requires Inv(s) && IsAsid(c) && s.phase[c].Recorded? && IsPage(a, j)
    ensures AdvanceDefined(s, c) && Inv(DoPublish(s, c)) && Content(DoPublish(s, c), a, j) == Content(s, a, j)
  {
    hide Excluded, Mapped, Framed, Writable, Current;
    PublishKeeps(s, c);
    OnlyEvictor(s, c);
    var s', f := DoPublish(s, c), s.phase[c].f;
    OnlyEvictor(s', c);
    assert Absent(s, c, s.phase[c].j) && Names(s, f, c, s.phase[c].j);
    if a == c && j == s.phase[c].j {
      StoredContent(s, a, j);
      ResidentFields(f);
    } else {
      assert Lo(s', a, j) == Lo(s, a, j);
      SameContent(s, s', a, j);
    }
  }

  // A page changes by its owner's stores only, whichever step happens.
  lemma NextContent(s: State, e: Event, a: int, j: int)
    requires Inv(s) && Enabled(s, e) && IsPage(a, j)
    ensures Inv(Next(s, e)) && Content(Next(s, e), a, j) == Applied(Content(s, a, j), e, a, j)
  {
    hide Inv, DoAcquire, DoChoose, DoWriteOut, DoReadIn, DoRecord, DoPublish, DoRelease, Content;
    if e.Store? {
      StoreContent(s, e, a, j);
    } else if e.Advance? {
      StepIsNext(s, e);
      match s.phase[e.a]
      case Holding(_) => ChooseContent(s, e.a, a, j);
      case Evicting(_, _) => WriteOutContent(s, e.a, a, j);
      case Loading(_, _) => ReadInContent(s, e.a, a, j);
      case Loaded(_, _) => RecordContent(s, e.a, a, j);
      case Recorded(_, _) => PublishContent(s, e.a, a, j);
      case _ => QuietContent(s, e, a, j);
    } else {
      QuietContent(s, e, a, j);
    }
  }

  // ------------------------------------------------------------------------------- runs

  ghost predicate IsRun(s: State, es: seq<Event>)
    requires Inv(s)
    decreases |es|
  {
    es != [] ==> Enabled(s, es[0]) && (NextKeeps(s, es[0]); IsRun(Next(s, es[0]), es[1..]))
  }

  ghost function After(s: State, es: seq<Event>): (s': State)
    requires Inv(s) && IsRun(s, es)
    ensures Inv(s')
    decreases |es|
  {
    if es == [] then s else (NextKeeps(s, es[0]); After(Next(s, es[0]), es[1..]))
  }

  // what page j of a would hold in a memory of its own
  function Private(p: Page, es: seq<Event>, a: int, j: int): Page
    decreases |es|
  {
    if es == [] then p else Private(Applied(p, es[0], a, j), es[1..], a, j)
  }

  lemma {:induction false} RunContent(s: State, es: seq<Event>, a: int, j: int)
    requires Inv(s) && IsRun(s, es) && IsPage(a, j)
    ensures Content(After(s, es), a, j) == Private(Content(s, a, j), es, a, j)
    decreases |es|
  {
    hide Inv, Next, Enabled, Content, Applied;
    if es != [] {
      NextKeeps(s, es[0]);
      NextContent(s, es[0], a, j);
      RunContent(Next(s, es[0]), es[1..], a, j);
    }
  }

  // the word that a load reads from RAM, through the TLB
  function Read(s: State, a: int, j: int, k: nat): int
    requires Translates(s, a, j) && 0 <= Accessed(s, a, j) < FRAMES && k < PAGEWORDS
  {
    s.frames[Accessed(s, a, j)][k]
  }

  lemma ReadsContent(s: State, a: int, j: int, k: nat)
    requires Inv(s) && Enabled(s, Load(a, j, k))
    ensures 0 <= Accessed(s, a, j) < FRAMES && Read(s, a, j, k) == Content(s, a, j)[k]
  {
    hide Excluded, Framed, Writable, Awaited;
    AccessInPool(s, a, j);
  }

  // After any run from the initial state, a load reads what the process's own stores have made of
  // its image on the flash device.
  lemma PagesArePrivate(flash: seq<seq<Page>>, es: seq<Event>, a: int, j: int, k: nat)
    requires |flash| == UPROCMAX && forall i :: 0 <= i < UPROCMAX ==> |flash[i]| == PAGETABLESIZE
    requires (InitialInv(flash); IsRun(Initial(flash), es) && Enabled(After(Initial(flash), es), Load(a, j, k)))
    ensures Inv(Initial(flash))
    ensures
      var s := After(Initial(flash), es);
      0 <= Accessed(s, a, j) < FRAMES && Read(s, a, j, k) == Private(flash[a - 1][j], es, a, j)[k]
  {
    hide Inv, Content;
    InitialInv(flash);
    var s := Initial(flash);
    ReadsContent(After(s, es), a, j, k);
    RunContent(s, es, a, j);
    InvalidatedFields(0);
    StoredContent(s, a, j);
  }

  // --------------------------------------------------------------------------- progress

  // The process past the P is never stuck: by its own steps alone it makes its page valid, gives the
  // semaphore back and runs again.
  lemma {:induction false} FaultServed(s: State, a: int) returns (es: seq<Event>)
    requires Inv(s) && IsAsid(a) && Critical(s.phase[a])
    ensures |es| <= 6 && (forall i :: 0 <= i < |es| ==> es[i] == Advance(a)) && IsRun(s, es)
    ensures After(s, es).phase[a] == Running
    ensures s.phase[a].Published? ==> After(s, es).lo == s.lo
    ensures !s.phase[a].Published? ==> IsPage(a, s.phase[a].j) && Valid(Lo(After(s, es), a, s.phase[a].j))
    ensures |es| <= StepsLeft(s.phase[a])
    decreases StepsLeft(s.phase[a])
  {
    hide Inv, Next;
    var s' := Next(s, Advance(a));
    NextKeeps(s, Advance(a));
    StepProgress(s, a);
    if s.phase[a].Published? {
      es := [Advance(a)];
      assert IsRun(s', []) && es[1..] == [];
    } else {
      var rest := FaultServed(s', a);
      es := [Advance(a)] + rest;
      assert es[1..] == rest;
    }
  }

  lemma StepProgress(s: State, a: int)
    requires Inv(s) && IsAsid(a) && Critical(s.phase[a])
    ensures
      var s', p := Next(s, Advance(a)), s.phase[a];
      if p.Published? then s'.phase[a] == Running && s'.lo == s.lo
      else
        && IsPage(a, p.j) && Critical(s'.phase[a]) && StepsLeft(s'.phase[a]) < StepsLeft(p)
        && (if p.Recorded? then s'.phase[a] == Published && Valid(Lo(s', a, p.j))
            else !s'.phase[a].Published? && s'.phase[a].j == p.j)
  {
    hide Excluded, Mapped, Framed, Writable, Current;
    AdvanceIsDefined(s, a);
    StepIsNext(s, Advance(a));
    if s.phase[a].Recorded? {
      ResidentFields(s.phase[a].f);
    }
    if s.phase[a].Published? {
      ReleasedLo(s, a);
    }
  }

  lemma ReleasedLo(s: State, a: int)
    requires IsAsid(a) && s.phase[a].Published? && AdvanceDefined(s, a)
    ensures DoRelease(s, a).lo == s.lo && DoRelease(s, a).phase[a] == Running
  {
  }

  function StepsLeft(p: Phase): nat {
    match p
    case Holding(_) => 6
    case Evicting(_, _) => 5
    case Loading(_, _) => 4
    case Loaded(_, _) => 3
    case Recorded(_, _) => 2
    case Published => 1
    case _ => 0
  }
}
