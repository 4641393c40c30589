// When the storage calls leave the pages of processes alone. The device number that the caller gives
// decides which page of RAM is the buffer, and which device writes a block
// (phase3/sysSupport.c:489-631, phase4/deviceSupportDMA.c:43-124).
module PagerBuffers {
  import opened Constants
  import opened PagerState
  import opened PagerInvariant
  import opened PagerRefinement
  import StorageCalls

  predicate IsFrameAddress(a: int) {
    a % PAGESIZE == 0 && FrameAddress(0) <= a < FrameAddress(0) + FRAMES * PAGESIZE
  }

  // The page of RAM at a becomes page.
  function Copied(s: State, a: int, page: Page): State {
    if IsFrameAddress(a) then s.(frames := s.frames[(a - FrameAddress(0)) / PAGESIZE := page]) else s
  }

  // the process counts on what frame f holds
  predicate Keeps(p: Phase, f: int) {
    (p.Evicting? || p.Loaded? || p.Recorded?) && p.f == f
  }

  // What frame f holds matters: it is the content of a valid page, or of a page in transit.
  ghost predicate Needed(s: State, f: nat)
    requires f < FRAMES
  {
    (Occupied(s, f) && !InHand(s, f)) || exists c :: IsAsid(c) && Keeps(s.phase[c], f)
  }

  // every page of every process is as it was
  ghost predicate PagesKept(s: State, s': State)
    requires Inv(s)
  {
    Inv(s') && forall a, j :: IsPage(a, j) ==> Content(s', a, j) == Content(s, a, j)
  }

  // A copy to address a keeps the pages, and the pager's invariant, exactly if a is no frame that
  // matters or the copy changes nothing in it.
  lemma CopyKeepsExactly(s: State, a: int, page: Page)
    requires Inv(s)
    ensures PagesKept(s, Copied(s, a, page)) <==>
      forall f :: 0 <= f < FRAMES && a == FrameAddress(f) && Needed(s, f) ==> page == s.frames[f]
  {
    hide Inv, PagesKept, Needed;
    if IsFrameAddress(a) {
      var f := (a - FrameAddress(0)) / PAGESIZE;
      assert a == FrameAddress(f) && forall g :: 0 <= g < FRAMES && a == FrameAddress(g) ==> g == f;
      if !Needed(s, f) {
        CopyToSpareFrame(s, f, page);
      } else if page == s.frames[f] {
        assert s.frames[f := page] == s.frames;
        NothingChanged(s);
      } else {
        CopyToNeededFrame(s, f, page);
      }
    } else {
      NothingChanged(s);
    }
  }

  lemma FrameKeepsExactly(s: State, f: nat, page: Page)
    requires Inv(s) && f < FRAMES
    ensures PagesKept(s, s.(frames := s.frames[f := page])) <==> (Needed(s, f) ==> page == s.frames[f])
  {
    hide Inv, PagesKept, Needed;
    CopyKeepsExactly(s, FrameAddress(f), page);
    assert Copied(s, FrameAddress(f), page) == s.(frames := s.frames[f := page]);
  }

  lemma NothingChanged(s: State)
    requires Inv(s)
    ensures PagesKept(s, s)
  {
    hide Inv;
  }

  lemma CopyToSpareFrame(s: State, f: nat, page: Page)
    requires Inv(s) && f < FRAMES && !Needed(s, f)
    ensures PagesKept(s, s.(frames := s.frames[f := page]))
  {
    hide Excluded, Writable;
    var s' := s.(frames := s.frames[f := page]);
    assert forall c :: IsAsid(c) && (s.phase[c].Loaded? || s.phase[c].Recorded?) ==> !Keeps(s.phase[c], f);
    FrameInv(s, f, page);
    forall a, j | IsPage(a, j)
      ensures Content(s', a, j) == Content(s, a, j)
    {
      assert Lo(s', a, j) == Lo(s, a, j);
      if Valid(Lo(s, a, j)) {
        var g := FrameOf(Lo(s, a, j));
        assert Names(s, g, a, j) && Occupied(s, g) && s.table[g].asid == a;
        assert g != f;
      } else if c :| Evicts(s, c, a, j) {
        assert Keeps(s.phase[c], s.phase[c].f);
        EvictedContent(s, c, a, j);
        assert Evicts(s', c, a, j);
        EvictedContent(s', c, a, j);
      } else {
        assert forall c :: Evicts(s', c, a, j) <==> Evicts(s, c, a, j);
        StoredContent(s, a, j);
        StoredContent(s', a, j);
      }
    }
  }

  lemma FrameInv(s: State, f: nat, page: Page)
    requires Inv(s) && f < FRAMES
    requires forall c {:trigger s.phase[c]} :: IsAsid(c) && (s.phase[c].Loaded? || s.phase[c].Recorded?) ==>
      s.phase[c].f != f
    ensures Inv(s.(frames := s.frames[f := page]))
  {
    hide Excluded;
    var s' := s.(frames := s.frames[f := page]);
    SameExcluded(s, s');
    SamePhases(s, s');
    SameCurrent(s, s');
  }

  lemma CopyToNeededFrame(s: State, f: nat, page: Page)
    requires Inv(s) && f < FRAMES && Needed(s, f) && page != s.frames[f]
    ensures !PagesKept(s, s.(frames := s.frames[f := page]))
  {
    hide Excluded, Writable, Current;
    var s' := s.(frames := s.frames[f := page]);
    if Occupied(s, f) && !InHand(s, f) {
      if Inv(s') {
        FramePage(s, f, page);
      }
    } else {
      var c :| IsAsid(c) && Keeps(s.phase[c], f);
      if Inv(s') {
        TransitPage(s, c, f, page);
      }
    }
  }

  // The page in an occupied frame becomes what is copied there.
  lemma FramePage(s: State, f: nat, page: Page)
    requires Inv(s) && f < FRAMES && Occupied(s, f) && !InHand(s, f) && Inv(s.(frames := s.frames[f := page]))
    ensures
      var a, j := s.table[f].asid, s.table[f].vpn % PAGETABLESIZE;
      && IsPage(a, j) && Content(s, a, j) == s.frames[f]
      && Content(s.(frames := s.frames[f := page]), a, j) == page
  {
    hide Excluded, Writable, Current, Awaited;
    var a, j := s.table[f].asid, s.table[f].vpn % PAGETABLESIZE;
    assert IsPage(a, j) && Lo(s, a, j) == Resident(f);
    assert Lo(s.(frames := s.frames[f := page]), a, j) == Lo(s, a, j);
    ResidentFields(f);
  }

  // What was read in is no longer the block; what is to be written out is no longer the page.
  lemma TransitPage(s: State, c: int, f: nat, page: Page)
    requires Inv(s) && IsAsid(c) && f < FRAMES && Keeps(s.phase[c], f) && page != s.frames[f]
    requires Inv(s.(frames := s.frames[f := page]))
    ensures s.phase[c].Evicting?
    ensures
      var a, j := s.table[f].asid, s.table[f].vpn % PAGETABLESIZE;
      && IsPage(a, j) && Content(s, a, j) == s.frames[f]
      && Content(s.(frames := s.frames[f := page]), a, j) == page
  {
    hide Excluded, Writable, Current, Mapped;
    var s' := s.(frames := s.frames[f := page]);
    assert s'.phase[c] == s.phase[c];
    assert s.phase[c].Evicting?;
    var a, j := s.table[f].asid, s.table[f].vpn % PAGETABLESIZE;
    assert Occupied(s, f);
    assert Evicts(s, c, a, j) && Evicts(s', c, a, j);
    EvictedContent(s, c, a, j);
    EvictedContent(s', c, a, j);
  }

  // The first stretch of a put, the copy into the buffer, changes nothing of the pager for every device number
  // whose buffer is apart from the frames. What the device does afterwards is another matter.
  lemma BufferLeavesPages(s: State, dev: int, page: Page)
    ensures (dev + 8) % StorageCalls.PAGES >= 8 ==> Copied(s, StorageCalls.DiskBuffer(dev), page) == s
    ensures (dev + 16) % StorageCalls.PAGES >= 8 ==> Copied(s, StorageCalls.FlashBuffer(dev), page) == s
  {
    hide StorageCalls.DiskBuffer, StorageCalls.FlashBuffer, IsFrameAddress;
    StorageCalls.BufferIsPage(dev);
    FrameNumbers((dev + 0x2_0028) % StorageCalls.PAGES);
    FrameNumbers((dev + 0x2_0030) % StorageCalls.PAGES);
    StorageCalls.ShiftedRemainder(dev + 8, 0x2_0020);
    StorageCalls.ShiftedRemainder(dev + 16, 0x2_0020);
  }

  lemma FrameNumbers(p: int)
    ensures IsFrameAddress(p * PAGESIZE) <==> 0x2_0020 <= p < 0x2_0028
  {
  }

  // The disk number -1 is not refused. Its put copies the caller's page over the last frame, whoever's
  // page is in it.
  lemma NumberMinusOne(s: State, page: Page)
    requires Inv(s) && Occupied(s, FRAMES - 1) && !InHand(s, FRAMES - 1)
    ensures
      var s', a, j := Copied(s, StorageCalls.DiskBuffer(-1), page), s.table[FRAMES - 1].asid,
                      s.table[FRAMES - 1].vpn % PAGETABLESIZE;
      IsPage(a, j) && Inv(s') && Content(s', a, j) == page
  {
    var f, s' := FRAMES - 1, s.(frames := s.frames[FRAMES - 1 := page]);
    assert StorageCalls.DiskBuffer(-1) == FrameAddress(f);
    assert Copied(s, StorageCalls.DiskBuffer(-1), page) == s';
    assert forall c :: IsAsid(c) && (s.phase[c].Loaded? || s.phase[c].Recorded?) ==> !Handles(s.phase[c], f);
    FrameInv(s, f, page);
    hide Inv;
    FramePage(s, f, page);
  }

  // ------------------------------------------------------------------- blocks of the flash devices

  ghost predicate Evicted(s: State, a: int, j: int) {
    exists c :: Evicts(s, c, a, j)
  }

  // Block j of process a becomes page.
  function BlockSet(s: State, a: int, j: int, page: Page): State
    requires IsPage(a, j)
  {
    s.(flash := SetBlock(s, a, j, page))
  }

  // A write to the block of a page keeps the pages, and the pager's invariant, exactly if the page is in a
  // frame, or still in the one that it is being evicted from, or the write changes nothing.
  lemma WriteKeepsExactly(s: State, a: int, j: int, page: Page)
    requires Inv(s) && IsPage(a, j)
    ensures PagesKept(s, BlockSet(s, a, j, page)) <==>
      Valid(Lo(s, a, j)) || Evicted(s, a, j) || page == Block(s, a, j)
  {
    hide Inv;
    var s' := BlockSet(s, a, j, page);
    if page == Block(s, a, j) {
      SameBlock(s, a, j);
      NothingChanged(s);
    } else if Valid(Lo(s, a, j)) || Evicted(s, a, j) {
      WriteInv(s, a, j, page);
      forall b, k | IsPage(b, k)
        ensures Content(s', b, k) == Content(s, b, k)
      {
        WriteContent(s, a, j, page, b, k);
      }
    } else if Inv(s') {
      assert forall c :: Evicts(s', c, a, j) <==> Evicts(s, c, a, j);
      StoredContent(s, a, j);
      StoredContent(s', a, j);
    }
  }

  lemma SameBlock(s: State, a: int, j: int)
    requires IsPage(a, j)
    ensures BlockSet(s, a, j, Block(s, a, j)) == s
  {
    var row: seq<Page> := s.flash[a - 1];
    assert row[j := row[j]] == row && s.flash[a - 1 := row] == s.flash;
  }

  // Nobody has read a block in whose page is elsewhere.
  lemma WriteInv(s: State, a: int, j: int, page: Page)
    requires Inv(s) && IsPage(a, j) && (Valid(Lo(s, a, j)) || Evicted(s, a, j))
    ensures Inv(BlockSet(s, a, j, page))
  {
    hide Mapped, Framed, Writable, Current;
    var s' := BlockSet(s, a, j, page);
    SameExcluded(s, s');
    SamePhases(s, s');
    SameCurrent(s, s');
    forall c | IsAsid(c) && (s.phase[c].Loaded? || s.phase[c].Recorded?)
      ensures c != a || s.phase[c].j != j
    {
      assert Critical(s.phase[c]) && Absent(s, c, s.phase[c].j);
    }
  }

  lemma WriteContent(s: State, a: int, j: int, page: Page, b: int, k: int)
    requires Inv(s) && IsPage(a, j) && IsPage(b, k) && (Valid(Lo(s, a, j)) || Evicted(s, a, j))
    requires Inv(BlockSet(s, a, j, page))
    ensures Content(BlockSet(s, a, j, page), b, k) == Content(s, b, k)
  {
    hide Inv;
    var s' := BlockSet(s, a, j, page);
    assert Lo(s', b, k) == Lo(s, b, k) && forall c :: Evicts(s', c, b, k) <==> Evicts(s, c, b, k);
    if c :| Evicts(s, c, b, k) {
      EvictedContent(s, c, b, k);
      EvictedContent(s', c, b, k);
    } else if !Valid(Lo(s, b, k)) {
      assert b != a || k != j;
      assert Block(s', b, k) == Block(s, b, k);
      StoredContent(s, b, k);
      StoredContent(s', b, k);
    }
  }
}
