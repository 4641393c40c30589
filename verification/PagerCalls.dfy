// Which storage calls leave the pages of processes alone, by the numbers that the caller gives, and that the
// pages stay private while others are made (phase3/sysSupport.c:489-631, phase4/deviceSupportDMA.c:43-124).
module PagerCalls {
  import opened Constants
  import opened PagerState
  import opened PagerInvariant
  import opened PagerRefinement
  import opened PagerBuffers
  import opened DeviceNumbers
  import DiskGeometry
  import DiskTransfer
  import StorageCalls

  // SYS15, SYS14, SYS17 and SYS16 with the numbers that the caller gives
  datatype Call = DiskPut(no: int, n: Word) | DiskGet(no: int, n: Word) | FlashPut(no: int, block: int) |
    FlashGet(no: int, block: int)

  // The call copies the caller's page into frame f.
  predicate CopiesInto(call: Call, f: nat)
    requires f < FRAMES
  {
    match call
    case DiskPut(no, _) => StorageCalls.DiskBuffer(no) == FrameAddress(f)
    case FlashPut(no, _) => StorageCalls.FlashBuffer(no) == FrameAddress(f)
    case _ => false
  }

  // The call makes flash device dev write this block of it: a flash put that names the device, or a
  // disk get, as DeviceNumbers.GetThroughExactly says.
  predicate WritesBlock(call: Call, flashes: seq<StorageCalls.Flash>, dev: nat, block: nat)
    requires dev < |flashes| == DEVPERINT
  {
    var f := flashes[dev];
    match call
    case DiskGet(no, n) =>
      && DeviceRegister(DISKINT, no) == DeviceRegister(FLASHINT, dev)
      && DiskGeometry.HasSectors(Mistaken(f)) && SeekBlock(f, n) < f.maxblock
      && block == TransferBlock(f, n)
    case FlashPut(no, b) =>
      && DeviceRegister(FLASHINT, no) == DeviceRegister(FLASHINT, dev)
      && b == block < f.maxblock
    case _ => false
  }

  // These are the blocks that change on the device that the call reaches, and what they change to.
  lemma GetWrites(no: int, n: Word, flashes: seq<StorageCalls.Flash>, dev: nat, buffer: DiskTransfer.Block)
    requires dev < |flashes| == DEVPERINT && DeviceRegister(DISKINT, no) == DeviceRegister(FLASHINT, dev)
    requires DiskGeometry.HasSectors(Mistaken(flashes[dev]))
    ensures
      var f, f' := flashes[dev], GetThrough(StorageCalls.FlashStorage(flashes[dev], buffer), n).storage.flash;
      && f'.maxblock == f.maxblock
      && forall b: nat :: b < f.maxblock ==>
           f'.blocks[b] == if WritesBlock(DiskGet(no, n), flashes, dev, b) then f.blocks[SeekBlock(f, n)] else f.blocks[b]
  {
    hide GetThrough, SeekBlock, TransferBlock, DeviceRegister, Mistaken;
    GetThroughExactly(StorageCalls.FlashStorage(flashes[dev], buffer), n);
  }

  lemma PutWrites(no: int, block: int, flashes: seq<StorageCalls.Flash>, dev: nat, page: DiskTransfer.Block)
    requires dev < |flashes| == DEVPERINT && DeviceRegister(FLASHINT, no) == DeviceRegister(FLASHINT, dev)
    requires block < 0x8000_0000 && StorageCalls.Admitted(KUSEG, block, flashes[dev].maxblock)
    ensures
      var f := flashes[dev];
      var f' := StorageCalls.FlashOperate(StorageCalls.FlashStorage(f, page), block, StorageCalls.WRITEBLK).storage.flash;
      && f'.maxblock == f.maxblock
      && forall b: nat :: b < f.maxblock ==>
           f'.blocks[b] == if WritesBlock(FlashPut(no, block), flashes, dev, b) then page else f.blocks[b]
  {
    hide DeviceRegister;
    StorageCalls.AdmittedExactly(KUSEG, block, flashes[dev].maxblock);
    StorageCalls.FlashDecodes(block, StorageCalls.WRITEBLK);
  }

  // Whatever the call copies or writes, the pages and the pager's invariant stay.
  ghost predicate Harmless(s: State, call: Call, flashes: seq<StorageCalls.Flash>)
    requires Inv(s) && |flashes| == DEVPERINT
  {
    && (forall f, page: Page {:trigger s.frames[f := page]} :: 0 <= f < FRAMES && CopiesInto(call, f) ==>
          PagesKept(s, s.(frames := s.frames[f := page])))
    && (forall a, j, page: Page {:trigger BlockSet(s, a, j, page)} ::
          IsPage(a, j) && WritesBlock(call, flashes, a - 1, j) ==> PagesKept(s, BlockSet(s, a, j, page)))
  }

  // Exactly the calls that copy into no frame that matters and write no block whose page is nowhere else.
  lemma HarmlessExactly(s: State, call: Call, flashes: seq<StorageCalls.Flash>)
    requires Inv(s) && |flashes| == DEVPERINT
    ensures Harmless(s, call, flashes) <==>
      && (forall f :: 0 <= f < FRAMES && CopiesInto(call, f) ==> !Needed(s, f))
      && (forall a, j :: IsPage(a, j) && WritesBlock(call, flashes, a - 1, j) ==>
            Valid(Lo(s, a, j)) || Evicted(s, a, j))
  {
    hide Inv, PagesKept, Needed, Evicted, WritesBlock, CopiesInto, BlockSet, Valid;
    forall f, page: Page {:trigger s.frames[f := page]} | 0 <= f < FRAMES
      ensures PagesKept(s, s.(frames := s.frames[f := page])) <==> (Needed(s, f) ==> page == s.frames[f])
    {
      FrameKeepsExactly(s, f, page);
    }
    forall a, j, page: Page | IsPage(a, j)
      ensures PagesKept(s, BlockSet(s, a, j, page)) <==>
        Valid(Lo(s, a, j)) || Evicted(s, a, j) || page == Block(s, a, j)
    {
      WriteKeepsExactly(s, a, j, page);
    }
    if f :| 0 <= f < FRAMES && CopiesInto(call, f) && Needed(s, f) {
      var page := OtherPage(s.frames[f]);
      assert !PagesKept(s, s.(frames := s.frames[f := page]));
    }
    if a, j :| IsPage(a, j) && WritesBlock(call, flashes, a - 1, j) && !(Valid(Lo(s, a, j)) || Evicted(s, a, j)) {
      var page := OtherPage(Block(s, a, j));
      assert !PagesKept(s, BlockSet(s, a, j, page));
    }
  }

  function OtherPage(page: Page): (other: Page)
    ensures other != page
  {
    var other: Page := page[0 := page[0] + 1];
    assert other[0] != page[0];
    other
  }

  // The call touches no page of any process, whatever the pager does.
  ghost predicate Aloof(call: Call, flashes: seq<StorageCalls.Flash>)
    requires |flashes| == DEVPERINT
  {
    && (forall f :: 0 <= f < FRAMES ==> !CopiesInto(call, f))
    && (forall a, j {:trigger IsPage(a, j)} :: IsPage(a, j) ==> !WritesBlock(call, flashes, a - 1, j))
  }

  lemma AloofIsHarmless(s: State, call: Call, flashes: seq<StorageCalls.Flash>)
    requires Inv(s) && |flashes| == DEVPERINT && Aloof(call, flashes)
    ensures Harmless(s, call, flashes)
  {
    hide Inv, PagesKept, CopiesInto, WritesBlock;
  }

  // Which calls those are, by their numbers. All of SYS16; of SYS15, those not from -8 to -1 modulo 2^20; of
  // SYS14, those not from 8 to 11 modulo 2^28 whose two blocks exist and whose second is one of the pager's;
  // of SYS17, those not from -16 to -9 modulo 2^20 nor, with one of the pager's blocks, from 0 to 3 modulo 2^28.
  lemma AloofExactly(call: Call, flashes: seq<StorageCalls.Flash>)
    requires |flashes| == DEVPERINT
    ensures Aloof(call, flashes) <==>
      match call
      case FlashGet(_, _) => true
      case DiskPut(no, _) => (no + 8) % StorageCalls.PAGES >= 8
      case DiskGet(no, n) =>
        8 <= no % REGISTERS < 8 + UPROCMAX ==>
          var f := flashes[no % REGISTERS - 8];
          DiskGeometry.HasSectors(Mistaken(f)) ==>
            SeekBlock(f, n) >= f.maxblock || TransferBlock(f, n) >= PAGETABLESIZE
      case FlashPut(no, block) =>
        && (no + 16) % StorageCalls.PAGES >= 8
        && (0 <= no % REGISTERS < UPROCMAX ==>
             !(0 <= block < PAGETABLESIZE && block < flashes[no % REGISTERS].maxblock))
  {
    hide StorageCalls.DiskBuffer, StorageCalls.FlashBuffer, DeviceRegister, Mistaken,
        SeekBlock, TransferBlock, DiskGeometry.HasSectors;
    match call
    case DiskPut(no, _) =>
      DiskBufferInFrames(no);
      assert forall f :: 0 <= f < FRAMES ==> (CopiesInto(call, f) <==> StorageCalls.DiskBuffer(no) == FrameAddress(f));
    case FlashGet(_, _) =>
    case DiskGet(no, n) => GetsAloof(no, n, flashes);
    case FlashPut(no, block) =>
      FlashBufferInFrames(no);
      assert forall f :: 0 <= f < FRAMES ==> (CopiesInto(call, f) <==> StorageCalls.FlashBuffer(no) == FrameAddress(f));
      PutsAloof(no, block, flashes);
  }

  lemma DiskBufferInFrames(no: int)
    ensures (forall f :: 0 <= f < FRAMES ==> StorageCalls.DiskBuffer(no) != FrameAddress(f)) <==>
      (no + 8) % StorageCalls.PAGES >= 8
  {
    hide StorageCalls.DiskBuffer;
    StorageCalls.BufferIsPage(no);
    StorageCalls.ShiftedRemainder(no + 8, 0x2_0020);
    FrameOfPage((no + 0x2_0028) % StorageCalls.PAGES);
  }

  lemma FlashBufferInFrames(no: int)
    ensures (forall f :: 0 <= f < FRAMES ==> StorageCalls.FlashBuffer(no) != FrameAddress(f)) <==>
      (no + 16) % StorageCalls.PAGES >= 8
  {
    hide StorageCalls.FlashBuffer;
    StorageCalls.BufferIsPage(no);
    StorageCalls.ShiftedRemainder(no + 16, 0x2_0020);
    FrameOfPage((no + 0x2_0030) % StorageCalls.PAGES);
  }

  lemma FrameOfPage(p: int)
    ensures (forall f :: 0 <= f < FRAMES ==> p * PAGESIZE != FrameAddress(f)) <==> !(0x2_0020 <= p < 0x2_0028)
  {
    if 0x2_0020 <= p < 0x2_0028 {
      assert p * PAGESIZE == FrameAddress(p - 0x2_0020);
    }
  }

  lemma GetsAloof(no: int, n: Word, flashes: seq<StorageCalls.Flash>)
    requires |flashes| == DEVPERINT
    ensures Aloof(DiskGet(no, n), flashes) <==>
      (8 <= no % REGISTERS < 8 + UPROCMAX ==>
         var f := flashes[no % REGISTERS - 8];
         DiskGeometry.HasSectors(Mistaken(f)) ==>
           SeekBlock(f, n) >= f.maxblock || TransferBlock(f, n) >= PAGETABLESIZE)
  {
    hide DeviceRegister, Mistaken, SeekBlock, TransferBlock,
        DiskGeometry.HasSectors;
    var m := no % REGISTERS;
    forall a, j | IsPage(a, j)
      ensures WritesBlock(DiskGet(no, n), flashes, a - 1, j) ==> m == 8 + (a - 1)
      ensures m == 8 + (a - 1) ==>
        var f := flashes[m - 8];
        (WritesBlock(DiskGet(no, n), flashes, a - 1, j) <==>
           DiskGeometry.HasSectors(Mistaken(f)) && SeekBlock(f, n) < f.maxblock &&
           j == TransferBlock(f, n))
    {
      RegistersMeet(DISKINT, no, FLASHINT, a - 1);
    }
    if 8 <= m < 8 + UPROCMAX {
      var f := flashes[m - 8];
      if DiskGeometry.HasSectors(Mistaken(f)) && TransferBlock(f, n) < PAGETABLESIZE {
        assert IsPage(m - 7, TransferBlock(f, n));
      }
    }
  }

  lemma PutsAloof(no: int, block: int, flashes: seq<StorageCalls.Flash>)
    requires |flashes| == DEVPERINT
    ensures
      (forall a, j {:trigger IsPage(a, j)} :: IsPage(a, j) ==> !WritesBlock(FlashPut(no, block), flashes, a - 1, j)) <==>
      (0 <= no % REGISTERS < UPROCMAX ==>
         !(0 <= block < PAGETABLESIZE && block < flashes[no % REGISTERS].maxblock))
  {
    hide DeviceRegister;
    var m := no % REGISTERS;
    forall a, j | IsPage(a, j)
      ensures WritesBlock(FlashPut(no, block), flashes, a - 1, j) <==>
        m == a - 1 && j == block < flashes[a - 1].maxblock
    {
      RegistersMeet(FLASHINT, no, FLASHINT, a - 1);
      NextLine(no, a - 1);
    }
    if 0 <= m < UPROCMAX && 0 <= block < PAGETABLESIZE {
      assert IsPage(m + 1, block);
    }
  }

  // ----------------------------------------------------- runs in which storage calls take part

  // A step of processes and pager, a copy to a frame, or a write of a block.
  datatype Act = Own(e: Event) | Copy(f: nat, page: Page) | Write(a: int, j: int, page: Page)

  // It is possible and, of a storage call, does no harm.
  ghost predicate Decent(s: State, x: Act) {
    match x
    case Own(e) => Enabled(s, e)
    case Copy(f, page) => f < FRAMES && (Needed(s, f) ==> page == s.frames[f])
    case Write(a, j, page) => IsPage(a, j) && (Valid(Lo(s, a, j)) || Evicted(s, a, j) || page == Block(s, a, j))
  }

  ghost function Done(s: State, x: Act): State
    requires Inv(s) && Decent(s, x)
  {
    match x
    case Own(e) => Next(s, e)
    case Copy(f, page) => s.(frames := s.frames[f := page])
    case Write(a, j, page) => BlockSet(s, a, j, page)
  }

  function Owned(p: Page, x: Act, a: int, j: int): Page {
    if x.Own? then Applied(p, x.e, a, j) else p
  }

  lemma DoneContent(s: State, x: Act, a: int, j: int)
    requires Inv(s) && Decent(s, x) && IsPage(a, j)
    ensures Inv(Done(s, x)) && Content(Done(s, x), a, j) == Owned(Content(s, a, j), x, a, j)
  {
    hide Inv, Content, Next, Applied, Needed, Enabled;
    match x
    case Own(e) => NextContent(s, e, a, j);
    case Copy(f, page) => FrameKeepsExactly(s, f, page);
    case Write(b, k, page) => WriteKeepsExactly(s, b, k, page);
  }

  lemma DoneKeeps(s: State, x: Act)
    requires Inv(s) && Decent(s, x)
    ensures Inv(Done(s, x))
  {
    hide Inv, Next, Needed, Enabled, Decent, Done;
    assert IsPage(1, 0);
    DoneContent(s, x, 1, 0);
  }

  ghost predicate IsDecentRun(s: State, xs: seq<Act>)
    requires Inv(s)
    decreases |xs|
  {
    xs != [] ==> Decent(s, xs[0]) && (DoneKeeps(s, xs[0]); IsDecentRun(Done(s, xs[0]), xs[1..]))
  }

  ghost function AfterActs(s: State, xs: seq<Act>): (s': State)
    requires Inv(s) && IsDecentRun(s, xs)
    ensures Inv(s')
    decreases |xs|
  {
    if xs == [] then s else (DoneKeeps(s, xs[0]); AfterActs(Done(s, xs[0]), xs[1..]))
  }

  function PrivateActs(p: Page, xs: seq<Act>, a: int, j: int): Page
    decreases |xs|
  {
    if xs == [] then p else PrivateActs(Owned(p, xs[0], a, j), xs[1..], a, j)
  }

  lemma {:induction false} ActsContent(s: State, xs: seq<Act>, a: int, j: int)
    requires Inv(s) && IsDecentRun(s, xs) && IsPage(a, j)
    ensures Content(AfterActs(s, xs), a, j) == PrivateActs(Content(s, a, j), xs, a, j)
    decreases |xs|
  {
    hide Inv, Done, Decent, Content, Owned;
    if xs != [] {
      DoneKeeps(s, xs[0]);
      DoneContent(s, xs[0], a, j);
      ActsContent(Done(s, xs[0]), xs[1..], a, j);
    }
  }

  // The pages stay private while storage calls copy and write, as long as each of these steps meets its
  // condition; one that does not changes somebody's page or breaks the invariant.
  lemma ActsArePrivate(flash: seq<seq<Page>>, xs: seq<Act>, a: int, j: int, k: nat)
    requires |flash| == UPROCMAX && forall i :: 0 <= i < UPROCMAX ==> |flash[i]| == PAGETABLESIZE
    requires (InitialInv(flash); IsDecentRun(Initial(flash), xs) && Enabled(AfterActs(Initial(flash), xs), Load(a, j, k)))
    ensures Inv(Initial(flash))
    ensures
      var s := AfterActs(Initial(flash), xs);
      0 <= Accessed(s, a, j) < FRAMES && Read(s, a, j, k) == PrivateActs(flash[a - 1][j], xs, a, j)[k]
  {
    hide Inv, Content;
    InitialInv(flash);
    var s := Initial(flash);
    ReadsContent(AfterActs(s, xs), a, j, k);
    ActsContent(s, xs, a, j);
    InvalidatedFields(0);
    StoredContent(s, a, j);
  }
}
