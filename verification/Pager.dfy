// The pager over its tables: every stretch between two blocking points does to the swap pool table,
// the page tables, the TLB and the frames exactly what the state machine of PagerState says.
module PagerCode {
  import opened Constants
  import opened PagerState
  import opened PagerInvariant
  import opened PagerRefinement

  const READBLK: nat := 2
  const WRITEBLK: nat := 3

  datatype PageEntry = PageEntry(hi: Word, lo: Word)

  class Pager {
    const swapPoolTable: array<SwapFrame>
    // the sup_privatePgTbl of every support structure
    const privatePgTbl: array2<PageEntry>
    var swapPoolSem: int
    var victim: nat
    // the hardware: the frames of the swap pool, the flash devices, the TLB
    var frames: seq<Page>
    var flash: seq<seq<Page>>
    var tlb: map<Word, Word>
    ghost var st: State

    ghost predicate Tables()
      reads this`st, swapPoolTable, privatePgTbl
    {
      && swapPoolTable[..] == st.table
      && privatePgTbl.Length0 == UPROCMAX + 1 && privatePgTbl.Length1 == PAGETABLESIZE
      && (forall a, j {:trigger privatePgTbl[a, j]} :: IsPage(a, j) ==>
          privatePgTbl[a, j] == PageEntry(EntryHi(a, j), Lo(st, a, j)))
    }

    ghost predicate Rep()
      reads this, swapPoolTable, privatePgTbl
    {
      Tables() && swapPoolSem == st.sem && victim == st.victim && frames == st.frames && flash == st.flash &&
          tlb == st.tlb
    }

    constructor (flash: seq<seq<Page>>)
      requires |flash| == UPROCMAX && forall i :: 0 <= i < UPROCMAX ==> |flash[i]| == PAGETABLESIZE
      ensures Rep() && st == Initial(flash) && Inv(st)
      ensures fresh(swapPoolTable) && fresh(privatePgTbl)
    {
      swapPoolTable := new SwapFrame[FRAMES](i => SwapFrame(0, 0, Pte(0, 0)));
      privatePgTbl := new PageEntry[UPROCMAX + 1, PAGETABLESIZE]((i, j) => PageEntry(0, 0));
      swapPoolSem, victim := 0, 0;
      frames := seq(FRAMES, i => seq(PAGEWORDS, k => 0));
      this.flash := flash;
      tlb := map[];
      st := Initial(flash);
      new;
      InitSwapStructs();
      InitPageTables();
      InitialInv(flash);
    }

    method InitSwapStructs()
      requires swapPoolTable.Length == FRAMES
      modifies this`swapPoolSem, swapPoolTable
      ensures swapPoolTable[..] == seq(FRAMES, i => SwapFrame(UNOCCUPIED, 0, NoPte)) && swapPoolSem == 1
    {
      for i := 0 to FRAMES
        invariant forall k :: 0 <= k < i ==> swapPoolTable[k] == SwapFrame(UNOCCUPIED, 0, NoPte)
      {
        swapPoolTable[i] := SwapFrame(UNOCCUPIED, 0, NoPte);
      }
      swapPoolSem := 1;
    }

    // the page tables of the processes 1 to UPROCMAX: every page dirty and absent
    method InitPageTables()
      requires privatePgTbl.Length0 == UPROCMAX + 1 && privatePgTbl.Length1 == PAGETABLESIZE
      modifies privatePgTbl
      ensures forall a, j {:trigger privatePgTbl[a, j]} :: IsPage(a, j) ==>
          privatePgTbl[a, j] == PageEntry(EntryHi(a, j), ABSENT)
    {
      for i := 1 to UPROCMAX + 1
        invariant forall a, j {:trigger privatePgTbl[a, j]} :: IsPage(a, j) && a < i ==>
            privatePgTbl[a, j] == PageEntry(EntryHi(a, j), ABSENT)
      {
        for j := 0 to PAGETABLESIZE - 1
          invariant forall a, k {:trigger privatePgTbl[a, k]} :: IsPage(a, k) && (a < i || (a == i && k < j)) ==>
            privatePgTbl[a, k] == PageEntry(EntryHi(a, k), ABSENT)
        {
          privatePgTbl[i, j] := PageEntry((0x80000 + j) * 0x1000 + i * 0x40, 0x400);
        }
        privatePgTbl[i, PAGETABLESIZE - 1] := PageEntry(0xBFFFF * 0x1000 + i * 0x40, 0x400);
      }
    }

    // One page moves between the memory at address data0 and a block of the flash device dev.
    method FlashOperation(dev: nat, data0: Word, block: nat, command: nat)
      requires |frames| == FRAMES && |flash| == UPROCMAX && dev < UPROCMAX && block < |flash[dev]|
      requires exists f: nat :: f < FRAMES && data0 == FrameAddress(f)
      requires command == READBLK || command == WRITEBLK
      modifies this`frames, this`flash
      ensures var f := (data0 - SWAPPOOLADDR) / PAGESIZE;
        && 0 <= f < FRAMES
        && (command == READBLK ==> flash == old(flash) && frames == old(frames)[f := old(flash)[dev][block]])
        && (command == WRITEBLK ==>
              frames == old(frames) && flash == old(flash)[dev := old(flash)[dev][block := old(frames)[f]]])
    {
      var f := (data0 - SWAPPOOLADDR) / PAGESIZE;
      if command == READBLK {
        frames := frames[f := flash[dev][block]];
      } else {
        var blocks: seq<Page> := flash[dev][block := frames[f]];
        flash := flash[dev := blocks];
      }
    }

    method GetVictim() returns (frameIndex: nat)
      modifies this`victim
      ensures frameIndex == old(victim) % FRAMES && victim == old(victim) + 1
    {
      frameIndex := victim % (UPROCMAX * 2);
      victim := victim + 1;
    }

    // ---------------------------------------------------------- the stretches of the pager

    // SYS3 on the swap pool semaphore
    method Acquire(a: int)
      requires Rep() && IsAsid(a) && st.phase[a].Faulted?
      modifies this`swapPoolSem, this`st
      ensures Rep() && st == DoAcquire(old(st), a)
    {
      swapPoolSem := swapPoolSem - 1;
      st := DoAcquire(st, a);
    }

    // Picks the frame; with interrupts off, the page in it becomes invalid and the TLB empty.
    method Choose(a: int) returns (frame: nat)
      requires Rep() && Inv(st) && IsAsid(a) && st.phase[a].Holding?
      modifies this`victim, this`tlb, this`st, privatePgTbl
      ensures AdvanceDefined(old(st), a) && Rep() && st == DoChoose(old(st), a) && frame == old(st).victim % FRAMES
      ensures Tables() && (swapPoolTable[frame].asid != UNOCCUPIED <==> st.phase[a].Evicting?)
    {
      hide Inv;
      AdvanceIsDefined(st, a);
      frame := GetVictim();
      if swapPoolTable[frame].asid != UNOCCUPIED {
        var pte := swapPoolTable[frame].pte;
        var entry := privatePgTbl[pte.asid, pte.index];
        privatePgTbl[pte.asid, pte.index] := entry.(lo := if Valid(entry.lo) then entry.lo - 0x200 else entry.lo);
        tlb := map[];
      }
      st := DoChoose(st, a);
    }

    method WriteOut(a: int, frame: nat)
      requires Rep() && Inv(st) && IsAsid(a) && st.phase[a].Evicting? && frame == st.phase[a].f
      modifies this`frames, this`flash, this`st
      ensures AdvanceDefined(old(st), a) && Rep() && st == DoWriteOut(old(st), a)
    {
      hide Inv;
      AdvanceIsDefined(st, a);
      assert FrameAddress(frame) == SWAPPOOLADDR + frame * PAGESIZE;
      FlashOperation(swapPoolTable[frame].asid - 1, SWAPPOOLADDR + frame * PAGESIZE,
          swapPoolTable[frame].vpn % PAGETABLESIZE, WRITEBLK);
      st := DoWriteOut(st, a);
    }

    method ReadIn(a: int, entryHi: Word, frame: nat)
      requires Rep() && Inv(st) && IsAsid(a) && st.phase[a].Loading? && frame == st.phase[a].f
      requires IsPage(a, st.phase[a].j) && entryHi == EntryHi(a, st.phase[a].j)
      modifies this`frames, this`flash, this`st
      ensures AdvanceDefined(old(st), a) && Rep() && st == DoReadIn(old(st), a)
    {
      hide Inv;
      AdvanceIsDefined(st, a);
      assert FrameAddress(frame) == SWAPPOOLADDR + frame * PAGESIZE;
      FlashOperation(a - 1, SWAPPOOLADDR + frame * PAGESIZE, MissingVpn(entryHi) % PAGETABLESIZE, READBLK);
      st := DoReadIn(st, a);
    }

    method Record(a: int, entryHi: Word, frame: nat)
      requires Rep() && Inv(st) && IsAsid(a) && st.phase[a].Loaded? && frame == st.phase[a].f
      requires IsPage(a, st.phase[a].j) && entryHi == EntryHi(a, st.phase[a].j)
      modifies this`st, swapPoolTable
      ensures AdvanceDefined(old(st), a) && Rep() && st == DoRecord(old(st), a)
    {
      hide Inv;
      AdvanceIsDefined(st, a);
      var missingVpn := MissingVpn(entryHi);
      swapPoolTable[frame] := SwapFrame(a, missingVpn, Pte(a, missingVpn % PAGETABLESIZE));
      st := DoRecord(st, a);
    }

    // With interrupts off: the page becomes valid and the TLB empty.
    method Publish(a: int, frame: nat)
      requires Rep() && Inv(st) && IsAsid(a) && st.phase[a].Recorded? && frame == st.phase[a].f
      modifies this`tlb, this`st, privatePgTbl
      ensures AdvanceDefined(old(st), a) && Rep() && st == DoPublish(old(st), a)
    {
      hide Inv;
      AdvanceIsDefined(st, a);
      var pte := swapPoolTable[frame].pte;
      privatePgTbl[pte.asid, pte.index] := privatePgTbl[pte.asid,
          pte.index].(lo := SWAPPOOLADDR + frame * PAGESIZE + 0x200 + 0x400);
      tlb := map[];
      st := DoPublish(st, a);
    }

    // SYS4 on the swap pool semaphore
    method Release(a: int)
      requires Rep() && Inv(st) && IsAsid(a) && st.phase[a].Published?
      modifies this`swapPoolSem, this`st
      ensures AdvanceDefined(old(st), a) && Rep() && st == DoRelease(old(st), a)
    {
      hide Inv;
      AdvanceIsDefined(st, a);
      swapPoolSem := swapPoolSem + 1;
      st := DoRelease(st, a);
    }

    // The refill handler: the TLB gets the page table entry that the missing address indexes.
    method RefillTlb(a: int, entryHi: Word)
      requires Rep() && IsAsid(a)
      modifies this`tlb, this`st
      ensures Rep() && st == DoRefill(old(st), a, entryHi)
      ensures entryHi in tlb <==> entryHi in old(tlb) || exists j :: IsPage(a, j) && entryHi == EntryHi(a, j)
    {
      RefillServes(a, entryHi);
      var entry := privatePgTbl[a, RefillIndex(entryHi)];
      tlb := tlb[entry.hi := entry.lo];
      st := DoRefill(st, a, entryHi);
    }

    // The pager when the swap pool is free and nobody else runs meanwhile: the missing page becomes
    // valid, the caller runs again, and every page of every process holds what it held.
    method Serve(a: int, entryHi: Word)
      requires Rep() && Inv(st) && IsAsid(a) && st.phase[a].Faulted? && st.sem >= 1
      requires IsPage(a, st.phase[a].j) && entryHi == EntryHi(a, st.phase[a].j)
      modifies this, swapPoolTable, privatePgTbl
      ensures Rep() && Inv(st) && st.phase[a] == Running
      ensures IsPage(a, old(st).phase[a].j) && Valid(Lo(st, a, old(st).phase[a].j))
      ensures Inv(old(st)) && forall b, k :: IsPage(b, k) ==> Content(st, b, k) == Content(old(st), b, k)
    {
      hide Inv, Content, DoAcquire, DoChoose, DoWriteOut, DoReadIn, DoRecord, DoPublish, DoRelease, Rep, Valid;
      StepInside(st, a);
      Acquire(a);
      StepForward(st, a);
      var frame := Choose(a);
      if swapPoolTable[frame].asid != UNOCCUPIED {
        StepForward(st, a);
        WriteOut(a, frame);
      }
      StepForward(st, a);
      ReadIn(a, entryHi, frame);
      StepForward(st, a);
      Record(a, entryHi, frame);
      StepForward(st, a);
      Publish(a, frame);
      StepForward(st, a);
      Release(a);
    }
  }

  lemma StepInside(s: State, a: int)
    requires Inv(s) && IsAsid(a) && s.phase[a].Faulted? && s.sem >= 1
    ensures Inv(DoAcquire(s, a)) && DoAcquire(s, a).phase[a] == Holding(s.phase[a].j)
    ensures forall b, k :: IsPage(b, k) ==> Content(DoAcquire(s, a), b, k) == Content(s, b, k)
  {
    hide Inv, Content;
    StepIsNext(s, Advance(a));
    NextKeeps(s, Advance(a));
    forall b, k | IsPage(b, k)
      ensures Content(DoAcquire(s, a), b, k) == Content(s, b, k)
    {
      NextContent(s, Advance(a), b, k);
    }
  }

  lemma StepForward(s: State, a: int)
    requires Inv(s) && IsAsid(a) && Critical(s.phase[a])
    ensures AdvanceDefined(s, a) && Inv(Step(s, a))
    ensures forall b, k :: IsPage(b, k) ==> Content(Step(s, a), b, k) == Content(s, b, k)
    ensures
      var p, p' := s.phase[a], Step(s, a).phase[a];
      && (p.Holding? ==> p' == Evicting(p.j, s.victim % FRAMES) || p' == Loading(p.j, s.victim % FRAMES))
      && (p.Evicting? ==> p' == Loading(p.j, p.f))
      && (p.Loading? ==> p' == Loaded(p.j, p.f))
      && (p.Loaded? ==> p' == Recorded(p.j, p.f))
      && (p.Recorded? ==> p' == Published && IsPage(a, p.j) && Valid(Lo(Step(s, a), a, p.j)))
      && (p.Published? ==> p' == Running && Step(s, a).lo == s.lo)
  {
    hide Inv, Content, Valid;
    AdvanceIsDefined(s, a);
    StepIsNext(s, Advance(a));
    NextKeeps(s, Advance(a));
    StepProgress(s, a);
    forall b, k | IsPage(b, k)
      ensures Content(Step(s, a), b, k) == Content(s, b, k)
    {
      NextContent(s, Advance(a), b, k);
    }
  }
}
