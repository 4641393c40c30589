// Demand paging as a state machine: user processes on their own pages, the TLB and its refill
// handler, and the pager between its blocking steps (phase3/vmSupport.c, phase3/initProc.c:112-124,
// phase2/exceptions.c:611-623).
module PagerState {
  import opened Constants

  const FRAMES: nat := UPROCMAX * 2
  const UNOCCUPIED: int := -1
  const PAGEWORDS: nat := PAGESIZE / WORDLEN

  type Page = p: seq<int> | |p| == PAGEWORDS witness seq(PAGEWORDS, i => 0)

  predicate IsAsid(a: int) {
    1 <= a <= UPROCMAX
  }

  predicate IsPage(a: int, j: int) {
    IsAsid(a) && 0 <= j < PAGETABLESIZE
  }

  // ------------------------------------------------------------------ page table words

  // the virtual page numbers that a process may use: 31 from 0x80000 on, and the stack page
  function PageNumber(j: nat): nat
    requires j < PAGETABLESIZE
  {
    if j < PAGETABLESIZE - 1 then 0x80000 + j else 0xBFFFF
  }

  // The first 31 pages of the address space from its start on, and the one below the stack's end.
  lemma PagesOfAddressSpace(j: nat)
    requires j < PAGETABLESIZE
    ensures PageNumber(j) * PAGESIZE == if j < PAGETABLESIZE - 1 then KUSEG + j * PAGESIZE else KUSEGSTACK - PAGESIZE
  {
  }

  // EntryHi: the page number from bit 12, the asid from bit 6
  function EntryHi(a: int, j: int): Word
    requires IsPage(a, j)
  {
    PageNumber(j) * 0x1000 + a * 0x40
  }

  // what the refill handler indexes the page table with
  function RefillIndex(hi: Word): (i: nat)
    ensures i < PAGETABLESIZE
  {
    hi / 0x1000 % 32
  }

  // the missing page number as the pager computes it: (entryHI & 0x000FFFFF) >> PAGESHIFT
  function MissingVpn(hi: Word): Word {
    hi % 0x10_0000 / 0x1000
  }

  function FrameAddress(f: nat): Word
    requires f < FRAMES
  {
    SWAPPOOLADDR + f * PAGESIZE
  }

  // EntryLo: the frame number from bit 12, D is bit 10, V is bit 9
  predicate Valid(lo: Word) {
    lo / 0x200 % 2 == 1
  }

  predicate Dirty(lo: Word) {
    lo / 0x400 % 2 == 1
  }

  function FrameOf(lo: Word): int {
    (lo / 0x1000 * 0x1000 - SWAPPOOLADDR) / PAGESIZE
  }

  function Resident(f: nat): Word
    requires f < FRAMES
  {
    FrameAddress(f) + 0x200 + 0x400
  }

  const ABSENT: Word := 0x400

  // EntryLo &= ~V
  function Invalidated(lo: Word): Word {
    if Valid(lo) then lo - 0x200 else lo
  }

  // Pager and refill handler index the page table alike, whatever EntryHi is, and they find the
  // entry of each of the 32 legal pages, so no two pages share one.
  lemma IndicesAgree(hi: Word)
    ensures MissingVpn(hi) % PAGETABLESIZE == RefillIndex(hi) < PAGETABLESIZE
  {
    var q := hi / 0x10_0000;
    assert hi == q * 0x10_0000 + hi % 0x10_0000;
    assert hi / 0x1000 == q * 0x100 + hi % 0x10_0000 / 0x1000;
  }

  lemma IndexOfPage(a: int, j: int)
    requires IsPage(a, j)
    ensures RefillIndex(EntryHi(a, j)) == MissingVpn(EntryHi(a, j)) % PAGETABLESIZE == j
    ensures EntryHi(a, j) / 0x40 % 0x40 == a
  {
    hide RefillIndex, MissingVpn, PageNumber;
    IndicesAgree(EntryHi(a, j));
    EntryFields(PageNumber(j), a);
    PageIndex(a, j);
  }

  lemma PageIndex(a: int, j: int)
    requires IsPage(a, j)
    ensures RefillIndex(EntryHi(a, j)) == j
  {
    EntryFields(PageNumber(j), a);
    assert 0x80000 + j == 0x4000 * 32 + j;
  }

  lemma EntryFields(v: nat, a: nat)
    requires a < 0x40
    ensures (v * 0x1000 + a * 0x40) / 0x1000 == v && (v * 0x1000 + a * 0x40) / 0x40 % 0x40 == a
  {
    assert (v * 0x1000 + a * 0x40) / 0x40 == v * 0x40 + a;
  }

  // The handler serves an address exactly when it is one of the 32 pages of the process.
  lemma RefillServes(a: int, hi: Word)
    requires IsAsid(a)
    ensures EntryHi(a, RefillIndex(hi)) == hi <==> exists j :: IsPage(a, j) && EntryHi(a, j) == hi
  {
    if j :| IsPage(a, j) && EntryHi(a, j) == hi {
      IndexOfPage(a, j);
    }
    assert IsPage(a, RefillIndex(hi));
  }

  lemma EntryHiInjective(a: int, j: int, b: int, k: int)
    requires IsPage(a, j) && IsPage(b, k) && EntryHi(a, j) == EntryHi(b, k)
    ensures a == b && j == k
  {
    IndexOfPage(a, j);
    IndexOfPage(b, k);
  }

  // The fields of EntryLo do not overlap.
  lemma ResidentFields(f: nat)
    requires f < FRAMES
    ensures Valid(Resident(f)) && Dirty(Resident(f)) && FrameOf(Resident(f)) == f
  {
    assert Resident(f) / 0x1000 == 0x20020 + f;
    assert Resident(f) / 0x200 == (0x20020 + f) * 8 + 3 && Resident(f) / 0x400 == (0x20020 + f) * 4 + 1;
  }

  lemma InvalidatedFields(lo: Word)
    ensures !Valid(Invalidated(lo)) && (Dirty(Invalidated(lo)) <==> Dirty(lo))
    ensures Invalidated(lo) / 0x1000 == lo / 0x1000
    ensures !Valid(ABSENT) && Dirty(ABSENT)
  {
    var q, r := lo / 0x400, lo % 0x400;
    LowFields(q, r);
    if r >= 0x200 {
      LowFields(q, r - 0x200);
    }
  }

  lemma LowFields(q: int, r: int)
    requires 0 <= q && 0 <= r < 0x400
    ensures
      var lo := q * 0x400 + r;
      lo / 0x400 == q && lo / 0x200 == 2 * q + (if r >= 0x200 then 1 else 0) && lo / 0x1000 == q / 4
  {
  }

  // ------------------------------------------------------------------------- the state

  datatype PteRef = NoPte | Pte(asid: int, index: int)

  datatype SwapFrame = SwapFrame(asid: int, vpn: Word, pte: PteRef)

  // Where a process stands. j is the page it faulted on, f the frame chosen for it.
  //   Faulted:  in the pager, before the P on the swap pool semaphore
  //   Queued:   waiting for that semaphore
  //   Holding:  past it
  //   Evicting: the old page of the frame is invalid but not yet written out
  //   Loading:  the frame is free to be read into
  //   Loaded:   it holds page j, and no table says so
  //   Recorded: the swap pool table says so
  //   Published: the page table says so as well; the V is still to come
  datatype Phase =
    | Running
    | Faulted(j: int) | Queued(j: int) | Holding(j: int)
    | Evicting(j: int, f: int) | Loading(j: int, f: int) | Loaded(j: int, f: int) | Recorded(j: int, f: int)
    | Published

  // frames: the swap pool; flash: the blocks 0..31 of the flash device of each process, by asid - 1;
  // lo: EntryLo of every page, by asid; tlb: EntryHi to EntryLo
  datatype Memory = Memory(frames: seq<Page>, flash: seq<seq<Page>>, lo: seq<seq<Word>>, table: seq<SwapFrame>,
                           tlb: map<Word, Word>, phase: seq<Phase>, sem: int, waiting: seq<int>, victim: nat)

  predicate Shaped(s: Memory) {
    && |s.frames| == |s.table| == FRAMES
    && |s.flash| == UPROCMAX && (forall i :: 0 <= i < UPROCMAX ==> |s.flash[i]| == PAGETABLESIZE)
    && |s.lo| == UPROCMAX + 1 && (forall i :: 0 <= i <= UPROCMAX ==> |s.lo[i]| == PAGETABLESIZE)
    && |s.phase| == UPROCMAX + 1
  }

  type State = s: Memory | Shaped(s)
    witness Initial(seq(UPROCMAX, i => seq(PAGETABLESIZE, j => seq(PAGEWORDS, k => 0))))

  function Lo(s: State, a: int, j: int): Word
    requires IsPage(a, j)
  {
    s.lo[a][j]
  }

  function Block(s: State, a: int, j: int): Page
    requires IsPage(a, j)
  {
    s.flash[a - 1][j]
  }

  function SetLo(s: State, a: int, j: int, w: Word): (lo: seq<seq<Word>>)
    requires IsPage(a, j)
    ensures Shaped(s.(lo := lo))
    ensures forall b, k :: IsPage(b, k) ==> lo[b][k] == if b == a && k == j then w else Lo(s, b, k)
  {
    var row: seq<Word> := s.lo[a][j := w];
    s.lo[a := row]
  }

  function SetBlock(s: State, a: int, j: int, p: Page): (flash: seq<seq<Page>>)
    requires IsPage(a, j)
    ensures Shaped(s.(flash := flash))
    ensures forall b, k :: IsPage(b, k) ==> flash[b - 1][k] == if b == a && k == j then p else Block(s, b, k)
  {
    var blocks: seq<Page> := s.flash[a - 1][j := p];
    s.flash[a - 1 := blocks]
  }

  // the tables as initialised, with the processes' images on the flash devices
  function Initial(flash: seq<seq<Page>>): Memory
  {
    Memory(seq(FRAMES, i => seq(PAGEWORDS, k => 0)), flash, seq(UPROCMAX + 1, i => seq(PAGETABLESIZE, j => ABSENT)),
           seq(FRAMES, i => SwapFrame(UNOCCUPIED, 0, NoPte)), map[], seq(UPROCMAX + 1, i => Running), 1, [], 0)
  }

  // ------------------------------------------------------------------------- the steps

  // Forget: the TLB replaces an entry. Advance: process a takes its next step in the pager.
  datatype Event =
    | Load(a: int, j: int, k: nat) | Store(a: int, j: int, k: nat, v: int)
    | Refill(a: int, hi: Word) | Forget(hi: Word) | Fault(a: int, j: int) | Advance(a: int)

  predicate Translates(s: State, a: int, j: int) {
    IsPage(a, j) && EntryHi(a, j) in s.tlb && Valid(s.tlb[EntryHi(a, j)])
  }

  predicate Enabled(s: State, e: Event) {
    match e
    case Load(a, j, k) => Translates(s, a, j) && s.phase[a] == Running && k < PAGEWORDS
    case Store(a, j, k, v) => Translates(s, a, j) && s.phase[a] == Running && k < PAGEWORDS
    case Refill(a, hi) => IsAsid(a) && s.phase[a] == Running && hi !in s.tlb
    case Forget(hi) => true
    case Fault(a, j) =>
      IsPage(a, j) && s.phase[a] == Running && EntryHi(a, j) in s.tlb && !Valid(s.tlb[EntryHi(a, j)])
    case Advance(a) => IsAsid(a) && !s.phase[a].Running? && !s.phase[a].Queued?
  }

  function SetPhase(s: State, a: int, p: Phase): State
    requires IsAsid(a)
  {
    s.(phase := s.phase[a := p])
  }

  // the frame that the hardware accesses
  function Accessed(s: State, a: int, j: int): int
    requires Translates(s, a, j)
  {
    FrameOf(s.tlb[EntryHi(a, j)])
  }

  function DoStore(s: State, a: int, j: int, k: nat, v: int): State
    requires Translates(s, a, j) && 0 <= Accessed(s, a, j) < FRAMES && k < PAGEWORDS
  {
    var f := Accessed(s, a, j);
    var page: Page := s.frames[f][k := v];
    s.(frames := s.frames[f := page])
  }

  // The refill handler enters the page table entry that the missing address, any address, indexes.
  function DoRefill(s: State, a: int, hi: Word): State
    requires IsAsid(a)
  {
    var i := RefillIndex(hi);
    s.(tlb := s.tlb[EntryHi(a, i) := Lo(s, a, i)])
  }

  function DoForget(s: State, hi: Word): State {
    s.(tlb := map h | h in s.tlb && h != hi :: s.tlb[h])
  }

  // P on the swap pool semaphore
  function DoAcquire(s: State, a: int): State
    requires IsAsid(a) && s.phase[a].Faulted?
  {
    var s' := s.(sem := s.sem - 1);
    if s.sem - 1 >= 0 then SetPhase(s', a, Holding(s.phase[a].j))
    else SetPhase(s', a, Queued(s.phase[a].j)).(waiting := s.waiting + [a])
  }

  // The next frame in turn; if it is occupied, its page is invalidated and the TLB cleared.
  function DoChoose(s: State, a: int): State
    requires IsAsid(a) && s.phase[a].Holding?
    requires Occupied(s, s.victim % FRAMES) ==>
      s.table[s.victim % FRAMES].pte.Pte? && PteExists(s.table[s.victim % FRAMES].pte)
  {
    var f, j := s.victim % FRAMES, s.phase[a].j;
    var s' := s.(victim := s.victim + 1);
    if Occupied(s, f) then
      var pte := s.table[f].pte;
      SetPhase(s', a, Evicting(j, f)).(lo := SetLo(s, pte.asid, pte.index, Invalidated(Lo(s, pte.asid, pte.index))),
          tlb := map[])
    else SetPhase(s', a, Loading(j, f))
  }

  predicate PteExists(pte: PteRef) {
    pte.Pte? && IsPage(pte.asid, pte.index)
  }

  predicate Occupied(s: State, f: nat)
    requires f < FRAMES
  {
    s.table[f].asid != UNOCCUPIED
  }

  function DoWriteOut(s: State, a: int): State
    requires IsAsid(a) && s.phase[a].Evicting? && 0 <= s.phase[a].f < FRAMES && IsAsid(s.table[s.phase[a].f].asid)
  {
    var j, f := s.phase[a].j, s.phase[a].f;
    SetPhase(s, a, Loading(j, f)).(flash := SetBlock(s, s.table[f].asid, s.table[f].vpn % PAGETABLESIZE, s.frames[f]))
  }

  function DoReadIn(s: State, a: int): State
    requires IsAsid(a) && s.phase[a].Loading? && 0 <= s.phase[a].f < FRAMES && IsPage(a, s.phase[a].j)
  {
    var j, f := s.phase[a].j, s.phase[a].f;
    SetPhase(s, a, Loaded(j, f)).(frames := s.frames[f := Block(s, a, MissingVpn(EntryHi(a, j)) % PAGETABLESIZE)])
  }

  function DoRecord(s: State, a: int): State
    requires IsAsid(a) && s.phase[a].Loaded? && 0 <= s.phase[a].f < FRAMES && IsPage(a, s.phase[a].j)
  {
    var j, f := s.phase[a].j, s.phase[a].f;
    var vpn := MissingVpn(EntryHi(a, j));
    SetPhase(s, a, Recorded(j, f)).(table := s.table[f := SwapFrame(a, vpn, Pte(a, vpn % PAGETABLESIZE))])
  }

  function DoPublish(s: State, a: int): State
    requires IsAsid(a) && s.phase[a].Recorded? && 0 <= s.phase[a].f < FRAMES && PteExists(s.table[s.phase[a].f].pte)
  {
    var f := s.phase[a].f;
    var pte := s.table[f].pte;
    SetPhase(s, a, Published).(lo := SetLo(s, pte.asid, pte.index, Resident(f)), tlb := map[])
  }

  // V on the swap pool semaphore; the process first in its queue goes on.
  function DoRelease(s: State, a: int): State
    requires IsAsid(a) && s.phase[a].Published?
    requires s.waiting != [] ==> IsAsid(s.waiting[0]) && s.phase[s.waiting[0]].Queued? && s.waiting[0] != a
  {
    var s' := SetPhase(s, a, Running).(sem := s.sem + 1);
    if s.sem + 1 <= 0 && s.waiting != [] then
      SetPhase(s', s.waiting[0], Holding(s.phase[s.waiting[0]].j)).(waiting := s.waiting[1..])
    else s'
  }
}
