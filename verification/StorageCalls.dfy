// SYS14 to SYS17 (get and put of a disk sector, get and put of a flash block): a page moves between a
// process's address space, a DMA buffer in RAM and a disk or flash device (phase3/sysSupport.c:466-640,
// phase4/deviceSupportDMA.c).
module StorageCalls {
  import opened Constants
  import opened DiskGeometry
  import opened DiskTransfer
  import PagerState

  const READBLK: nat := 2
  const WRITEBLK: nat := 3
  const RAMSTART: Word := 0x2000_0000
  // the memory that the devices share with the kernel
  const RAMSIZE: nat := 32 * PAGESIZE + PAGESIZE * UPROCMAX * 2 + 2 * DEVPERINT * PAGESIZE

  // The DMA buffers follow the frames of the swap pool, one for each disk and then one for each flash
  // device. The device number comes from the caller's register as it is, and the address is a word.
  function DiskBuffer(dev: int): (a: Word)
    ensures 0 <= dev < DEVPERINT ==> RAMSTART <= a && a - RAMSTART + PAGESIZE <= RAMSIZE
  {
    (SWAPPOOLADDR + PAGESIZE * UPROCMAX * 2 + dev * PAGESIZE) % 0x1_0000_0000
  }

  function FlashBuffer(dev: int): (a: Word)
    ensures 0 <= dev < DEVPERINT ==> RAMSTART <= a && a - RAMSTART + PAGESIZE <= RAMSIZE
  {
    (SWAPPOOLADDR + PAGESIZE * UPROCMAX * 2 + DEVPERINT * PAGESIZE + dev * PAGESIZE) % 0x1_0000_0000
  }

  predicate PagesApart(a: int, b: int) {
    a + PAGESIZE <= b || b + PAGESIZE <= a
  }

  predicate ApartFromFrames(a: int) {
    forall f :: 0 <= f < PagerState.FRAMES ==> PagesApart(PagerState.FrameAddress(f), a)
  }

  // the number of pages in the address space
  const PAGES: int := 0x10_0000

  // A buffer is a page, whatever the device number is.
  lemma BufferIsPage(dev: int)
    ensures DiskBuffer(dev) == (dev + 0x2_0028) % PAGES * PAGESIZE
    ensures FlashBuffer(dev) == (dev + 0x2_0030) % PAGES * PAGESIZE
  {
    PageOf(dev + 0x2_0028);
    PageOf(dev + 0x2_0030);
  }

  lemma PageOf(p: int)
    ensures p * PAGESIZE % 0x1_0000_0000 == p % PAGES * PAGESIZE
  {
    assert p * PAGESIZE == p / PAGES * 0x1_0000_0000 + p % PAGES * PAGESIZE;
  }

  lemma SamePage(p: int, q: int)
    ensures PagesApart(p * PAGESIZE, q * PAGESIZE) <==> p != q
  {
  }

  // The buffer of a disk overlaps a frame of the swap pool exactly for eight device numbers, -8 to -1, and
  // those that differ from them by a multiple of 2^20; likewise for a flash device and -16 to -9.
  lemma BuffersApartFromFrames(dev: int)
    ensures ApartFromFrames(DiskBuffer(dev)) <==> (dev + 8) % PAGES >= 8
    ensures ApartFromFrames(FlashBuffer(dev)) <==> (dev + 16) % PAGES >= 8
  {
    hide DiskBuffer, FlashBuffer, ApartFromFrames;
    BufferIsPage(dev);
    PageApartFromFrames((dev + 0x2_0028) % PAGES);
    PageApartFromFrames((dev + 0x2_0030) % PAGES);
    ShiftedRemainder(dev + 8, 0x2_0020);
    ShiftedRemainder(dev + 16, 0x2_0020);
  }

  lemma ShiftedRemainder(x: int, c: nat)
    requires c < PAGES
    ensures (x + c) % PAGES == if x % PAGES + c < PAGES then x % PAGES + c else x % PAGES + c - PAGES
  {
    assert x == x / PAGES * PAGES + x % PAGES;
  }

  lemma PageApartFromFrames(p: int)
    ensures ApartFromFrames(p * PAGESIZE) <==> !(0x2_0020 <= p < 0x2_0028)
  {
    if 0x2_0020 <= p < 0x2_0028 {
      assert !PagesApart(PagerState.FrameAddress(p - 0x2_0020), p * PAGESIZE);
    }
  }

  // Which device numbers share a buffer.
  lemma BuffersApart(d: int, e: int)
    ensures PagesApart(DiskBuffer(d), DiskBuffer(e)) <==> d % PAGES != e % PAGES
    ensures PagesApart(FlashBuffer(d), FlashBuffer(e)) <==> d % PAGES != e % PAGES
    ensures PagesApart(DiskBuffer(d), FlashBuffer(e)) <==> d % PAGES != (e + DEVPERINT) % PAGES
  {
    hide DiskBuffer, FlashBuffer, PagesApart;
    BufferIsPage(d);
    BufferIsPage(e);
    PagesShifted(d, e, 0x2_0028);
    PagesShifted(d, e, 0x2_0030);
    PagesShifted(d, e + DEVPERINT, 0x2_0028);
  }

  lemma PagesShifted(d: int, e: int, c: int)
    ensures PagesApart((d + c) % PAGES * PAGESIZE, (e + c) % PAGES * PAGESIZE) <==> d % PAGES != e % PAGES
  {
    SamePage((d + c) % PAGES, (e + c) % PAGES);
    SameRemainder(d + c, e + c);
    SameRemainder(d, e);
  }

  lemma SameRemainder(x: int, y: int)
    ensures x % PAGES == y % PAGES <==> (x - y) % PAGES == 0
  {
    var q, r := x / PAGES - y / PAGES, x % PAGES - y % PAGES;
    assert x - y == q * PAGES + r && -PAGES < r < PAGES;
  }

  // For the devices that exist, no two of these pages overlap.
  lemma ExistingBuffersApart(d: nat, e: nat)
    requires d < DEVPERINT && e < DEVPERINT
    ensures ApartFromFrames(DiskBuffer(d)) && ApartFromFrames(FlashBuffer(e)) && PagesApart(DiskBuffer(d), FlashBuffer(e))
    ensures d != e ==> PagesApart(DiskBuffer(d), DiskBuffer(e)) && PagesApart(FlashBuffer(d), FlashBuffer(e))
  {
    hide DiskBuffer, FlashBuffer, PagesApart, ApartFromFrames;
    BuffersApartFromFrames(d);
    BuffersApartFromFrames(e);
    BuffersApart(d, e);
  }

  // The number -1 is not refused, and its disk buffer is the last frame of the swap pool; the number 8
  // names the buffer of the first flash device.
  lemma NumbersOutside()
    ensures DiskBuffer(-1) == PagerState.FrameAddress(PagerState.FRAMES - 1) && DiskBuffer(8) == FlashBuffer(0)
  {
  }

  datatype Outcome = Terminated | Returned(v0: int)

  // blocks: the flash device answers with fault for a block that it does not have
  datatype FlashState = FlashState(blocks: seq<Block>, maxblock: nat, fault: int)

  type Flash = f: FlashState | |f.blocks| == f.maxblock < 0x100_0000 && f.fault != READY
    witness FlashState([], 0, 0)

  // (blocknumber << 8) | command, in 32 bits
  function FlashCommand(block: Word, command: nat): Word
    requires command < 0x100
  {
    block * 0x100 % 0x1_0000_0000 + command
  }

  // A block number comes through exactly when it fits into the 24 bits left for it.
  lemma FlashDecodes(block: Word, command: nat)
    requires command < 0x100
    ensures FlashCommand(block, command) % 0x100 == command
    ensures FlashCommand(block, command) / 0x100 == block <==> block < 0x100_0000
  {
    var k, r := block / 0x100_0000, block % 0x100_0000;
    QuotientUnique(k, r * 0x100, 0x1_0000_0000);
    QuotientUnique(r, command, 0x100);
  }

  // a flash device and its buffer
  datatype FlashStorage = FlashStorage(flash: Flash, buffer: Block)

  datatype FlashAnswer = FlashAnswer(storage: FlashStorage, status: int)

  // what the device does with a command word
  function FlashExecuted(s: FlashStorage, w: Word): FlashAnswer {
    var f, block := s.flash, w / 0x100;
    if block >= f.maxblock then FlashAnswer(s, f.fault)
    else if w % 0x100 == READBLK then FlashAnswer(s.(buffer := f.blocks[block]), READY)
    else if w % 0x100 == WRITEBLK then FlashAnswer(s.(flash := f.(blocks := f.blocks[block := s.buffer])), READY)
    else FlashAnswer(s, f.fault)
  }

  function FlashOperate(s: FlashStorage, block: Word, command: nat): FlashAnswer
    requires command < 0x100
  {
    FlashExecuted(s, FlashCommand(block, command))
  }

  // A page written to a block is read from it again, and the other blocks stay: in particular, the
  // pager's blocks below PAGETABLESIZE, when the block is none of them.
  lemma FlashWriteThenRead(s: FlashStorage, block: Word, page: Block)
    ensures
      var w := FlashOperate(s.(buffer := page), block, WRITEBLK);
      if block < s.flash.maxblock then
        && w.status == READY && w.storage.flash.blocks == s.flash.blocks[block := page]
        && FlashOperate(w.storage, block, READBLK) == FlashAnswer(w.storage, READY)
        && forall b: Word :: b < s.flash.maxblock && b != block ==>
             FlashOperate(w.storage, b, READBLK).storage.buffer == s.flash.blocks[b]
      else block < 0x100_0000 ==>
        && w == FlashAnswer(s.(buffer := page), s.flash.fault)
        && FlashOperate(s, block, READBLK) == FlashAnswer(s, s.flash.fault)
  {
    FlashDecodes(block, WRITEBLK);
    FlashDecodes(block, READBLK);
    forall b: Word | b < s.flash.maxblock
      ensures FlashCommand(b, READBLK) % 0x100 == READBLK && FlashCommand(b, READBLK) / 0x100 == b
    {
      FlashDecodes(b, READBLK);
    }
  }

  // the check of SYS16 and SYS17, with maxblock - 1 in unsigned arithmetic
  predicate Admitted(logicalAddr: Word, blockNo: int, maxblock: nat) {
    !(logicalAddr < KUSEG || blockNo < 0 || blockNo > (maxblock - 1) % 0x1_0000_0000)
  }

  // It admits the blocks of the device and no others, except on a device without any, where it
  // admits every number.
  lemma AdmittedExactly(logicalAddr: Word, blockNo: int, maxblock: nat)
    requires maxblock < 0x100_0000 && -0x8000_0000 <= blockNo < 0x8000_0000
    ensures Admitted(logicalAddr, blockNo, maxblock) <==>
      logicalAddr >= KUSEG && blockNo >= 0 && (blockNo < maxblock || maxblock == 0)
  {
    if maxblock == 0 {
      assert (maxblock - 1) % 0x1_0000_0000 == 0xFFFF_FFFF;
    }
  }

  // which byte of the source ends up as byte k of the copy
  function Origin(overlap: bool, gap: int, k: nat): (origin: nat)
    requires overlap ==> gap > 0
    ensures origin <= k
    ensures !overlap || k < gap ==> origin == k
    decreases k
  {
    if overlap && k >= gap then Origin(overlap, gap, k - gap) else k
  }

  // size bytes, one by one, from s[j..] to d[i..]. A copy that starts inside its source repeats the bytes
  // in front of it; any other one is exact.
  method Memcpy(d: array<int>, i: nat, s: array<int>, j: nat, size: nat)
    requires i + size <= d.Length && j + size <= s.Length
    modifies d
    ensures
      var overlap := d == s && j < i < j + size;
      forall m {:trigger d[m]} :: i <= m < i + size ==> d[m] == old(s[j + Origin(overlap, i - j, m - i)])
    ensures forall m {:trigger d[m]} :: (0 <= m < i || i + size <= m < d.Length) ==> d[m] == old(d[m])
  {
    ghost var overlap := d == s && j < i < j + size;
    for k := 0 to size
      invariant forall m {:trigger d[m]} :: i <= m < i + k ==> d[m] == old(s[j + Origin(overlap, i - j, m - i)])
      invariant !overlap ==> forall m {:trigger s[m]} :: j + k <= m < j + size ==> s[m] == old(s[m])
      invariant forall m {:trigger d[m]} :: (0 <= m < i || i + k <= m < d.Length) ==> d[m] == old(d[m])
    {
      assert s[j + k] == old(s[j + Origin(overlap, i - j, k)]) by {
        if overlap && k >= i - j {
          assert d[i + (k - (i - j))] == s[j + k];
        }
      }
      d[i + k] := s[j + k];
    }
  }

  // For two different arrays, the copy is exact.
  method MemcpyApart(d: array<int>, i: nat, s: array<int>, j: nat, size: nat)
    requires i + size <= d.Length && j + size <= s.Length && d != s
    modifies d
    ensures d[..] == old(d[..i]) + old(s[j..j + size]) + old(d[i + size..])
  {
    Memcpy(d, i, s, j, size);
    assert forall m {:trigger d[m]} :: i <= m < i + size ==> d[m] == old(s[j + (m - i)]);
  }

  // page k of the memory, from byte address a on
  ghost function PageAt(ram: seq<int>, a: int): Block
    requires RAMSTART <= a && a - RAMSTART + PAGESIZE <= |ram|
  {
    ram[a - RAMSTART..a - RAMSTART + PAGESIZE]
  }

  ghost predicate SameElsewhere(ram: seq<int>, ram': seq<int>, a: int)
    requires RAMSTART <= a
  {
    && |ram'| == |ram|
    && forall i :: 0 <= i < |ram| && (i < a - RAMSTART || i >= a - RAMSTART + PAGESIZE) ==> ram'[i] == ram[i]
  }

  class StorageDriver {
    const ram: array<int>
    const disks: array<Disk>
    const flashes: array<Flash>

    ghost predicate Valid() {
      ram.Length >= RAMSIZE && disks.Length == DEVPERINT && flashes.Length == DEVPERINT
    }

    // a disk with its buffer
    ghost function Disks(dev: nat): Storage
      requires Valid() && dev < DEVPERINT
      reads ram, disks
    {
      Storage(disks[dev], PageAt(ram[..], DiskBuffer(dev)))
    }

    // The device obeys a command word: the page moves between the sector under the heads and the memory
    // at data0.
    method Execute(dev: nat, data0: Word, word: Word) returns (status: int)
      requires Valid() && dev < DEVPERINT && data0 == DiskBuffer(dev)
      modifies ram, disks
      ensures Executed(old(Disks(dev)), word) == Answer(Disks(dev), status)
      ensures disks[..] == old(disks[..])[dev := disks[dev]] && SameElsewhere(old(ram[..]), ram[..], data0)
    {
      hide Linear;
      var d := disks[dev];
      var at, under := data0 - RAMSTART, Under(d, word);
      status := d.fault;
      if CommandField(word) == SEEKCYL && CylinderField(word) < d.geometry.cyls {
        disks[dev] := d.(at := CylinderField(word));
        status := READY;
      } else if CommandField(word) == DISKREADBLK && Exists(d.geometry, under) {
        LinearIsExact(d.geometry, under);
        StorePage(at, d.sectors[Linear(d.geometry, under)]);
        status := READY;
      } else if CommandField(word) == DISKWRITEBLK && Exists(d.geometry, under) {
        LinearIsExact(d.geometry, under);
        disks[dev] := d.(sectors := d.sectors[Linear(d.geometry, under) := ram[at..at + PAGESIZE]]);
        status := READY;
      }
    }

    method StorePage(at: nat, page: Block)
      requires at + PAGESIZE <= ram.Length
      modifies ram
      ensures ram[at..at + PAGESIZE] == page
      ensures forall i :: 0 <= i < ram.Length && !(at <= i < at + PAGESIZE) ==> ram[i] == old(ram[i])
    {
      for k := 0 to PAGESIZE
        invariant forall i {:trigger ram[i]} :: at <= i < at + k ==> ram[i] == page[i - at]
        invariant forall i {:trigger ram[i]} :: 0 <= i < ram.Length && !(at <= i < at + k) ==> ram[i] == old(ram[i])
      {
        ram[at + k] := page[k];
      }
    }

    // Writes the command word for sector sectNo to the device's register, and waits for its answer.
    method DiskOperation(dev: nat, data0: Word, sectNo: Word, command: nat) returns (status: int)
      requires Valid() && dev < DEVPERINT && data0 == DiskBuffer(dev)
      requires command == SEEKCYL || command == DISKREADBLK || command == DISKWRITEBLK
      modifies ram, disks
      ensures Operate(old(Disks(dev)), sectNo, command) == Answer(Disks(dev), status)
      ensures disks[..] == old(disks[..])[dev := disks[dev]] && SameElsewhere(old(ram[..]), ram[..], data0)
    {
      hide Executed, PageAt, SameElsewhere;
      var g := Unpacked(Register(disks[dev].geometry));
      var word;
      RegisterDecodes(disks[dev].geometry);
      TransferDecodes(g, sectNo, command);
      if command == SEEKCYL {
        var cylnum := sectNo / (g.heads * g.sects);
        word := cylnum * 0x100 % 0x1_0000_0000 + command;
      } else {
        var headnum := sectNo % (g.heads * g.sects) / g.sects;
        var sectnum := sectNo % (g.heads * g.sects) % g.sects;
        word := headnum * 0x1_0000 + sectnum * 0x100 + command;
      }
      assert word == CommandWord(g, sectNo, command);
      status := Execute(dev, data0, word);
    }

    // The first stretch of a put, for any device number: the caller's page goes to the page at buffer, which
    // is in the memory that the model has, and to no other.
    method CopyIn(user: array<int>, logicalAddr: Word, buffer: Word)
      requires user != ram && KUSEG <= logicalAddr && logicalAddr - KUSEG + PAGESIZE <= user.Length
      requires RAMSTART <= buffer && buffer - RAMSTART + PAGESIZE <= ram.Length
      modifies ram
      ensures PageAt(ram[..], buffer) == user[logicalAddr - KUSEG..logicalAddr - KUSEG + PAGESIZE]
      ensures SameElsewhere(old(ram[..]), ram[..], buffer)
    {
      MemcpyApart(ram, buffer - RAMSTART, user, logicalAddr - KUSEG, PAGESIZE);
    }

    // SYS15: the page at logicalAddr of the caller's address space, which starts at KUSEG, goes to the disk.
    method DiskPut(user: array<int>, logicalAddr: Word, diskNo: nat, sectNo: Word) returns (r: Outcome)
      requires Valid() && diskNo < DEVPERINT && user != ram
      requires logicalAddr >= KUSEG ==> logicalAddr - KUSEG + PAGESIZE <= user.Length
      modifies ram, disks
      ensures logicalAddr < KUSEG <==> r.Terminated?
      ensures r.Terminated? ==> ram[..] == old(ram[..]) && disks[..] == old(disks[..])
      ensures r.Returned? ==>
        var put := Put(old(Disks(diskNo)), sectNo, user[logicalAddr - KUSEG..logicalAddr - KUSEG + PAGESIZE]);
        && Disks(diskNo) == put.storage && r.v0 == (if put.status == READY then READY else -put.status)
        && disks[..] == old(disks[..])[diskNo := disks[diskNo]] &&
            SameElsewhere(old(ram[..]), ram[..], DiskBuffer(diskNo))
    {
      if logicalAddr < KUSEG {
        return Terminated;
      }
      var buffer := SWAPPOOLADDR + PAGESIZE * UPROCMAX * 2 + diskNo * PAGESIZE;
      CopyIn(user, logicalAddr, buffer);
      var seekStatus := DiskOperation(diskNo, buffer, sectNo, SEEKCYL);
      if seekStatus != READY {
        return Returned(-seekStatus);
      }
      var writeStatus := DiskOperation(diskNo, buffer, sectNo, DISKWRITEBLK);
      return Returned(if writeStatus != READY then -writeStatus else writeStatus);
    }

    // SYS14: the other way round. The caller gets what is in the buffer in the end, even after an error.
    method DiskGet(user: array<int>, logicalAddr: Word, diskNo: nat, sectNo: Word) returns (r: Outcome)
      requires Valid() && diskNo < DEVPERINT && user != ram
      requires logicalAddr >= KUSEG ==> logicalAddr - KUSEG + PAGESIZE <= user.Length
      modifies ram, disks, user
      ensures logicalAddr < KUSEG <==> r.Terminated?
      ensures r.Terminated? ==> ram[..] == old(ram[..]) && disks[..] == old(disks[..]) && user[..] == old(user[..])
      ensures r.Returned? ==>
        var get, i := Get(old(Disks(diskNo)), sectNo), logicalAddr - KUSEG;
        && Disks(diskNo) == get.storage && r.v0 == (if get.status == READY then READY else -get.status)
        && user[..] == old(user[..i]) + get.storage.buffer + old(user[i + PAGESIZE..])
        && disks[..] == old(disks[..])[diskNo := disks[diskNo]] &&
            SameElsewhere(old(ram[..]), ram[..], DiskBuffer(diskNo))
    {
      if logicalAddr < KUSEG {
        return Terminated;
      }
      var buffer := SWAPPOOLADDR + PAGESIZE * UPROCMAX * 2 + diskNo * PAGESIZE;
      var v0 := Fetch(diskNo, buffer, sectNo);
      MemcpyApart(user, logicalAddr - KUSEG, ram, buffer - RAMSTART, PAGESIZE);
      assert PageAt(ram[..], buffer) == ram[buffer - RAMSTART..buffer - RAMSTART + PAGESIZE];
      return Returned(v0);
    }

    // Seek and read; what SYS14 returns.
    method Fetch(diskNo: nat, buffer: Word, sectNo: Word) returns (v0: int)
      requires Valid() && diskNo < DEVPERINT && buffer == DiskBuffer(diskNo)
      modifies ram, disks
      ensures
        var get := Get(old(Disks(diskNo)), sectNo);
        Disks(diskNo) == get.storage && v0 == if get.status == READY then READY else -get.status
      ensures disks[..] == old(disks[..])[diskNo := disks[diskNo]] && SameElsewhere(old(ram[..]), ram[..], buffer)
    {
      hide Operate, PageAt;
      var seekStatus := DiskOperation(diskNo, buffer, sectNo, SEEKCYL);
      if seekStatus != READY {
        v0 := -seekStatus;
      } else {
        var readStatus := DiskOperation(diskNo, buffer, sectNo, DISKREADBLK);
        v0 := if readStatus != READY then -readStatus else readStatus;
      }
    }

    // ------------------------------------------------------------------------- flash

    ghost function Flashes(dev: nat): FlashStorage
      requires Valid() && dev < DEVPERINT
      reads ram, flashes
    {
      FlashStorage(flashes[dev], PageAt(ram[..], FlashBuffer(dev)))
    }

    method FlashOperation(dev: nat, data0: Word, blockNumber: Word, command: nat) returns (status: int)
      requires Valid() && dev < DEVPERINT && data0 == FlashBuffer(dev) && (command == READBLK || command == WRITEBLK)
      modifies ram, flashes
      ensures FlashOperate(old(Flashes(dev)), blockNumber, command) == FlashAnswer(Flashes(dev), status)
      ensures flashes[..] == old(flashes[..])[dev := flashes[dev]] && SameElsewhere(old(ram[..]), ram[..], data0)
    {
      var f := flashes[dev];
      ghost var s := Flashes(dev);
      var word := blockNumber * 0x100 % 0x1_0000_0000 + command;
      FlashDecodes(blockNumber, command);
      assert word == FlashCommand(blockNumber, command);
      var at, block := data0 - RAMSTART, word / 0x100;
      status := f.fault;
      if block < f.maxblock {
        status := READY;
        if command == READBLK {
          StorePage(at, f.blocks[block]);
        } else {
          flashes[dev] := f.(blocks := f.blocks[block := ram[at..at + PAGESIZE]]);
        }
      }
    }

    // SYS17
    method FlashPut(user: array<int>, logicalAddr: Word, flashNo: nat, blockNo: int) returns (r: Outcome)
      requires Valid() && flashNo < DEVPERINT && user != ram && -0x8000_0000 <= blockNo < 0x8000_0000
      requires logicalAddr >= KUSEG ==> logicalAddr - KUSEG + PAGESIZE <= user.Length
      modifies ram, flashes
      ensures r.Terminated? <==> !Admitted(logicalAddr, blockNo, old(flashes[flashNo]).maxblock)
      ensures r.Terminated? ==> ram[..] == old(ram[..]) && flashes[..] == old(flashes[..])
      ensures r.Returned? ==>
        && logicalAddr >= KUSEG && blockNo >= 0
        && var put := FlashOperate(old(Flashes(flashNo)).(buffer :=
            user[logicalAddr - KUSEG..logicalAddr - KUSEG + PAGESIZE]), blockNo, WRITEBLK);
        && Flashes(flashNo) == put.storage && r.v0 == (if put.status == READY then READY else -put.status)
        && flashes[..] == old(flashes[..])[flashNo := flashes[flashNo]] &&
            SameElsewhere(old(ram[..]), ram[..], FlashBuffer(flashNo))
    {
      var maxblock: int := flashes[flashNo].maxblock;
      if logicalAddr < KUSEG || blockNo < 0 || blockNo > (maxblock - 1) % 0x1_0000_0000 {
        return Terminated;
      }
      var buffer := SWAPPOOLADDR + PAGESIZE * UPROCMAX * 2 + DEVPERINT * PAGESIZE + flashNo * PAGESIZE;
      CopyIn(user, logicalAddr, buffer);
      var status := FlashOperation(flashNo, buffer, blockNo, WRITEBLK);
      return Returned(if status != READY then -status else status);
    }

    // SYS16
    method FlashGet(user: array<int>, logicalAddr: Word, flashNo: nat, blockNo: int) returns (r: Outcome)
      requires Valid() && flashNo < DEVPERINT && user != ram && -0x8000_0000 <= blockNo < 0x8000_0000
      requires logicalAddr >= KUSEG ==> logicalAddr - KUSEG + PAGESIZE <= user.Length
      modifies ram, flashes, user
      ensures r.Terminated? <==> !Admitted(logicalAddr, blockNo, old(flashes[flashNo]).maxblock)
      ensures r.Terminated? ==> ram[..] == old(ram[..]) && flashes[..] == old(flashes[..]) && user[..] == old(user[..])
      ensures r.Returned? ==>
        && logicalAddr >= KUSEG && blockNo >= 0
        && var get, i := FlashOperate(old(Flashes(flashNo)), blockNo, READBLK), logicalAddr - KUSEG;
        && Flashes(flashNo) == get.storage && r.v0 == (if get.status == READY then READY else -get.status)
        && user[..] == old(user[..i]) + get.storage.buffer + old(user[i + PAGESIZE..])
        && flashes[..] == old(flashes[..])[flashNo := flashes[flashNo]] &&
            SameElsewhere(old(ram[..]), ram[..], FlashBuffer(flashNo))
    {
      var maxblock: int := flashes[flashNo].maxblock;
      if logicalAddr < KUSEG || blockNo < 0 || blockNo > (maxblock - 1) % 0x1_0000_0000 {
        return Terminated;
      }
      var buffer := SWAPPOOLADDR + PAGESIZE * UPROCMAX * 2 + DEVPERINT * PAGESIZE + flashNo * PAGESIZE;
      var status := FlashOperation(flashNo, buffer, blockNo, READBLK);
      var v0 := if status != READY then -status else status;
      MemcpyApart(user, logicalAddr - KUSEG, ram, buffer - RAMSTART, PAGESIZE);
      assert PageAt(ram[..], buffer) == ram[buffer - RAMSTART..buffer - RAMSTART + PAGESIZE];
      return Returned(v0);
    }
  }
}
