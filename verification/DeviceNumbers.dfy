// Which device a device number names. The number that the caller of a storage call gives is not checked:
// the registers of all devices lie side by side, so that one beyond its own line names a device of another
// (phase4/deviceSupportDMA.c:43-79, 98-124, phase2/exceptions.c:279-286, h/const.h:148-150).
module DeviceNumbers {
  import opened Constants
  import opened DiskGeometry
  import opened DiskTransfer
  import opened StorageCalls
  import NucleusState

  const DISKINT: nat := 3
  const FLASHINT: nat := 4
  const DEVREGBASE: Word := 0x1000_0054
  const DEVREGINTSCALE: nat := 0x80
  const DEVREGDEVSCALE: nat := 0x10

  // how many device registers the address space could hold
  const REGISTERS: int := 0x1000_0000

  // the address of the register of a device, as the drivers compute it
  function DeviceRegister(line: nat, dev: int): Word
    requires DISKINT <= line <= TERMINT
  {
    (DEVREGBASE + (line - 3) * DEVREGINTSCALE + dev * DEVREGDEVSCALE) % 0x1_0000_0000
  }

  // Number dev on one line and device n of another have the same register exactly if they are as far from
  // the first device of all, modulo the size of the address space.
  lemma RegistersMeet(line: nat, dev: int, other: nat, n: nat)
    requires DISKINT <= line <= TERMINT && DISKINT <= other <= TERMINT && n < DEVPERINT
    ensures DeviceRegister(line, dev) == DeviceRegister(other, n) <==>
      ((line - 3) * DEVPERINT + dev) % REGISTERS == (other - 3) * DEVPERINT + n
  {
    RegisterAt((line - 3) * DEVPERINT + dev);
    RegisterAt((other - 3) * DEVPERINT + n);
    StepsApart((line - 3) * DEVPERINT + dev, (other - 3) * DEVPERINT + n);
  }

  lemma RegisterAt(k: int)
    ensures forall line: nat, dev: int :: DISKINT <= line <= TERMINT && k == (line - 3) * DEVPERINT + dev ==>
      DeviceRegister(line, dev) == (0x1000_0054 + k * 0x10) % 0x1_0000_0000
  {
  }

  lemma StepsApart(k: int, m: nat)
    requires m < 40
    ensures (0x1000_0054 + k * 0x10) % 0x1_0000_0000 == (0x1000_0054 + m * 0x10) % 0x1_0000_0000 <==> k % REGISTERS == m
  {
    var q, r := k / 0x1000_0000, k % 0x1000_0000;
    assert k * 0x10 == q * 0x1_0000_0000 + r * 0x10;
    WrapsAround(q, 0x1000_0054 + r * 0x10);
  }

  lemma WrapsAround(q: int, x: int)
    ensures (q * 0x1_0000_0000 + x) % 0x1_0000_0000 == x % 0x1_0000_0000
  {
    var y, z := x / 0x1_0000_0000, x % 0x1_0000_0000;
    assert q * 0x1_0000_0000 + x == (q + y) * 0x1_0000_0000 + z;
  }

  lemma NextLine(dev: int, n: nat)
    requires n < DEVPERINT
    ensures (dev + DEVPERINT) % REGISTERS == DEVPERINT + n <==> dev % REGISTERS == n
  {
    var q, r := dev / 0x1000_0000, dev % 0x1000_0000;
    if r < 0x1000_0000 - 8 {
      WithRemainder(q, r + 8);
    } else {
      assert dev + 8 == (q + 1) * 0x1000_0000 + (r + 8 - 0x1000_0000);
      WithRemainder(q + 1, r + 8 - 0x1000_0000);
    }
  }

  lemma WithRemainder(q: int, r: nat)
    requires r < REGISTERS
    ensures (q * REGISTERS + r) % REGISTERS == r
  {
  }

  // A disk operation reaches a disk exactly for the numbers 0 to 7, a flash device exactly for 8 to 15, and
  // some device exactly for 0 to 39, modulo 2^28; a flash operation likewise from -8 on.
  predicate Reaches(line: nat, dev: int, other: nat)
    requires DISKINT <= line <= TERMINT && DISKINT <= other <= TERMINT
  {
    exists n: nat :: n < DEVPERINT && DeviceRegister(line, dev) == DeviceRegister(other, n)
  }

  lemma ReachesExactly(line: nat, dev: int, other: nat)
    requires DISKINT <= line <= TERMINT && DISKINT <= other <= TERMINT
    ensures Reaches(line, dev, other) <==>
      (other - 3) * DEVPERINT <= ((line - 3) * DEVPERINT + dev) % REGISTERS < (other - 2) * DEVPERINT
  {
    hide DeviceRegister;
    var k := ((line - 3) * DEVPERINT + dev) % REGISTERS;
    forall n: nat | n < DEVPERINT
      ensures DeviceRegister(line, dev) == DeviceRegister(other, n) <==> k == (other - 3) * DEVPERINT + n
    {
      RegistersMeet(line, dev, other, n);
    }
    if (other - 3) * DEVPERINT <= k < (other - 2) * DEVPERINT {
      var n: nat := k - (other - 3) * DEVPERINT;
      assert n < DEVPERINT && DeviceRegister(line, dev) == DeviceRegister(other, n);
    }
  }

  // No device moves anything into or out of a frame of the swap pool, whatever its number: those whose buffer
  // is a frame reach none.
  lemma DevicesApartFromFrames(dev: int)
    ensures dev % REGISTERS < 40 ==> ApartFromFrames(DiskBuffer(dev))
    ensures (dev + DEVPERINT) % REGISTERS < 40 ==> ApartFromFrames(FlashBuffer(dev))
  {
    hide ApartFromFrames, DiskBuffer, FlashBuffer;
    BuffersApartFromFrames(dev);
    if dev % REGISTERS < 40 {
      SmallRemainder(dev);
    }
    if (dev + DEVPERINT) % REGISTERS < 40 {
      SmallRemainder(dev + DEVPERINT);
    }
  }

  lemma SmallRemainder(x: int)
    requires x % REGISTERS < 40
    ensures (x + 8) % PAGES == x % REGISTERS + 8
  {
    var q, r := x / 0x1000_0000, x % 0x1000_0000;
    assert x + 8 == q * 0x100 * 0x10_0000 + (r + 8);
    RemainderOf(q * 0x100, r + 8);
  }

  lemma RemainderOf(q: int, r: nat)
    requires r < PAGES
    ensures (q * PAGES + r) % PAGES == r
  {
  }

  // Mutual exclusion and waiting do not tell the devices apart either: the semaphore that the driver and
  // SYS5 compute from the number is that of the device whose register it has.
  lemma SemaphoresMeet(dev: nat, other: nat, n: nat)
    requires dev < REGISTERS && DISKINT <= other < TERMINT && n < DEVPERINT
    ensures DeviceRegister(DISKINT, dev) == DeviceRegister(other, n) <==>
      dev == NucleusState.Device(other, n, 0).Index()
  {
    RegistersMeet(DISKINT, dev, other, n);
  }

  // ---------------------------------------------------- a flash device in the hands of the disk driver

  // What the driver takes for the geometry is the number of blocks. With no head or no sector a track
  // it divides by 0.
  function Mistaken(f: Flash): Geometry {
    Unpacked(f.maxblock)
  }

  lemma MistakenFits(f: Flash)
    requires HasSectors(Mistaken(f))
    ensures Fits(Mistaken(f))
  {
  }

  // the block that the device takes the seek of sector n to be for, and the one it takes the transfer for
  function SeekBlock(f: Flash, n: Word): nat
    requires HasSectors(Mistaken(f))
  {
    Place(Mistaken(f), n).cyl % 0x100_0000
  }

  function TransferBlock(f: Flash, n: Word): nat
    requires HasSectors(Mistaken(f))
  {
    Place(Mistaken(f), n).head * 0x100 + Place(Mistaken(f), n).sect
  }

  function CommandAs(s: FlashStorage, n: Word, command: nat): FlashAnswer
    requires HasSectors(Mistaken(s.flash)) && (command == SEEKCYL || command == DISKREADBLK || command == DISKWRITEBLK)
  {
    MistakenFits(s.flash);
    FlashExecuted(s, CommandWord(Mistaken(s.flash), n, command))
  }

  // the seek and the transfer of a get, and of a put
  function GetThrough(s: FlashStorage, n: Word): FlashAnswer
    requires HasSectors(Mistaken(s.flash))
  {
    CommandsMistaken(s, n);
    var sought := CommandAs(s, n, SEEKCYL);
    if sought.status != READY then sought else CommandAs(sought.storage, n, DISKREADBLK)
  }

  function PutThrough(s: FlashStorage, n: Word, page: Block): FlashAnswer
    requires HasSectors(Mistaken(s.flash))
  {
    var filled := s.(buffer := page);
    CommandsMistaken(filled, n);
    var sought := CommandAs(filled, n, SEEKCYL);
    if sought.status != READY then sought else CommandAs(sought.storage, n, DISKWRITEBLK)
  }

  // The seek's command is the device's read, the read's is its write, and the write's it does not know.
  lemma CommandsMistaken(s: FlashStorage, n: Word)
    requires HasSectors(Mistaken(s.flash))
    ensures
      var f, c, t := s.flash, SeekBlock(s.flash, n), TransferBlock(s.flash, n);
      && t < f.maxblock
      && CommandAs(s, n, SEEKCYL) ==
         (if c < f.maxblock then FlashAnswer(s.(buffer := f.blocks[c]), READY) else FlashAnswer(s, f.fault))
      && CommandAs(s, n, DISKREADBLK) == FlashAnswer(s.(flash := f.(blocks := f.blocks[t := s.buffer])), READY)
      && CommandAs(s, n, DISKWRITEBLK) == FlashAnswer(s, f.fault)
  {
    hide Place, Linear, Capacity;
    var g := Mistaken(s.flash);
    MistakenFits(s.flash);
    PlaceIsExact(g, n);
    SeekAsBlock(Place(g, n).cyl);
    TransferAsBlock(Place(g, n).head, Place(g, n).sect, DISKREADBLK);
    TransferAsBlock(Place(g, n).head, Place(g, n).sect, DISKWRITEBLK);
    BelowBlocks(s.flash.maxblock);
  }

  lemma SeekAsBlock(c: nat)
    ensures
      var w := c * 0x100 % 0x1_0000_0000 + SEEKCYL;
      w % 0x100 == READBLK && w / 0x100 == c % 0x100_0000
  {
    var k, r := c / 0x100_0000, c % 0x100_0000;
    QuotientUnique(k, r * 0x100, 0x1_0000_0000);
    QuotientUnique(r, SEEKCYL, 0x100);
  }

  lemma TransferAsBlock(h: nat, t: nat, command: nat)
    requires command < 0x100
    ensures (h * 0x1_0000 + t * 0x100 + command) / 0x100 == h * 0x100 + t
    ensures (h * 0x1_0000 + t * 0x100 + command) % 0x100 == command
  {
    QuotientUnique(h * 0x100 + t, command, 0x100);
  }

  lemma BelowBlocks(m: nat)
    ensures m / 0x100 % 0x100 * 0x100 + m % 0x100 <= m
  {
  }

  // A get by such a number copies one block of the flash device over another, and says that it went well,
  // exactly if the first exists. A put changes no block, and never goes well.
  lemma GetThroughExactly(s: FlashStorage, n: Word)
    requires HasSectors(Mistaken(s.flash))
    ensures
      var f, c, t, r := s.flash, SeekBlock(s.flash, n), TransferBlock(s.flash, n), GetThrough(s, n);
      && t < f.maxblock && (r.status == READY <==> c < f.maxblock)
      && r.storage.flash == if c < f.maxblock then f.(blocks := f.blocks[t := f.blocks[c]]) else f
  {
    hide CommandAs, SeekBlock, TransferBlock;
    CommandsMistaken(s, n);
    CommandsMistaken(CommandAs(s, n, SEEKCYL).storage, n);
  }

  lemma PutThroughExactly(s: FlashStorage, n: Word, page: Block)
    requires HasSectors(Mistaken(s.flash))
    ensures
      var f, c, r := s.flash, SeekBlock(s.flash, n), PutThrough(s, n, page);
      && r.storage == FlashStorage(f, if c < f.maxblock then f.blocks[c] else page) && r.status == f.fault != READY
  {
    hide CommandAs, SeekBlock, TransferBlock;
    var filled := s.(buffer := page);
    CommandsMistaken(filled, n);
    CommandsMistaken(CommandAs(filled, n, SEEKCYL).storage, n);
  }

  // On a flash device of 257 blocks, the get of sector 5 of disk 8 copies block 5 over block 0 of flash
  // device 0: the first page of the first process.
  lemma NumberEight(s: FlashStorage)
    requires s.flash.maxblock == 0x101
    ensures DeviceRegister(DISKINT, 8) == DeviceRegister(FLASHINT, 0) && HasSectors(Mistaken(s.flash))
    ensures GetThrough(s, 5).status == READY
    ensures GetThrough(s, 5).storage.flash.blocks == s.flash.blocks[0 := s.flash.blocks[5]]
  {
    hide GetThrough;
    assert Mistaken(s.flash) == Geometry(0, 1, 1);
    assert Place(Mistaken(s.flash), 5) == Coordinates(5, 0, 0);
    GetThroughExactly(s, 5);
  }
}
