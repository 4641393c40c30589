// Transfers between a disk and its DMA buffer: what one command does, put and get as sequences of
// commands, and what happens when other processes use the same disk in between
// (phase4/deviceSupportDMA.c:41-79, phase3/sysSupport.c:482-557).
module DiskTransfer {
  import opened Constants
  import opened DiskGeometry

  type Block = p: seq<int> | |p| == PAGESIZE witness seq(PAGESIZE, i => 0)

  // at: the cylinder the heads are on; fault: the status the device answers an impossible command with
  datatype DiskState = DiskState(geometry: Geometry, sectors: seq<Block>, at: nat, fault: int)

  predicate IsDisk(d: DiskState) {
    && Fits(d.geometry) && |d.sectors| == Capacity(d.geometry)
    && d.at < d.geometry.cyls && d.fault != READY
  }

  type Disk = d: DiskState | IsDisk(d)
    witness DiskState(Geometry(1, 1, 1), seq(1, i => seq(PAGESIZE, k => 0)), 0, 0)

  // a disk and its DMA buffer
  datatype Storage = Storage(disk: Disk, buffer: Block)

  datatype Answer = Answer(storage: Storage, status: int)

  // ---------------------------------------------------------------------- the device

  function Under(d: Disk, w: Word): Coordinates {
    Coordinates(d.at, HeadField(w), SectorField(w))
  }

  function Executed(s: Storage, w: Word): Answer {
    var d := s.disk;
    if CommandField(w) == SEEKCYL && CylinderField(w) < d.geometry.cyls then Answer(s.(disk := d.(at :=
        CylinderField(w))), READY)
    else if CommandField(w) == DISKREADBLK && Exists(d.geometry, Under(d, w)) then
      LinearIsExact(d.geometry, Under(d, w));
      Answer(s.(buffer := d.sectors[Linear(d.geometry, Under(d, w))]), READY)
    else if CommandField(w) == DISKWRITEBLK && Exists(d.geometry, Under(d, w)) then
      LinearIsExact(d.geometry, Under(d, w));
      Answer(s.(disk := d.(sectors := d.sectors[Linear(d.geometry, Under(d, w)) := s.buffer])), READY)
    else Answer(s, d.fault)
  }

  // ---------------------------------------------------------------------- the driver

  // the command word that diskOperation builds
  function CommandWord(g: Geometry, n: Word, command: nat): Word
    requires Fits(g) && (command == SEEKCYL || command == DISKREADBLK || command == DISKWRITEBLK)
  {
    TransferDecodes(g, n, command);
    if command == SEEKCYL then SeekCommand(g, n) else TransferCommand(g, n, command)
  }

  function Operate(s: Storage, n: Word, command: nat): Answer
    requires command == SEEKCYL || command == DISKREADBLK || command == DISKWRITEBLK
  {
    Executed(s, CommandWord(s.disk.geometry, n, command))
  }

  // The sector that a transfer of sector n reaches with the heads on cylinder c.
  function Reached(g: Geometry, n: Word, c: nat): nat
    requires HasSectors(g)
  {
    Linear(g, Place(g, n).(cyl := c))
  }

  // The right one exactly on the right cylinder.
  lemma ReachedIsExact(g: Geometry, n: Word, c: nat)
    requires HasSectors(g) && c < g.cyls
    ensures Reached(g, n, c) < Capacity(g)
    ensures Reached(g, n, c) == n <==> c == Place(g, n).cyl
  {
    PlaceIsExact(g, n);
    LinearIsExact(g, Place(g, n).(cyl := c));
  }

  lemma OperateExactly(s: Storage, n: Word)
    ensures
      var g := s.disk.geometry;
      var seek, t := Place(g, n).cyl % 0x1_0000, Reached(g, n, s.disk.at);
      && t < |s.disk.sectors|
      && Operate(s, n, SEEKCYL) == (if seek < g.cyls then Answer(s.(disk := s.disk.(at := seek)),
          READY) else Answer(s, s.disk.fault))
      && Operate(s, n, DISKREADBLK) == Answer(s.(buffer := s.disk.sectors[t]), READY)
      && Operate(s, n, DISKWRITEBLK) == Answer(s.(disk := s.disk.(sectors := s.disk.sectors[t := s.buffer])), READY)
  {
    hide Linear, Place, Capacity, SeekCommand, TransferCommand, CommandField, CylinderField, HeadField, SectorField;
    var g := s.disk.geometry;
    PlaceIsExact(g, n);
    SeekField(g, n);
    TransferDecodes(g, n, DISKREADBLK);
    TransferDecodes(g, n, DISKWRITEBLK);
    ReachedIsExact(g, n, s.disk.at);
  }

  lemma SeekField(g: Geometry, n: Word)
    requires Fits(g)
    ensures CommandField(SeekCommand(g, n)) == SEEKCYL && CylinderField(SeekCommand(g, n)) == Place(g, n).cyl % 0x1_0000
  {
    ShiftedField(Place(g, n).cyl);
  }

  // -------------------------------------------------------------------- put and get

  // The caller's page goes into the buffer, then the seek, then the write unless the seek failed.
  function Put(s: Storage, n: Word, page: Block): Answer {
    var filled := s.(buffer := page);
    var sought := Operate(filled, n, SEEKCYL);
    if sought.status != READY then sought else Operate(sought.storage, n, DISKWRITEBLK)
  }

  // The caller gets what is in the buffer in the end, whatever the status.
  function Get(s: Storage, n: Word): Answer {
    var sought := Operate(s, n, SEEKCYL);
    if sought.status != READY then sought else Operate(sought.storage, n, DISKREADBLK)
  }

  // Which sector a number stands for in the end: the driver does not check it, and the cylinder that
  // does not fit into the command word is cut off.
  function Served(g: Geometry, n: Word): nat
    requires HasSectors(g)
  {
    Reached(g, n, Place(g, n).cyl % 0x1_0000)
  }

  predicate Accepted(g: Geometry, n: Word)
    requires HasSectors(g)
  {
    Place(g, n).cyl % 0x1_0000 < g.cyls
  }

  lemma PutExactly(s: Storage, n: Word, page: Block)
    ensures
      var g, r := s.disk.geometry, Put(s, n, page);
      && (r.status == READY <==> Accepted(g, n))
      && (Accepted(g, n) ==>
            Served(g, n) < |s.disk.sectors| && r.storage.disk.sectors == s.disk.sectors[Served(g, n) := page])
      && (Accepted(g, n) ==> r.storage.disk.at == Place(g, n).cyl % 0x1_0000)
      && (!Accepted(g, n) ==> r.storage.disk == s.disk && r.status == s.disk.fault)
      && r.storage.disk.geometry == g && r.storage.disk.fault == s.disk.fault && r.storage.buffer == page
  {
    hide Operate, Linear, Place, Capacity, Reached;
    var filled := s.(buffer := page);
    OperateExactly(filled, n);
    OperateExactly(Operate(filled, n, SEEKCYL).storage, n);
  }

  lemma GetExactly(s: Storage, n: Word)
    ensures
      var g, r := s.disk.geometry, Get(s, n);
      && (r.status == READY <==> Accepted(g, n))
      && (Accepted(g, n) ==> Served(g, n) < |s.disk.sectors| && r.storage.buffer == s.disk.sectors[Served(g, n)])
      && (Accepted(g, n) ==> r.storage.disk.at == Place(g, n).cyl % 0x1_0000)
      && (!Accepted(g, n) ==> r.storage == s && r.status == s.disk.fault)
      && r.storage.disk.sectors == s.disk.sectors && r.storage.disk.geometry == g && r.storage.disk.fault == s.disk.fault
  {
    hide Operate, Linear, Place, Capacity, Reached;
    OperateExactly(s, n);
    OperateExactly(Operate(s, n, SEEKCYL).storage, n);
  }

  // Every sector of the disk is accepted and served as itself. A number beyond the capacity is rejected
  // exactly when its cylinder, cut to 16 bits, is beyond the last one.
  lemma SectorsServed(g: Geometry, n: Word)
    requires Fits(g)
    ensures n < Capacity(g) ==> Accepted(g, n) && Served(g, n) == n
    ensures Accepted(g, n) ==> Served(g, n) < Capacity(g) && (Served(g, n) == n <==> n < Capacity(g))
  {
    PlaceIsExact(g, n);
    if Accepted(g, n) {
      ReachedIsExact(g, n, Place(g, n).cyl % 0x1_0000);
    }
  }

  // On a disk of a single sector, a put to sector 65536 overwrites sector 0.
  lemma OutOfRangeAccepted(s: Storage, page: Block)
    requires s.disk.geometry == Geometry(1, 1, 1)
    ensures Capacity(s.disk.geometry) == 1 && |s.disk.sectors| == 1
    ensures Put(s, 0x1_0000, page).status == READY &&
        Put(s, 0x1_0000, page).storage.disk.sectors == s.disk.sectors[0 := page]
  {
    hide Put;
    assert Place(s.disk.geometry, 0x1_0000) == Coordinates(0x1_0000, 0, 0);
    PutExactly(s, 0x1_0000, page);
  }

  // What is put into a sector is what is got from it, and no other sector changes.
  lemma PutThenGet(s: Storage, n: Word, page: Block)
    requires n < Capacity(s.disk.geometry)
    ensures
      var put := Put(s, n, page);
      var got := Get(put.storage, n);
      && put.status == READY && got.status == READY && got.storage.buffer == page
      && forall m: Word :: m < Capacity(s.disk.geometry) && m != n ==>
           got.storage.disk.sectors[m] == put.storage.disk.sectors[m] == s.disk.sectors[m]
           && Get(put.storage, m).storage.buffer == s.disk.sectors[m]
  {
    hide Put, Get, Accepted, Served, Capacity;
    PutExactly(s, n, page);
    SectorsServed(s.disk.geometry, n);
    var put := Put(s, n, page).storage;
    GetExactly(put, n);
    forall m: Word | m < Capacity(s.disk.geometry)
      ensures Get(put, m).storage.buffer == put.disk.sectors[m]
    {
      SectorsServed(s.disk.geometry, m);
      GetExactly(put, m);
    }
  }

  // -------------------------------------------------- other processes on the same disk

  // Every mutual exclusion section is one event; Fill is a caller's copy into the DMA buffer.
  datatype Event = Fill(page: Block) | Seek(n: Word) | Read(n: Word) | Write(n: Word)

  function Next(s: Storage, e: Event): Storage {
    match e
    case Fill(page) => s.(buffer := page)
    case Seek(n) => Operate(s, n, SEEKCYL).storage
    case Read(n) => Operate(s, n, DISKREADBLK).storage
    case Write(n) => Operate(s, n, DISKWRITEBLK).storage
  }

  function After(s: Storage, es: seq<Event>): Storage
    decreases |es|
  {
    if es == [] then s else After(Next(s, es[0]), es[1..])
  }

  function Front(es: seq<Event>): seq<Event>
    requires es != []
  {
    es[..|es| - 1]
  }

  // The cylinder that the last accepted seek of es leaves the heads on, from cylinder c.
  function HeadsAfter(g: Geometry, es: seq<Event>, c: nat): nat
    requires Fits(g)
    decreases |es|
  {
    if es == [] then c
    else
      var last := es[|es| - 1];
      if last.Seek? && Accepted(g, last.n) then Place(g, last.n).cyl % 0x1_0000 else HeadsAfter(g, Front(es), c)
  }

  // the content of the sector that a transfer of n reaches
  function UnderHeads(d: Disk, n: Word): Block {
    ReachedIsExact(d.geometry, n, d.at);
    d.sectors[Reached(d.geometry, n, d.at)]
  }

  // What the last copy or read of es leaves in the buffer.
  function LastInBuffer(s: Storage, es: seq<Event>): Block
    decreases |es|
  {
    if es == [] then s.buffer
    else
      match es[|es| - 1]
      case Fill(page) => page
      case Read(n) => UnderHeads(After(s, Front(es)).disk, n)
      case _ => LastInBuffer(s, Front(es))
  }

  lemma {:induction false} AfterConcat(s: Storage, es: seq<Event>, fs: seq<Event>)
    ensures After(s, es + fs) == After(After(s, es), fs)
    decreases |es|
  {
    hide Next;
    if es == [] {
      assert es + fs == fs;
    } else {
      assert (es + fs)[0] == es[0] && (es + fs)[1..] == es[1..] + fs;
      AfterConcat(Next(s, es[0]), es[1..], fs);
    }
  }

  lemma AfterOne(s: Storage, e: Event)
    ensures After(s, [e]) == Next(s, e)
  {
    hide Next;
    assert After(s, [e]) == After(Next(s, e), [e][1..]);
  }

  lemma AfterFront(s: Storage, es: seq<Event>)
    requires es != []
    ensures After(s, es) == Next(After(s, Front(es)), es[|es| - 1])
  {
    hide Next, After;
    assert es == Front(es) + [es[|es| - 1]];
    AfterConcat(s, Front(es), [es[|es| - 1]]);
    AfterOne(After(s, Front(es)), es[|es| - 1]);
  }

  // After any events of any processes, the heads and the buffer are where the last seek, copy or read
  // has put them.
  lemma {:induction false} HeadsAndBuffer(s: Storage, es: seq<Event>)
    ensures
      var s' := After(s, es);
      && s'.disk.geometry == s.disk.geometry
      && s'.disk.at == HeadsAfter(s.disk.geometry, es, s.disk.at)
      && s'.buffer == LastInBuffer(s, es)
    decreases |es|
  {
    hide Operate, Linear, Place, Capacity, Reached, Next;
    if es != [] {
      var s1, e := After(s, Front(es)), es[|es| - 1];
      HeadsAndBuffer(s, Front(es));
      AfterFront(s, es);
      NextExactly(s1, e);
    }
  }

  lemma NextExactly(s: Storage, e: Event)
    ensures
      var s', g := Next(s, e), s.disk.geometry;
      && s'.disk.geometry == g
      && s'.disk.at == (if e.Seek? && Accepted(g, e.n) then Place(g, e.n).cyl % 0x1_0000 else s.disk.at)
      && s'.buffer == (if e.Fill? then e.page else if e.Read? then UnderHeads(s.disk, e.n) else s.buffer)
      && (!e.Write? ==> s'.disk.sectors == s.disk.sectors)
      && (e.Write? ==> Reached(g, e.n, s.disk.at) < |s.disk.sectors|
                       && s'.disk.sectors == s.disk.sectors[Reached(g, e.n, s.disk.at) := s.buffer])
  {
    hide Operate, Linear, Place, Capacity, Reached;
    if !e.Fill? {
      OperateExactly(s, e.n);
    }
  }

  lemma {:induction false} HeadsOf(g: Geometry, es: seq<Event>, n: Word, fs: seq<Event>, c: nat)
    requires Fits(g) && Accepted(g, n)
    ensures HeadsAfter(g, es + [Seek(n)] + fs, c) == HeadsAfter(g, fs, Place(g, n).cyl % 0x1_0000) < g.cyls
    decreases |fs|
  {
    hide Place;
    var all := es + [Seek(n)] + fs;
    if fs == [] {
      assert all == es + [Seek(n)];
    } else {
      assert all[|all| - 1] == fs[|fs| - 1] && Front(all) == es + [Seek(n)] + Front(fs);
      HeadsOf(g, es, n, Front(fs), c);
    }
  }

  // ---------------------------------------------------------------------- puts in runs

  // the events of a put, with those of other processes in between
  function PutEvents(page: Block, es: seq<Event>, n: Word, fs: seq<Event>): seq<Event> {
    [Fill(page)] + es + [Seek(n)] + fs
  }

  // Which sector a put writes, and what, whatever others do in between: the sector on the cylinder of
  // the last accepted seek, with the last content of the buffer.
  lemma PutInterleaved(s: Storage, page: Block, es: seq<Event>, n: Word, fs: seq<Event>)
    requires Accepted(s.disk.geometry, n)
    ensures
      var g, before := s.disk.geometry, After(s, PutEvents(page, es, n, fs));
      var heads := HeadsAfter(g, fs, Place(g, n).cyl % 0x1_0000);
      var t, content := Reached(g, n, heads), LastInBuffer(s, PutEvents(page, es, n, fs));
      && t < |before.disk.sectors|
      && After(s, PutEvents(page, es, n, fs) + [Write(n)]).disk.sectors == before.disk.sectors[t := content]
      && (t == n <==> heads == Place(g, n).cyl)
  {
    hide Operate, Linear, Place, Capacity, Reached, After, Next, HeadsAfter, LastInBuffer, Accepted;
    var all := PutEvents(page, es, n, fs);
    AfterFront(s, all + [Write(n)]);
    assert Front(all + [Write(n)]) == all;
    HeadsAndBuffer(s, all);
    HeadsOf(s.disk.geometry, [Fill(page)] + es, n, fs, s.disk.at);
    NextExactly(After(s, all), Write(n));
    ReachedIsExact(s.disk.geometry, n, After(s, all).disk.at);
  }

  // The put is right, in that its sector holds the page and all others are as they were, exactly if it
  // reaches its sector with the page in the buffer; reaching another one, it would be right only by
  // changing nothing.
  lemma PutRightExactly(s: Storage, page: Block, es: seq<Event>, n: Word, fs: seq<Event>)
    requires n < Capacity(s.disk.geometry)
    ensures
      var g, before := s.disk.geometry, After(s, PutEvents(page, es, n, fs));
      var heads, content := HeadsAfter(g, fs, Place(g, n).cyl), LastInBuffer(s, PutEvents(page, es, n, fs));
      && n < |before.disk.sectors| && Reached(g, n, heads) < |before.disk.sectors|
      && (After(s, PutEvents(page, es, n, fs) + [Write(n)]).disk.sectors == before.disk.sectors[n := page] <==>
            if heads == Place(g, n).cyl then content == page
            else before.disk.sectors[n] == page && before.disk.sectors[Reached(g, n, heads)] == content)
  {
    hide Operate, Linear, Place, After, Next, HeadsAfter, LastInBuffer, Served, Reached;
    var g := s.disk.geometry;
    SectorsServed(g, n);
    PlaceIsExact(g, n);
    PutInterleaved(s, page, es, n, fs);
    var before, t := After(s, PutEvents(page, es, n, fs)), Reached(g, n, HeadsAfter(g, fs, Place(g, n).cyl));
    var content := LastInBuffer(s, PutEvents(page, es, n, fs));
    HeadsAndBuffer(s, PutEvents(page, es, n, fs));
    UpdatesAgree(before.disk.sectors, t, content, n, page);
  }

  lemma UpdatesAgree(q: seq<Block>, t: nat, x: Block, n: nat, y: Block)
    requires t < |q| && n < |q|
    ensures q[t := x] == q[n := y] <==> if t == n then x == y else q[n] == y && q[t] == x
  {
    if t != n && q[n] == y && q[t] == x {
      assert q[t := x] == q && q[n := y] == q;
    }
    assert q[n := y][n] == y && q[t := x][t] == x;
  }

  // Nobody overwrites the buffer.
  predicate BufferLeft(es: seq<Event>) {
    forall i :: 0 <= i < |es| ==> !es[i].Fill? && !es[i].Read?
  }

  lemma {:induction false} LeftInBuffer(s: Storage, page: Block, es: seq<Event>)
    requires BufferLeft(es)
    ensures LastInBuffer(s, [Fill(page)] + es) == page
    decreases |es|
  {
    var all := [Fill(page)] + es;
    if es == [] {
      assert all == [Fill(page)];
    } else {
      assert all[|all| - 1] == es[|es| - 1] && Front(all) == [Fill(page)] + Front(es);
      LeftInBuffer(s, page, Front(es));
    }
  }

  lemma LeftForPut(s: Storage, page: Block, es: seq<Event>, n: Word, fs: seq<Event>)
    requires BufferLeft(es) && BufferLeft(fs)
    ensures LastInBuffer(s, PutEvents(page, es, n, fs)) == page
  {
    hide LastInBuffer;
    assert PutEvents(page, es, n, fs) == [Fill(page)] + (es + [Seek(n)] + fs);
    LeftInBuffer(s, page, es + [Seek(n)] + fs);
  }

  // So, as long as nobody else uses the buffer, it is right exactly when the heads are back on its
  // cylinder, but for a page that the disk already holds in both places.
  lemma PutUndisturbed(s: Storage, page: Block, es: seq<Event>, n: Word, fs: seq<Event>)
    requires n < Capacity(s.disk.geometry) && BufferLeft(es) && BufferLeft(fs)
    ensures
      var g, before := s.disk.geometry, After(s, PutEvents(page, es, n, fs));
      var heads := HeadsAfter(g, fs, Place(g, n).cyl);
      && n < |before.disk.sectors| && Reached(g, n, heads) < |before.disk.sectors|
      && After(s, PutEvents(page, es, n, fs) + [Write(n)]).disk.sectors ==
         before.disk.sectors[Reached(g, n, heads) := page]
      && (Reached(g, n, heads) == n <==> heads == Place(g, n).cyl)
  {
    hide Operate, Linear, Place, After, Next, HeadsAfter, LastInBuffer, Served, Reached, Capacity, BufferLeft, PutEvents;
    SectorsServed(s.disk.geometry, n);
    PlaceIsExact(s.disk.geometry, n);
    PutInterleaved(s, page, es, n, fs);
    HeadsAndBuffer(s, PutEvents(page, es, n, fs));
    LeftForPut(s, page, es, n, fs);
  }

  // Two ways to go wrong. The seek and the transfer are separate sections: another process's seek in
  // between sends the page to a sector of that process's cylinder.
  lemma SeekRace(s: Storage, n: Word, m: Word, page: Block)
    requires n < Capacity(s.disk.geometry) && m < Capacity(s.disk.geometry)
    requires Place(s.disk.geometry, n).cyl != Place(s.disk.geometry, m).cyl
    ensures
      var g, before := s.disk.geometry, After(s, PutEvents(page, [], n, [Seek(m)]));
      var t := Reached(g, n, Place(g, m).cyl);
      t != n && t < |before.disk.sectors| &&
      After(s, PutEvents(page, [], n, [Seek(m)]) + [Write(n)]).disk.sectors == before.disk.sectors[t := page]
  {
    hide Operate, Linear, Place, After, Next, Served, Reached, Capacity;
    SectorsServed(s.disk.geometry, m);
    PlaceIsExact(s.disk.geometry, m);
    PutUndisturbed(s, page, [], n, [Seek(m)]);
    assert HeadsAfter(s.disk.geometry, [Seek(m)], Place(s.disk.geometry, n).cyl) == Place(s.disk.geometry, m).cyl;
  }

  // The copy is outside both: another process's copy in between stores that process's page.
  lemma BufferRace(s: Storage, n: Word, page: Block, other: Block)
    requires n < Capacity(s.disk.geometry)
    ensures
      var before := After(s, PutEvents(page, [Fill(other)], n, []));
      n < |before.disk.sectors| &&
      After(s, PutEvents(page, [Fill(other)], n, []) + [Write(n)]).disk.sectors == before.disk.sectors[n := other]
  {
    hide Operate, Linear, Place, After, Next, LastInBuffer, Served, Reached, Capacity;
    SectorsServed(s.disk.geometry, n);
    PlaceIsExact(s.disk.geometry, n);
    PutInterleaved(s, page, [Fill(other)], n, []);
    CopyStays(s, page, other, n);
    assert HeadsAfter(s.disk.geometry, [], Place(s.disk.geometry, n).cyl) == Place(s.disk.geometry, n).cyl;
  }

  lemma CopyStays(s: Storage, page: Block, other: Block, n: Word)
    ensures LastInBuffer(s, PutEvents(page, [Fill(other)], n, [])) == other
  {
    var all := PutEvents(page, [Fill(other)], n, []);
    assert all[2] == Seek(n) && Front(all) == [Fill(page), Fill(other)];
  }

  // ---------------------------------------------------------------------- gets in runs

  function GetEvents(n: Word, es: seq<Event>, fs: seq<Event>): seq<Event> {
    [Seek(n)] + es + [Read(n)] + fs
  }

  // What a get returns, whatever others do between its seek, its read and its copy out of the buffer: if
  // nobody uses the buffer after the read, the content then of the sector on the cylinder of the last
  // accepted seek, which is the right sector exactly on its cylinder.
  lemma GetInterleaved(s: Storage, n: Word, es: seq<Event>, fs: seq<Event>)
    requires n < Capacity(s.disk.geometry)
    ensures
      var g, before, after := s.disk.geometry, After(s, [Seek(n)] + es), After(s, GetEvents(n, es, fs));
      var t := Reached(g, n, HeadsAfter(g, es, Place(g, n).cyl));
      && after.buffer == LastInBuffer(s, GetEvents(n, es, fs))
      && t < |before.disk.sectors| && (t == n <==> HeadsAfter(g, es, Place(g, n).cyl) == Place(g, n).cyl)
      && (BufferLeft(fs) ==> after.buffer == before.disk.sectors[t])
  {
    hide Operate, Linear, Place, After, Next, HeadsAfter, Served, Reached, Capacity;
    var g, start := s.disk.geometry, [Seek(n)] + es;
    SectorsServed(g, n);
    PlaceIsExact(g, n);
    HeadsAndBuffer(s, GetEvents(n, es, fs));
    HeadsAndBuffer(s, start);
    assert [] + [Seek(n)] + es == start;
    HeadsOf(g, [], n, es, s.disk.at);
    ReachedIsExact(g, n, After(s, start).disk.at);
    if BufferLeft(fs) {
      ReadStays(s, start, n, fs);
    }
  }

  // The get is right, in that it returns what the sector held when it was read, exactly if the heads were on its
  // cylinder, or the sector reached held the same; if others use the buffer after the read, exactly if they
  // leave the same in it.
  lemma GetRightExactly(s: Storage, n: Word, es: seq<Event>, fs: seq<Event>)
    requires n < Capacity(s.disk.geometry)
    ensures
      var g, before, after := s.disk.geometry, After(s, [Seek(n)] + es), After(s, GetEvents(n, es, fs));
      var heads, content := HeadsAfter(g, es, Place(g, n).cyl), LastInBuffer(s, GetEvents(n, es, fs));
      && n < |before.disk.sectors| && Reached(g, n, heads) < |before.disk.sectors|
      && (after.buffer == before.disk.sectors[n] <==>
            if BufferLeft(fs)
            then heads == Place(g, n).cyl || before.disk.sectors[Reached(g, n, heads)] == before.disk.sectors[n]
            else content == before.disk.sectors[n])
  {
    hide Operate, Linear, Place, After, Next, HeadsAfter, LastInBuffer, Served, Reached, BufferLeft, GetEvents;
    GetInterleaved(s, n, es, fs);
    HeadsAndBuffer(s, [Seek(n)] + es);
  }

  lemma {:induction false} ReadStays(s: Storage, es: seq<Event>, n: Word, fs: seq<Event>)
    requires BufferLeft(fs)
    ensures LastInBuffer(s, es + [Read(n)] + fs) == UnderHeads(After(s, es).disk, n)
    decreases |fs|
  {
    hide After, Next, Reached, UnderHeads;
    var all := es + [Read(n)] + fs;
    if fs == [] {
      assert all[|all| - 1] == Read(n) && Front(all) == es;
    } else {
      assert all[|all| - 1] == fs[|fs| - 1] && Front(all) == es + [Read(n)] + Front(fs);
      ReadStays(s, es, n, Front(fs));
    }
  }
}
