// Linear sector numbers, disk coordinates and command words (phase4/deviceSupportDMA.c:46-76, 98-124).
module DiskGeometry {
  import opened Constants

  // what the d_data1 register of a disk says
  datatype Geometry = Geometry(cyls: nat, heads: nat, sects: nat)

  datatype Coordinates = Coordinates(cyl: nat, head: nat, sect: nat)

  const SEEKCYL: nat := 2
  const DISKREADBLK: nat := 3
  const DISKWRITEBLK: nat := 4

  predicate HasSectors(g: Geometry) {
    g.heads > 0 && g.sects > 0
  }

  // The fields are as wide as the register leaves room for.
  predicate Fits(g: Geometry) {
    HasSectors(g) && g.cyls < 0x1_0000 && g.heads < 0x100 && g.sects < 0x100
  }

  // d_data1, the geometry as the device presents it
  function Register(g: Geometry): Word
    requires Fits(g)
  {
    g.cyls * 0x1_0000 + g.heads * 0x100 + g.sects
  }

  // d_data1 >> 16, (d_data1 >> 8) & 0xFF and d_data1 & 0xFF
  function Unpacked(data1: Word): Geometry {
    Geometry(data1 / 0x1_0000, data1 / 0x100 % 0x100, data1 % 0x100)
  }

  lemma RegisterDecodes(g: Geometry)
    requires Fits(g)
    ensures Unpacked(Register(g)) == g
  {
    assert Register(g) / 0x100 == g.cyls * 0x100 + g.heads;
  }

  function Capacity(g: Geometry): nat {
    g.cyls * (g.heads * g.sects)
  }

  lemma PerCylinder(g: Geometry)
    requires HasSectors(g)
    ensures g.heads * g.sects > 0
  {
  }

  // where sector n is
  function Place(g: Geometry, n: nat): Coordinates
    requires HasSectors(g)
  {
    PerCylinder(g);
    Coordinates(n / (g.heads * g.sects), n % (g.heads * g.sects) / g.sects, n % (g.heads * g.sects) % g.sects)
  }

  predicate Exists(g: Geometry, c: Coordinates) {
    c.cyl < g.cyls && c.head < g.heads && c.sect < g.sects
  }

  // the sectors counted track by track, cylinder by cylinder
  function Linear(g: Geometry, c: Coordinates): nat {
    c.cyl * (g.heads * g.sects) + (c.head * g.sects + c.sect)
  }

  lemma QuotientBelow(x: nat, q: nat, d: nat)
    requires d > 0
    ensures x < q * d <==> x / d < q
  {
    assert x == x / d * d + x % d;
    if x / d < q {
      assert (x / d + 1) * d <= q * d;
    } else {
      assert x / d * d >= q * d;
    }
  }

  lemma QuotientUnique(q: nat, r: nat, d: nat)
    requires r < d
    ensures (q * d + r) / d == q && (q * d + r) % d == r
  {
    var x := q * d + r;
    QuotientBelow(x, q, d);
    QuotientBelow(x, q + 1, d);
    assert (q + 1) * d == q * d + d;
    assert x == x / d * d + x % d;
  }

  // The place of a sector is a place on the disk exactly below the capacity, and determines the sector.
  lemma PlaceIsExact(g: Geometry, n: nat)
    requires HasSectors(g)
    ensures Linear(g, Place(g, n)) == n
    ensures Place(g, n).head < g.heads && Place(g, n).sect < g.sects
    ensures Exists(g, Place(g, n)) <==> n < Capacity(g)
  {
    PerCylinder(g);
    var m := g.heads * g.sects;
    var r := n % m;
    QuotientBelow(r, g.heads, g.sects);
    QuotientBelow(n, g.cyls, m);
    assert n == n / m * m + r;
    assert r == r / g.sects * g.sects + r % g.sects;
  }

  lemma LinearIsExact(g: Geometry, c: Coordinates)
    requires HasSectors(g) && Exists(g, c)
    ensures Linear(g, c) < Capacity(g) && Place(g, Linear(g, c)) == c
  {
    var m, r := g.heads * g.sects, c.head * g.sects + c.sect;
    Below(c.head, c.sect, g.heads, g.sects);
    Below(c.cyl, r, g.cyls, m);
    QuotientUnique(c.cyl, r, m);
    QuotientUnique(c.head, c.sect, g.sects);
  }

  predicate ComesBefore(c: Coordinates, d: Coordinates) {
    c.cyl < d.cyl || (c.cyl == d.cyl && (c.head < d.head || (c.head == d.head && c.sect < d.sect)))
  }

  // Sectors are numbered cylinder by cylinder, in a cylinder track by track, and in a track one by one.
  lemma PlacesInOrder(g: Geometry, n: nat, m: nat)
    requires HasSectors(g) && n < m
    ensures ComesBefore(Place(g, n), Place(g, m))
  {
    PerCylinder(g);
    var k := g.heads * g.sects;
    QuotientGrows(n, m, k);
    if n / k == m / k {
      QuotientGrows(n % k, m % k, g.sects);
    }
  }

  lemma QuotientGrows(x: nat, y: nat, d: nat)
    requires d > 0 && x < y
    ensures x / d < y / d || (x / d == y / d && x % d < y % d)
  {
    QuotientBelow(x, y / d + 1, d);
    assert y == y / d * d + y % d && x == x / d * d + x % d;
    assert (y / d + 1) * d == y / d * d + d;
  }

  lemma Below(q: nat, r: nat, n: nat, d: nat)
    requires q < n && r < d
    ensures q * d + r < n * d
  {
    assert (q + 1) * d <= n * d;
  }

  // -------------------------------------------------------------------- command words

  // (cylnum << 8) | SEEKCYL, in 32 bits
  function SeekCommand(g: Geometry, n: Word): Word
    requires HasSectors(g)
  {
    Place(g, n).cyl * 0x100 % 0x1_0000_0000 + SEEKCYL
  }

  // (headnum << 16) | (sectnum << 8) | command
  function TransferCommand(g: Geometry, n: Word, command: nat): (w: int)
    requires HasSectors(g)
  {
    Place(g, n).head * 0x1_0000 + Place(g, n).sect * 0x100 + command
  }

  // how the device reads them
  function CylinderField(w: Word): nat {
    w / 0x100 % 0x1_0000
  }

  function HeadField(w: Word): nat {
    w / 0x1_0000 % 0x100
  }

  function SectorField(w: Word): nat {
    w / 0x100 % 0x100
  }

  function CommandField(w: Word): nat {
    w % 0x100
  }

  // A seek command carries the cylinder of the sector exactly when the number fits into its field,
  // which it does for every sector of the disk.
  lemma SeekDecodes(g: Geometry, n: Word)
    requires Fits(g)
    ensures CommandField(SeekCommand(g, n)) == SEEKCYL
    ensures CylinderField(SeekCommand(g, n)) == Place(g, n).cyl <==> Place(g, n).cyl < 0x1_0000
    ensures n < Capacity(g) ==> CylinderField(SeekCommand(g, n)) == Place(g, n).cyl < g.cyls
  {
    PlaceIsExact(g, n);
    ShiftedField(Place(g, n).cyl);
  }

  lemma ShiftedField(c: nat)
    ensures
      var w := c * 0x100 % 0x1_0000_0000 + SEEKCYL;
      w % 0x100 == SEEKCYL && w / 0x100 % 0x1_0000 == c % 0x1_0000
  {
    var k, r := c / 0x100_0000, c % 0x100_0000;
    QuotientUnique(k, r * 0x100, 0x1_0000_0000);
    QuotientUnique(k * 0x100 + r / 0x1_0000, r % 0x1_0000, 0x1_0000);
    QuotientUnique(r, SEEKCYL, 0x100);
  }

  lemma TransferDecodes(g: Geometry, n: Word, command: nat)
    requires Fits(g) && command < 0x100
    ensures
      var w := TransferCommand(g, n, command);
      && 0 <= w < 0x1_0000_0000 && CommandField(w) == command
      && HeadField(w) == Place(g, n).head && SectorField(w) == Place(g, n).sect
  {
    hide Linear, Capacity, Place;
    PlaceIsExact(g, n);
    var h, s := Place(g, n).head, Place(g, n).sect;
    QuotientUnique(h, s * 0x100 + command, 0x1_0000);
    QuotientUnique(h * 0x100 + s, command, 0x100);
    QuotientUnique(h, s, 0x100);
  }
}
