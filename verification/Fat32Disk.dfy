/** The FAT and the clusters on the disk (include/fs/fat32.h, kernel/fs/fat32.c): sectors of bytes, of which the
    first FAT holds one 32-bit entry per cluster and the data area a fixed number of sectors per cluster. Sectors
    are read and written whole, as through the buffer cache. */
module Fat32Disk {
  import opened Wrappers
  import opened Pieces

  const BSIZE := 512
  const WRAP: int := 0x1_0000_0000
  const EOF: int := 0x0fff_ffff
  const ROOT := 2                   // superblock.cluster_root_directory

  predicate IsEof(c: int) {
    0x0fff_fff8 <= c <= 0x0fff_ffff
  }

  type Sector = s: seq<Byte> | |s| == BSIZE witness seq(BSIZE, _ => 0)

  function Zeros(n: nat): (r: seq<Byte>)
    ensures |r| == n
  {
    seq(n, _ => 0)
  }

  // ----- 32-bit words in a sector

  function LittleEndian(v: int): (r: seq<Byte>)
    requires 0 <= v < WRAP
    ensures |r| == 4
  {
    [v % 256, v / 256 % 256, v / 65536 % 256, v / 16777216]
  }

  function Number(a: int, b: int, c: int, d: int): int {
    a + 256 * b + 65536 * c + 16777216 * d
  }

  function WordOf(s: Sector, w: nat): int
    requires w < BSIZE / 4
  {
    Number(s[4 * w], s[4 * w + 1], s[4 * w + 2], s[4 * w + 3])
  }

  function WithWord(s: Sector, w: nat, v: int): Sector
    requires w < BSIZE / 4 && 0 <= v < WRAP
  {
    Over(s, 4 * w, LittleEndian(v))
  }

  lemma Digits(v: int)
    requires 0 <= v < WRAP
    ensures v % 256 + 256 * (v / 256 % 256) + 65536 * (v / 65536 % 256) + 16777216 * (v / 16777216) == v
  {
    assert v / 65536 == v / 256 / 256;
    assert v / 16777216 == v / 65536 / 256;
  }

  lemma WordSet(s: Sector, w: nat, v: int)
    requires w < BSIZE / 4 && 0 <= v < WRAP
    ensures WordOf(WithWord(s, w, v), w) == v
    ensures forall x: nat | x < BSIZE / 4 && x != w :: WordOf(WithWord(s, w, v), x) == WordOf(s, x)
  {
    hide LittleEndian;
    var t := LittleEndian(v);
    WordIs(v, t);
    OverRead(s, 4 * w, t);
    var r := Over(s, 4 * w, t);
    forall i | 0 <= i < 4 ensures r[4 * w + i] == t[i] {
      assert r[4 * w..4 * w + 4][i] == t[i];
    }
  }

  lemma WordIs(v: int, t: seq<Byte>)
    requires 0 <= v < WRAP && t == LittleEndian(v)
    ensures Number(t[0], t[1], t[2], t[3]) == v
  {
    Digits(v);
  }

  // ----- Where things are

  datatype Geometry = Geometry(reserved: nat, fats: nat, fatSize: nat, perCluster: nat, dataSectors: nat)

  function FirstData(g: Geometry): nat {
    g.reserved + g.fats * g.fatSize
  }

  function Sectors(g: Geometry): nat {
    FirstData(g) + g.dataSectors
  }

  /** Cluster numbers are below this. */
  function Bound(g: Geometry): int
    requires g.perCluster > 0
  {
    g.dataSectors / g.perCluster + 2
  }

  function ClusterBytes(g: Geometry): nat {
    g.perCluster * BSIZE
  }

  /** The sectors of a cluster, as the format allows. */
  predicate PowerOfTwo(n: nat) {
    n == 1 || n == 2 || n == 4 || n == 8 || n == 16 || n == 32 || n == 64 || n == 128
  }

  /** There is a FAT, it has an entry for every cluster, and no cluster has the number of an end mark. */
  ghost predicate Sane(g: Geometry) {
    PowerOfTwo(g.perCluster) && g.fats > 0 && 4 * Bound(g) <= BSIZE * g.fatSize && Bound(g) < 0x0fff_fff8
        && Sectors(g) < WRAP
  }

  /** FATSecNum and FATEntOffset; the product is a 32-bit number. */
  function FatSector(g: Geometry, c: int): int {
    g.reserved + c * 4 % WRAP / BSIZE
  }

  function FatWord(c: int): (w: nat)
    ensures w < BSIZE / 4
  {
    c * 4 % WRAP % BSIZE / 4
  }

  /** first_sector_clus */
  function DataSector(g: Geometry, c: int): int {
    FirstData(g) + (c - ROOT) * g.perCluster
  }

  /** Different clusters have their entries at different places. */
  lemma EntriesApart(g: Geometry, c: int, d: int)
    requires 0 <= c < WRAP / 4 && 0 <= d < WRAP / 4 && c != d
    ensures FatSector(g, c) != FatSector(g, d) || FatWord(c) != FatWord(d)
  {
    EntryPlace(c);
    EntryPlace(d);
  }

  lemma EntryPlace(c: int)
    requires 0 <= c < WRAP / 4
    ensures c == c * 4 % WRAP / BSIZE * 128 + FatWord(c)
  {
    var q, r := 4 * c / BSIZE, 4 * c % BSIZE;
    assert 4 * c == BSIZE * q + r;
    assert r == 4 * (c - 128 * q);
  }

  lemma EntryInFat(g: Geometry, c: int)
    requires Sane(g) && 0 <= c < Bound(g)
    ensures 0 <= FatSector(g, c) < FirstData(g) && c < WRAP / 4
  {
    EntryPlace(c);
    AtLeastOnce(g.fats, g.fatSize);
  }

  lemma AtLeastOnce(n: nat, w: nat)
    requires n > 0
    ensures n * w >= w
  {
    assert n * w == (n - 1) * w + w;
  }

  /** Every number that fatread lets pass has a sector. */
  lemma EntryOnDisk(g: Geometry, c: int)
    requires Sane(g) && ROOT <= c <= g.dataSectors + 1
    ensures 0 <= FatSector(g, c) < Sectors(g)
  {
    AtLeastOnce(g.fats, g.fatSize);
    assert c * 4 % WRAP <= c * 4;
  }

  lemma BoundIs(g: Geometry)
    requires g.perCluster > 0
    ensures Bound(g) >= 2 && (Bound(g) - 2) * g.perCluster <= g.dataSectors && Bound(g) <= g.dataSectors + 2
  {
    var n := g.dataSectors / g.perCluster;
    AtLeastOnce(g.perCluster, n);
  }

  lemma ClusterOnDisk(g: Geometry, c: int)
    requires Sane(g) && ROOT <= c < Bound(g)
    ensures FirstData(g) <= DataSector(g, c) && DataSector(g, c) + g.perCluster <= Sectors(g)
  {
    BoundIs(g);
    Ordered(c - 2 + 1, Bound(g) - 2, g.perCluster);
    OneMore(c - 2, g.perCluster);
  }

  lemma Ordered(a: nat, b: nat, w: nat)
    requires a <= b
    ensures 0 <= a * w <= b * w
  {}

  /** Different clusters have different sectors. */
  lemma ClustersApart(g: Geometry, c: int, d: int)
    requires ROOT <= c < d
    ensures DataSector(g, c) + g.perCluster <= DataSector(g, d)
  {
    Ordered(c - 2 + 1, d - 2, g.perCluster);
    OneMore(c - 2, g.perCluster);
  }

  // ----- What the disk says

  ghost predicate OnDisk(g: Geometry, disk: seq<Sector>) {
    Sane(g) && |disk| == Sectors(g)
  }

  ghost function Entry(g: Geometry, disk: seq<Sector>, c: int): int {
    if 0 <= FatSector(g, c) < |disk| then WordOf(disk[FatSector(g, c)], FatWord(c)) else 0
  }

  /** What fatread finds for any number. */
  ghost function EntryOr0(g: Geometry, disk: seq<Sector>, c: int): int {
    if ROOT <= c <= g.dataSectors + 1 then Entry(g, disk, c) else 0
  }

  ghost function Bytes(g: Geometry, disk: seq<Sector>, c: int): seq<Byte> {
    var at := DataSector(g, c);
    if ROOT <= c && 0 <= at && at + g.perCluster <= |disk| then Flat(disk[at..at + g.perCluster]) else []
  }

  /** The FAT, an entry for each number. */
  ghost function FatOf(g: Geometry, disk: seq<Sector>): seq<int>
    requires OnDisk(g, disk)
  {
    seq(Bound(g), c => Entry(g, disk, c))
  }

  /** The clusters, each a sequence of bytes. */
  ghost function DataOf(g: Geometry, disk: seq<Sector>): seq<seq<Byte>>
    requires OnDisk(g, disk)
  {
    seq(Bound(g), c => Bytes(g, disk, c))
  }

  /** One entry written. */
  lemma EntryWritten(g: Geometry, disk: seq<Sector>, c: int, v: int)
    requires OnDisk(g, disk) && ROOT <= c < Bound(g) && 0 <= v < WRAP
    ensures 0 <= FatSector(g, c) < |disk|
    ensures var d := disk[FatSector(g, c) := WithWord(disk[FatSector(g, c)], FatWord(c), v)];
      FatOf(g, d) == FatOf(g, disk)[c := v] && DataOf(g, d) == DataOf(g, disk)
  {
    hide FatSector;
    hide FatWord;
    hide WithWord;
    hide WordOf;
    hide FirstData;
    hide DataSector;
    EntryInFat(g, c);
    FatBeforeData(g);
    var d := disk[FatSector(g, c) := WithWord(disk[FatSector(g, c)], FatWord(c), v)];
    WordSet(disk[FatSector(g, c)], FatWord(c), v);
    forall x | 0 <= x < Bound(g) ensures Entry(g, d, x) == if x == c then v else Entry(g, disk, x) {
      EntryInFat(g, x);
      if x != c {
        EntriesApart(g, c, x);
      }
    }
    assert FatOf(g, d) == FatOf(g, disk)[c := v];
    forall x | 0 <= x < Bound(g) ensures Bytes(g, d, x) == Bytes(g, disk, x) {
      if x >= ROOT {
        ClusterOnDisk(g, x);
        var at := DataSector(g, x);
        assert d[at..at + g.perCluster] == disk[at..at + g.perCluster];
      }
    }
    assert DataOf(g, d) == DataOf(g, disk);
  }

  lemma FatBeforeData(g: Geometry)
    ensures FirstData(g) <= Sectors(g)
  {}

  ghost predicate SameBut(disk: seq<Sector>, d: seq<Sector>, lo: int, hi: int) {
    |d| == |disk| && forall x | 0 <= x < |disk| && !(lo <= x < hi) :: d[x] == disk[x]
  }

  /** Sectors of one cluster written. */
  lemma ClusterWritten(g: Geometry, disk: seq<Sector>, d: seq<Sector>, c: int)
    requires OnDisk(g, disk) && ROOT <= c < Bound(g)
             && SameBut(disk, d, DataSector(g, c), DataSector(g, c) + g.perCluster)
    ensures FatOf(g, d) == FatOf(g, disk) && DataOf(g, d) == DataOf(g, disk)[c := Bytes(g, d, c)]
  {
    hide FatSector;
    hide FatWord;
    hide WordOf;
    hide FirstData;
    hide DataSector;
    ClusterOnDisk(g, c);
    FatBeforeData(g);
    forall x | 0 <= x < Bound(g) ensures Entry(g, d, x) == Entry(g, disk, x) {
      EntryInFat(g, x);
    }
    assert FatOf(g, d) == FatOf(g, disk);
    forall x | 0 <= x < Bound(g) && x != c ensures Bytes(g, d, x) == Bytes(g, disk, x) {
      if x >= ROOT {
        ClusterOnDisk(g, x);
        if x < c {
          ClustersApart(g, x, c);
        } else {
          ClustersApart(g, c, x);
        }
        var at := DataSector(g, x);
        assert d[at..at + g.perCluster] == disk[at..at + g.perCluster];
      }
    }
  }

  /** The sectors of a cluster. */
  ghost function Stretch(g: Geometry, disk: seq<Sector>, c: int): (r: seq<Sector>)
    requires OnDisk(g, disk) && ROOT <= c < Bound(g)
    ensures |r| == g.perCluster && AllOf(r, BSIZE)
  {
    ClusterOnDisk(g, c);
    disk[DataSector(g, c)..DataSector(g, c) + g.perCluster]
  }

  lemma BytesAre(g: Geometry, disk: seq<Sector>, c: int)
    requires OnDisk(g, disk) && ROOT <= c < Bound(g)
    ensures FirstData(g) <= DataSector(g, c) && DataSector(g, c) + g.perCluster <= |disk|
    ensures Bytes(g, disk, c) == Flat(Stretch(g, disk, c)) == DataOf(g, disk)[c]
    ensures |Bytes(g, disk, c)| == ClusterBytes(g) == g.perCluster * BSIZE
  {
    ClusterOnDisk(g, c);
    FlatLength(Stretch(g, disk, c), BSIZE);
  }

  /** The layout of the volume: cluster 2 begins behind the reserved sectors and the FATs, each cluster follows
      the one before it, and the last one ends within the disk. */
  lemma Layout(g: Geometry, c: int)
    requires Sane(g) && 2 <= c < Bound(g)
    ensures DataSector(g, 2) == g.reserved + g.fats * g.fatSize
    ensures DataSector(g, c + 1) == DataSector(g, c) + g.perCluster <= g.reserved + g.fats * g.fatSize + g.dataSectors
  {
    OneMore(c - 2, g.perCluster);
    ClusterOnDisk(g, c);
  }

  /** Byte `k` of a cluster is on the disk where the layout has it. */
  lemma ByteAt(g: Geometry, disk: seq<Sector>, c: int, k: nat)
    requires OnDisk(g, disk) && 2 <= c < Bound(g) && k < g.perCluster * 512
    ensures var at := g.reserved + g.fats * g.fatSize + (c - 2) * g.perCluster + k / 512;
      0 <= at < |disk| && |DataOf(g, disk)[c]| == g.perCluster * 512 && DataOf(g, disk)[c][k] == disk[at][k % 512]
  {
    BytesAre(g, disk, c);
    var ss, i := Stretch(g, disk, c), k / 512;
    FlatWithin(ss, i, 512, k % 512, k % 512 + 1);
    assert Flat(ss)[k..k + 1][0] == Flat(ss)[k];
    assert ss[i][k % 512..k % 512 + 1][0] == ss[i][k % 512];
  }

  /** Entry `c` of the FAT is the 32-bit number, least significant byte first, that stands 4 * c bytes behind the
      reserved sectors. */
  lemma EntryAt(g: Geometry, disk: seq<Sector>, c: int)
    requires OnDisk(g, disk) && 0 <= c < Bound(g)
    ensures var at, k := g.reserved + 4 * c / 512, 4 * c % 512;
      at < |disk| && k + 3 < 512
      && var x: int, y: int, z: int, t: int := disk[at][k], disk[at][k + 1], disk[at][k + 2], disk[at][k + 3];
         FatOf(g, disk)[c] == x + 0x100 * y + 0x1_0000 * z + 0x100_0000 * t
  {
    hide FatSector;
    hide FatWord;
    EntryInFat(g, c);
    FatBeforeData(g);
    EntryBytes(g, c);
  }

  lemma EntryBytes(g: Geometry, c: int)
    requires 0 <= c < WRAP / 4
    ensures FatSector(g, c) == g.reserved + 4 * c / 512 && 4 * FatWord(c) == 4 * c % 512
  {
    assert c * 4 % WRAP == 4 * c;
    var q, r := 4 * c / 512, 4 * c % 512;
    assert 4 * c == 512 * q + r;
    assert r == 4 * (c - 128 * q);
  }

  lemma SectorWritten(g: Geometry, disk: seq<Sector>, c: int, i: nat, s: Sector)
    requires OnDisk(g, disk) && ROOT <= c < Bound(g) && i < g.perCluster
    ensures 0 <= DataSector(g, c) + i < |disk| && disk[DataSector(g, c) + i] == Stretch(g, disk, c)[i]
    ensures var d := disk[DataSector(g, c) + i := s];
      SameBut(disk, d, DataSector(g, c), DataSector(g, c) + g.perCluster)
          && Stretch(g, d, c) == Stretch(g, disk, c)[i := s]
  {
    hide DataSector;
    hide FirstData;
    ClusterOnDisk(g, c);
  }

  class Volume {
    const g: Geometry
    var disk: seq<Sector>

    ghost predicate Valid()
      reads this
    {
      OnDisk(g, disk)
    }

    ghost function Fat(): seq<int>
      requires Valid()
      reads this
    {
      FatOf(g, disk)
    }

    ghost function Data(): seq<seq<Byte>>
      requires Valid()
      reads this
    {
      DataOf(g, disk)
    }

    /** fatread: the entry, or 0 for a number that is no cluster's */
    method FatRead(c: int) returns (r: int)
      requires Valid() && 0 <= c < WRAP
      ensures ROOT <= c < Bound(g) ==> r == Fat()[c]
      ensures r == EntryOr0(g, disk, c)
    {
      hide FatSector;
      hide FatWord;
      hide Sectors;
      hide WordOf;
      BoundIs(g);
      if c < ROOT || c > g.dataSectors + 1 {
        return 0;
      }
      EntryOnDisk(g, c);
      var b := disk[FatSector(g, c)];
      r := WordOf(b, FatWord(c));
    }

    /** fatwrite: this entry in the first FAT, no other and no cluster; a number beyond the clusters that the
        check lets pass changes one sector. The second copy's sector is written back as it was read. */
    method FatWrite(c: int, v: int)
      requires Valid() && 0 <= c < WRAP && 0 <= v < WRAP
      modifies this`disk
      ensures Valid()
      ensures ROOT <= c < Bound(g) ==> Fat() == old(Fat())[c := v] && Data() == old(Data())
      ensures ROOT <= c <= g.dataSectors + 1 ==>
                && 0 <= FatSector(g, c) < |old(disk)|
                && disk == old(disk)[FatSector(g, c) := WithWord(old(disk)[FatSector(g, c)], FatWord(c), v)]
      ensures c < ROOT || c > g.dataSectors + 1 ==> disk == old(disk)
    {
      hide FatSector;
      hide FatWord;
      hide Sectors;
      hide WordOf;
      hide WithWord;
      hide FatOf;
      hide DataOf;
      BoundIs(g);
      if c < ROOT || c > g.dataSectors + 1 {
        return;
      }
      if c < Bound(g) {
        EntryWritten(g, disk, c, v);
      }
      EntryOnDisk(g, c);
      SecondOnDisk(g, c);
      var sector0, sector1 := FatSector(g, c), FatSector(g, c) + g.fatSize;
      var b := disk[sector0];
      b := WithWord(b, FatWord(c), v);
      disk := disk[sector0 := b];
      ghost var written := disk;
      var b1 := disk[sector1];
      b := WithWord(b, FatWord(c), v);
      disk := disk[sector1 := b1];
      assert disk == written;
    }

    /** cluszero */
    method ClusZero(c: int)
      requires Valid() && ROOT <= c < Bound(g)
      modifies this`disk
      ensures Valid() && Fat() == old(Fat())
      ensures Data() == old(Data())[c := Zeros(ClusterBytes(g))]
    {
      hide DataSector;
      hide Bytes;
      hide FirstData;
      hide Sane;
      hide Stretch;
      hide Flat;
      BytesAre(g, disk, c);
      var idx := DataSector(g, c);
      var i := 0;
      while i < g.perCluster
        invariant 0 <= i <= g.perCluster && idx == DataSector(g, c) + i && Valid()
        invariant SameBut(old(disk), disk, DataSector(g, c), DataSector(g, c) + g.perCluster)
        invariant forall x | 0 <= x < i :: Stretch(g, disk, c)[x] == Zeros(BSIZE)
      {
        SectorWritten(g, disk, c, i, Zeros(BSIZE));
        disk := disk[idx := Zeros(BSIZE)];
        i, idx := i + 1, idx + 1;
      }
      BytesAre(g, disk, c);
      AllZeros(Stretch(g, disk, c));
      ClusterWritten(g, old(disk), disk, c);
    }

    /** clusread: a stretch within one cluster */
    method ClusRead(c: int, offset: nat, n: nat) returns (dst: seq<Byte>)
      requires Valid() && ROOT <= c < Bound(g) && offset < ClusterBytes(g) && offset + n <= ClusterBytes(g)
      ensures |Data()[c]| == ClusterBytes(g) && dst == Data()[c][offset..offset + n]
    {
      hide DataSector;
      hide Bytes;
      hide FirstData;
      hide DataOf;
      hide Stretch;
      hide Flat;
      hide AllOf;
      BytesAre(g, disk, c);
      ghost var ss, q := Stretch(g, disk, c), offset / BSIZE;
      var secNo, secOff := DataSector(g, c) + offset / BSIZE, offset % BSIZE;
      var len := Min(BSIZE - secOff, n);
      SectorIs(g, disk, c, q);
      FlatWithin(ss, q, BSIZE, secOff, secOff + len);
      var b := disk[secNo];
      dst := b[secOff..secOff + len];
      if len == n {
        return;
      }
      secNo := secNo + 1;
      while |dst| < n
        invariant |dst| <= n && dst == Flat(ss)[offset..offset + |dst|]
        invariant |dst| < n ==> offset + |dst| == (secNo - DataSector(g, c)) * BSIZE && secNo >= DataSector(g, c)
      {
        ghost var i := secNo - DataSector(g, c);
        len := Min(BSIZE, n - |dst|);
        SectorIs(g, disk, c, i);
        FlatWithin(ss, i, BSIZE, 0, len);
        Adjoin(Flat(ss), offset, offset + |dst|, offset + |dst| + len);
        b := disk[secNo];
        dst := dst + b[..len];
        secNo := secNo + 1;
      }
    }

    /** cluswrite: a stretch within one cluster; nothing else changes */
    method ClusWrite(c: int, offset: nat, src: seq<Byte>) returns (written: nat)
      requires Valid() && ROOT <= c < Bound(g) && offset < ClusterBytes(g) && offset + |src| <= ClusterBytes(g)
      modifies this`disk
      ensures Valid() && Fat() == old(Fat()) && written == |src|
      ensures |old(Data())[c]| == ClusterBytes(g) && Data() == old(Data())[c := Over(old(Data())[c], offset, src)]
    {
      hide DataSector;
      hide Bytes;
      hide FirstData;
      hide Stretch;
      hide Flat;
      hide AllOf;
      hide Over;
      hide Sane;
      BytesAre(g, disk, c);
      ghost var ss, q := Stretch(g, disk, c), offset / BSIZE;
      var n := |src|;
      var secNo, secOff := DataSector(g, c) + offset / BSIZE, offset % BSIZE;
      written := 0;
      var len := Min(BSIZE - secOff, n);
      SectorIs(g, disk, c, q);
      FlatOver(ss, q, BSIZE, secOff, src[..len]);
      var b: Sector := Over(disk[secNo], secOff, src[..len]);
      SectorWritten(g, disk, c, q, b);
      disk := disk[secNo := b];
      written := len;
      secNo := secNo + 1;
      while written < n
        invariant Valid() && written <= n && SameBut(old(disk), disk, DataSector(g, c), DataSector(g, c) + g.perCluster)
        invariant Flat(Stretch(g, disk, c)) == Over(Flat(ss), offset, src[..written])
        invariant written < n ==> offset + written == (secNo - DataSector(g, c)) * BSIZE && secNo >= DataSector(g, c)
      {
        ghost var i, now := secNo - DataSector(g, c), Stretch(g, disk, c);
        len := Min(BSIZE, n - written);
        SectorIs(g, disk, c, i);
        FlatOver(now, i, BSIZE, 0, src[written..written + len]);
        OverOver(Flat(ss), offset, src[..written], src[written..written + len]);
        b := Over(disk[secNo], 0, src[written..written + len]);
        SectorWritten(g, disk, c, i, b);
        disk := disk[secNo := b];
        assert src[..written] + src[written..written + len] == src[..written + len];
        written := written + len;
        secNo := secNo + 1;
      }
      assert src[..n] == src;
      BytesAre(g, disk, c);
      ClusterWritten(g, old(disk), disk, c);
    }
  }

  function Min(a: int, b: int): int {
    if a < b then a else b
  }

  lemma SectorIs(g: Geometry, disk: seq<Sector>, c: int, i: nat)
    requires OnDisk(g, disk) && ROOT <= c < Bound(g) && i < g.perCluster
    ensures 0 <= DataSector(g, c) + i < |disk| && disk[DataSector(g, c) + i] == Stretch(g, disk, c)[i]
    ensures AllOf(Stretch(g, disk, c), BSIZE)
  {
    hide DataSector;
    hide FirstData;
    ClusterOnDisk(g, c);
  }

  lemma Adjoin<T>(s: seq<T>, a: nat, b: nat, c: nat)
    requires a <= b <= c <= |s|
    ensures s[a..b] + s[b..c] == s[a..c]
  {}

  lemma {:induction false} AllZeros(ss: seq<Sector>)
    requires forall i | 0 <= i < |ss| :: ss[i] == Zeros(BSIZE)
    ensures Flat(ss) == Zeros(|ss| * BSIZE)
  {
    if ss != [] {
      assert forall i | 0 <= i < |ss[1..]| :: ss[1..][i] == ss[i + 1];
      AllZeros(ss[1..]);
    }
  }

  lemma SecondOnDisk(g: Geometry, c: int)
    requires Sane(g) && ROOT <= c <= g.dataSectors + 1
    ensures 0 <= FatSector(g, c) + g.fatSize < Sectors(g)
  {
    hide FatSector;
    AtLeastOnce(g.fats, g.fatSize);
    EntrySector(g, c);
  }

  lemma EntrySector(g: Geometry, c: int)
    requires 0 <= c
    ensures g.reserved <= FatSector(g, c) <= g.reserved + c / 128
  {
    assert c * 4 % WRAP <= 4 * c;
    assert 4 * c / BSIZE == c / 128;
    Quotients(c * 4 % WRAP, 4 * c);
  }

  lemma Quotients(a: nat, b: nat)
    requires a <= b
    ensures a / BSIZE <= b / BSIZE
  {}
}
