/** slab.c, size classes and single zones: where the chunks of a zone lie, and how one chunk after
    the other is handed out and taken back. */
module SlabZones {
  import opened RtList
  import opened Chains
  import opened Options
  import opened ReadyIndex

  const NZONES: nat := 72
  const ZONE_HEADER: nat := 36       // sizeof(slab_zone)

  function Up(n: nat, step: nat): nat
    requires step > 0
  {
    (n + step - 1) / step * step
  }

  /** zoneindex: the index of the zone, and the size of its chunks. */
  function ZoneIndex(n: nat): (int, nat) {
    if n < 128 then (Up(n, 8) / 8 - 1, Up(n, 8))
    else if n < 256 then (Up(n, 16) / 16 + 7, Up(n, 16))
    else if n < 512 then (Up(n, 32) / 32 + 15, Up(n, 32))
    else if n < 1024 then (Up(n, 64) / 64 + 23, Up(n, 64))
    else if n < 2048 then (Up(n, 128) / 128 + 31, Up(n, 128))
    else if n < 4096 then (Up(n, 256) / 256 + 39, Up(n, 256))
    else if n < 8192 then (Up(n, 512) / 512 + 47, Up(n, 512))
    else if n < 16384 then (Up(n, 1024) / 1024 + 55, Up(n, 1024))
    else (0, n)
  }

  /** The chunk size of a zone index. */
  function SizeOf(zi: int): int {
    if zi < 16 then (zi + 1) * 8
    else if zi < 24 then (zi - 7) * 16
    else if zi < 32 then (zi - 15) * 32
    else if zi < 40 then (zi - 23) * 64
    else if zi < 48 then (zi - 31) * 128
    else if zi < 56 then (zi - 39) * 256
    else if zi < 64 then (zi - 47) * 512
    else (zi - 55) * 1024
  }

  /** Rounding up gives the least multiple that is large enough. */
  lemma UpSteps(n: nat, step: nat) returns (q: nat)
    requires step > 0
    ensures Up(n, step) == q * step && Up(n, step) / step == q && n <= q * step < n + step
  {
    q := (n + step - 1) / step;
    assert n + step - 1 == q * step + (n + step - 1) % step;
    MultipleOf(q, step);
  }

  /** Every size has an index below NZONES and fits its chunks; chunks of one index have one size, and the
      index is the first whose chunks are large enough. */
  lemma ClassOk(n: nat)
    requires 0 < n < 16384
    ensures var (zi, size) := ZoneIndex(n); 0 <= zi < NZONES && size == SizeOf(zi) && n <= size
    ensures var (zi, size) := ZoneIndex(n); 8 <= size <= 16384 && (n <= 8192 ==> size <= 8192)
    ensures ZoneIndex(n).0 > 0 ==> SizeOf(ZoneIndex(n).0 - 1) < n
    ensures ZoneIndex(n).1 < n + 8 || 8 * (ZoneIndex(n).1 - n) < n
  {
    hide Up;
    var q: nat;
    if n < 128 { q := UpSteps(n, 8); }
    else if n < 256 { q := UpSteps(n, 16); }
    else if n < 512 { q := UpSteps(n, 32); }
    else if n < 1024 { q := UpSteps(n, 64); }
    else if n < 2048 { q := UpSteps(n, 128); }
    else if n < 4096 { q := UpSteps(n, 256); }
    else if n < 8192 { q := UpSteps(n, 512); }
    else { q := UpSteps(n, 1024); }
  }

  lemma SizesGrow(a: int, b: int)
    requires 0 <= a < b < NZONES
    ensures SizeOf(a) < SizeOf(b)
  {
  }

  /** A larger request never gets a smaller chunk. */
  lemma ClassGrows(n: nat, m: nat)
    requires 0 < n <= m < 16384
    ensures ZoneIndex(n).0 <= ZoneIndex(m).0 && ZoneIndex(n).1 <= ZoneIndex(m).1
  {
    hide ZoneIndex, SizeOf;
    ClassOk(n);
    ClassOk(m);
    var a, b := ZoneIndex(n).0, ZoneIndex(m).0;
    if b < a - 1 { SizesGrow(b, a - 1); }
    if a < b { SizesGrow(a, b); }
  }

  /** Rounding again changes nothing, with one exception: the sizes of the last class round up to a value
      that zoneindex does not accept. (rt_realloc rounds before it calls rt_malloc.) */
  lemma ClassAgain(n: nat)
    requires 0 < n < 16384
    ensures ZoneIndex(ZoneIndex(n).1) == ZoneIndex(n) <==> n <= 15360
  {
    var (a, m) := ZoneIndex(n);
    ClassOk(n);
    if m < 16384 {
      ClassOk(m);
      LastClass(n);
      var b := ZoneIndex(m).0;
      hide ZoneIndex, SizeOf;
      if b < a { SizesGrow(b, a); }
      if a < b { SizesGrow(a, b); if a < b - 1 { SizesGrow(a, b - 1); } }
    } else {
      LastClass(n);
    }
  }

  lemma LastClass(n: nat)
    requires 0 < n < 16384
    ensures ZoneIndex(n).1 == 16384 <==> n > 15360
    ensures n > 15360 ==> ZoneIndex(n).0 == 71
  {
    hide ZoneIndex;
    ClassOk(n);
    var a := ZoneIndex(n).0;
    assert SizeOf(70) == 15360 && SizeOf(71) == 16384;
    if a < 70 { SizesGrow(a, 70); }
  }

  // ---- one zone ----

  /** The fields of slab_zone but z_next, and the c_next fields of its chunks. */
  datatype Zone = Zone(magic: bool, nfree: int, nmax: int, base: int, uindex: int, chunkSize: nat, zoneIndex: int,
                       freeChunk: int, cnext: map<int, int>)

  /** The chunks on the free list, and those handed out. */
  datatype Book = Book(free: seq<int>, live: set<int>)

  /** The test for a power of two. */
  function PowerTest(size: nat): bool
    requires size < 0x8000_0000
  {
    var s := size as bv32;
    (s | (s - 1)) + 1 == s << 1
  }

  lemma PowerTestSingle(v: bv32)
    requires 0 < v < 0x8000_0000
    ensures (v | (v - 1)) + 1 == v << 1 <==> Single(v)
  {
  }

  /** It holds exactly for the powers of two. */
  lemma PowerTestOk(size: nat)
    requires 0 < size < 0x8000_0000
    ensures PowerTest(size) <==> exists p :: 0 <= p < 32 && size == Pow2(p)
  {
    ToNumber(size);
    SmallValue(size as bv32);
    PowerTestSingle(size as bv32);
    SingleNumber(size);
  }

  /** Where the chunks start in a zone. */
  function Offset(size: nat): nat
    requires 0 < size < 0x8000_0000
  {
    if PowerTest(size) then Up(ZONE_HEADER, size) else Up(ZONE_HEADER, 8)
  }

  function ChunkAt(z: Zone, i: int): int {
    z.base + i * z.chunkSize
  }

  /** One of the chunks that have ever been handed out. */
  ghost predicate IsChunk(z: Zone, c: int) {
    0 < z.chunkSize && z.base <= c && (c - z.base) % z.chunkSize == 0 && (c - z.base) / z.chunkSize <= z.uindex
  }

  /** nfree counts the chunks never used and those on the free list. */
  ghost predicate ZoneOk(z: Zone, at: int, zoneSize: nat, b: Book) {
    && z.magic && 0 < at && Shape(z, at, zoneSize) && 0 <= z.uindex < z.nmax
    && z.nfree == z.nmax - 1 - z.uindex + |b.free| && Chain(z.cnext, z.freeChunk, b.free)
    && |b.free| + |b.live| == z.uindex + 1
    && (forall c :: c in b.free ==> IsChunk(z, c) && c !in b.live) && (forall c :: c in b.live ==> IsChunk(z, c))
  }

  ghost predicate Shape(z: Zone, at: int, zoneSize: nat) {
    && 8 <= z.chunkSize <= 16384 && 4 * z.chunkSize <= zoneSize
    && z.base == at + Offset(z.chunkSize) && z.nmax == (zoneSize - Offset(z.chunkSize)) / z.chunkSize
  }

  lemma OffsetOk(size: nat)
    requires 8 <= size <= 16384
    ensures ZONE_HEADER <= Offset(size) < ZONE_HEADER + size && (PowerTest(size) ==> Offset(size) % size == 0)
  {
    hide PowerTest, Up;
    var q := UpSteps(ZONE_HEADER, size);
    var p := UpSteps(ZONE_HEADER, 8);
    MultipleOf(q, size);
  }

  lemma MultipleOf(q: nat, step: nat)
    requires step > 0
    ensures q * step % step == 0 && q * step / step == q
  {
    var a, b := q * step / step, q * step % step;
    assert q * step == a * step + b;
    Quotient(a, b, q, 0, step);
  }

  lemma Quotient(a: int, b: int, q: int, m: int, d: int)
    requires 0 <= b < d && 0 <= m < d && a * d + b == q * d + m
    ensures a == q && b == m
  {
    if a > q { AtLeast(a, q, d); }
    if a < q { AtLeast(q, a, d); }
  }

  lemma AtLeast(a: int, q: int, d: int)
    requires a > q && d > 0
    ensures a * d >= q * d + d
  {
    assert a * d - q * d == (a - q) * d;
    assert (a - q) * d >= d by { Positive(a - q, d); }
  }

  lemma {:induction false} Positive(k: int, d: int)
    requires k >= 1 && d > 0
    ensures k * d >= d
  {
    if k > 1 {
      Positive(k - 1, d);
      assert k * d == (k - 1) * d + d;
    }
  }

  /** The first n steps of a given size fit. */
  lemma StepsFit(room: int, d: int, i: int)
    requires 0 < d && 0 <= room
    ensures i + 1 <= room / d ==> i * d + d <= room
    ensures i * d + d <= room ==> i + 1 <= room / d
  {
    var q, b := room / d, room % d;
    assert room == q * d + b;
    if i + 1 < q { AtLeast(q, i + 1, d); }
    if q < i + 1 { AtLeast(i + 1, q, d); }
    assert (i + 1) * d == i * d + d;
  }

  /** Chunk i lies in the zone, behind its header, and does not reach into the next chunk; there is no room for
      one more. */
  lemma ChunkInside(z: Zone, at: int, zoneSize: nat, i: nat)
    requires Shape(z, at, zoneSize) && i < z.nmax
    ensures at + zoneSize < ChunkAt(z, z.nmax) + z.chunkSize
    ensures at + ZONE_HEADER <= ChunkAt(z, i) && ChunkAt(z, i) + z.chunkSize <= at + zoneSize
    ensures ChunkAt(z, i) + z.chunkSize == ChunkAt(z, i + 1)
  {
    hide Offset;
    OffsetOk(z.chunkSize);
    StepsFit(zoneSize - Offset(z.chunkSize), z.chunkSize, i);
    StepsFit(zoneSize - Offset(z.chunkSize), z.chunkSize, z.nmax);
    assert 0 <= i * z.chunkSize && i * z.chunkSize + z.chunkSize == (i + 1) * z.chunkSize;
  }

  /** The chunks of a zone lie at multiples of 8. */
  lemma ChunkAligned(z: Zone, at: int, zoneSize: nat, i: nat)
    requires Shape(z, at, zoneSize) && at % 8 == 0 && z.chunkSize == SizeOf(z.zoneIndex) && 0 <= z.zoneIndex < NZONES
    ensures ChunkAt(z, i) % 8 == 0
  {
    hide Offset, SizeOf;
    SizeEight(z.zoneIndex);
    OffsetEight(z.chunkSize);
    EightTimes(i, z.chunkSize);
    SumEight(at, Offset(z.chunkSize), i * z.chunkSize);
  }

  lemma SumEight(a: int, b: int, c: int)
    requires a % 8 == 0 && b % 8 == 0 && c % 8 == 0
    ensures (a + b + c) % 8 == 0
  {
  }

  lemma EightTimes(i: int, d: nat)
    requires d % 8 == 0
    ensures i * d % 8 == 0
  {
    TimesEight(i, d / 8);
    assert d == 8 * (d / 8);
  }

  lemma SizeEight(zi: int)
    requires 0 <= zi < NZONES
    ensures SizeOf(zi) % 8 == 0
  {
  }

  lemma OffsetEight(size: nat)
    requires 8 <= size <= 16384 && size % 8 == 0
    ensures Offset(size) % 8 == 0
  {
    hide PowerTest, Up;
    var q := UpSteps(ZONE_HEADER, size);
    var p := UpSteps(ZONE_HEADER, 8);
    EightTimes(q, size);
  }

  lemma TimesEight(i: int, k: int)
    ensures i * (8 * k) == 8 * (i * k) && i * (8 * k) % 8 == 0
  {
    assert i * (8 * k) == 8 * (i * k);
  }

  lemma ChunkIs(z: Zone, i: nat)
    requires 0 < z.chunkSize && i <= z.uindex
    ensures IsChunk(z, ChunkAt(z, i)) && (ChunkAt(z, i) - z.base) / z.chunkSize == i
  {
    assert 0 <= i * z.chunkSize;
    MultipleOf(i, z.chunkSize);
  }

  lemma IsChunkAt(z: Zone, c: int) returns (i: nat)
    requires IsChunk(z, c)
    ensures i <= z.uindex && c == ChunkAt(z, i)
  {
    i := (c - z.base) / z.chunkSize;
    assert c - z.base == i * z.chunkSize + (c - z.base) % z.chunkSize;
  }

  /** Different chunks of a zone do not overlap. */
  lemma ChunksApart(z: Zone, c: int, d: int)
    requires IsChunk(z, c) && IsChunk(z, d) && c != d
    ensures c + z.chunkSize <= d || d + z.chunkSize <= c
  {
    var i := IsChunkAt(z, c);
    var j := IsChunkAt(z, d);
    if i < j { AtLeast(j, i, z.chunkSize); }
    if j < i { AtLeast(i, j, z.chunkSize); }
  }

  /** A chunk in use lies in its zone, behind the header. */
  lemma LiveInside(z: Zone, at: int, zoneSize: nat, b: Book, c: int)
    requires ZoneOk(z, at, zoneSize, b) && (c in b.live || c in b.free)
    ensures at + ZONE_HEADER <= c && c + z.chunkSize <= at + zoneSize && 0 < z.chunkSize && 0 < at
  {
    hide Shape, Chain;
    var i := IsChunkAt(z, c);
    ChunkInside(z, at, zoneSize, i);
  }

  // ---- chunk operations ----

  /** The set-up of a zone, its first chunk handed out. */
  function NewZone(at: int, zoneSize: nat, zi: int, size: nat): Zone
    requires 8 <= size <= 16384
  {
    var off := Offset(size);
    var nmax := (zoneSize - off) / size;
    Zone(true, nmax - 1, nmax, at + off, 0, size, zi, 0, map[])
  }

  lemma NewZoneOk(at: int, zoneSize: nat, zi: int, size: nat)
    requires 0 < at && 8 <= size <= 16384 && 4 * size <= zoneSize && 32768 <= zoneSize
    ensures var z := NewZone(at, zoneSize, zi, size);
            ZoneOk(z, at, zoneSize, Book([], {ChunkAt(z, 0)})) && z.nfree > 0 && z.zoneIndex == zi && z.chunkSize == size
  {
    hide Offset;
    OffsetOk(size);
    var z := NewZone(at, zoneSize, zi, size);
    StepsFit(zoneSize - Offset(size), size, 1);
    ChunkIs(z, 0);
  }

  /** The chunk that rt_malloc takes from a zone with nfree > 0: a fresh one while there are any. */
  function Taken(z: Zone): (Zone, int) {
    if z.uindex + 1 != z.nmax then
      (z.(nfree := z.nfree - 1, uindex := z.uindex + 1), ChunkAt(z, z.uindex + 1))
    else
      (z.(nfree := z.nfree - 1, freeChunk := if z.freeChunk in z.cnext then z.cnext[z.freeChunk] else 0), z.freeChunk)
  }

  ghost function TakenBook(z: Zone, b: Book): Book {
    Book(if z.uindex + 1 == z.nmax && b.free != [] then b.free[1..] else b.free, b.live + {Taken(z).1})
  }

  lemma TakenOk(z: Zone, at: int, zoneSize: nat, b: Book)
    requires ZoneOk(z, at, zoneSize, b) && z.nfree > 0
    ensures ZoneOk(Taken(z).0, at, zoneSize, TakenBook(z, b)) && Taken(z).1 !in b.live && Taken(z).1 in TakenBook(z, b).live
    ensures Taken(z).0.nfree == z.nfree - 1 && Taken(z).0.zoneIndex == z.zoneIndex && Taken(z).0.chunkSize == z.chunkSize
  {
    hide Offset, Chain;
    if z.uindex + 1 != z.nmax {
      var z', i := Taken(z).0, z.uindex + 1;
      ChunkIs(z', i);
      forall c | IsChunk(z, c) ensures IsChunk(z', c) && c != ChunkAt(z, i) {
        var j := IsChunkAt(z, c);
        if j == i { assert false; }
        assert ChunkAt(z, j) == ChunkAt(z', j) && ChunkAt(z, i) == ChunkAt(z', i);
        ChunkIs(z', j);
      }
    } else {
      ChainHead(z.cnext, z.freeChunk, b.free);
      ChainPop(z.cnext, z.freeChunk, b.free);
      assert b.free == [b.free[0]] + b.free[1..];
      forall c | IsChunk(z, c) ensures IsChunk(Taken(z).0, c) {}
    }
  }

  /** The chunk goes to the front of the free list. */
  function Returned(z: Zone, c: int): Zone {
    z.(cnext := z.cnext[c := z.freeChunk], freeChunk := c, nfree := z.nfree + 1)
  }

  ghost function ReturnedBook(b: Book, c: int): Book {
    Book([c] + b.free, b.live - {c})
  }

  lemma ReturnedOk(z: Zone, at: int, zoneSize: nat, b: Book, c: int)
    requires ZoneOk(z, at, zoneSize, b) && c in b.live
    ensures ZoneOk(Returned(z, c), at, zoneSize, ReturnedBook(b, c))
    ensures Returned(z, c).nfree == z.nfree + 1 && Returned(z, c).zoneIndex == z.zoneIndex && Returned(z, c).chunkSize == z.chunkSize
  {
    hide Offset, Chain;
    LiveInside(z, at, zoneSize, b, c);
    ChainPush(z.cnext, z.freeChunk, b.free, c);
    forall d | IsChunk(z, d) ensures IsChunk(Returned(z, c), d) {}
  }

  /** nfree reaches nmax exactly when no chunk is in use. */
  lemma AllBack(z: Zone, at: int, zoneSize: nat, b: Book)
    requires ZoneOk(z, at, zoneSize, b)
    ensures z.nfree == z.nmax <==> b.live == {}
    ensures z.nfree <= z.nmax
  {
    hide Chain, Shape;
  }
}
