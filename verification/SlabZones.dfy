/** Size classes of the slab allocator and the chunks of one zone. */
module SlabZones {
  import opened Lists
  import opened Bits

  /** RT_MM_PAGE_SIZE */
  const PAGE: nat := 4096
  /** sizeof(struct rt_slab_zone) in a 64-bit build */
  const ZONE_HEADER: nat := 56
  /** RT_SLAB_NZONES */
  const NZONES: nat := 72
  /** ZALLOC_MIN_ZONE_SIZE, ZALLOC_MAX_ZONE_SIZE, ZALLOC_ZONE_LIMIT */
  const MIN_ZONE: nat := 32 * 1024
  const MAX_ZONE: nat := 128 * 1024
  const ZONE_LIMIT: nat := 16 * 1024

  // ---- size classes -------------------------------------------------------------------------------

  /** `x` is `d` times its quotient plus its remainder. */
  lemma Division(x: nat, d: nat)
    requires d > 0
    ensures x == x / d * d + x % d && 0 <= x % d < d && x / d >= 0
  {
  }

  lemma Quotients(x: nat, d: nat)
    requires d > 0
    ensures x / d >= 0 && x / d * d <= x < x / d * d + d
  {
    Division(x, d);
  }

  function RoundUp(n: nat, step: nat): (r: nat)
    requires step > 0
    ensures n <= r < n + step
  {
    Division(n + step - 1, step);
    (n + step - 1) / step * step
  }

  /** The step of the classes for requests of `n` bytes, and what `zoneindex` adds to the quotient. */
  function Step(n: nat): (nat, int) {
    if n < 128 then (8, -1)
    else if n < 256 then (16, 7)
    else if n < 512 then (32, 15)
    else if n < 1024 then (64, 23)
    else if n < 2048 then (128, 31)
    else if n < 4096 then (256, 39)
    else if n < 8192 then (512, 47)
    else (1024, 55)
  }

  /** The chunk size that `zoneindex` stores. */
  function ChunkSize(n: nat): nat {
    RoundUp(n, Step(n).0)
  }

  /** The index that `zoneindex` returns. */
  function ZoneIndex(n: nat): int {
    ChunkSize(n) / Step(n).0 + Step(n).1
  }

  /** The chunk size of a class. */
  function ClassSize(zi: nat): nat {
    if zi < 16 then 8 * (zi + 1)
    else if zi < 24 then 16 * (zi - 7)
    else if zi < 32 then 32 * (zi - 15)
    else if zi < 40 then 64 * (zi - 23)
    else if zi < 48 then 128 * (zi - 31)
    else if zi < 56 then 256 * (zi - 39)
    else if zi < 64 then 512 * (zi - 47)
    else 1024 * (zi - 55)
  }

  /** Requests below the limit get a valid class whose chunks are large enough; the class and its
      chunk size determine each other, also where two steps meet. */
  lemma ClassOf(n: nat)
    requires 0 < n < ZONE_LIMIT
    ensures 0 <= ZoneIndex(n) < NZONES && ClassSize(ZoneIndex(n)) == ChunkSize(n)
    ensures n <= ChunkSize(n) < n + Step(n).0 && 8 <= ChunkSize(n) <= ZONE_LIMIT
  {
    var d := Step(n).0;
    var q := (n + d - 1) / d;
    Division(n + d - 1, d);
    assert ChunkSize(n) == q * d && ChunkSize(n) / d == q;
  }

  lemma {:induction false} ClassesDiffer(a: nat, b: nat)
    requires a < b < NZONES
    ensures ClassSize(a) < ClassSize(b)
    decreases b - a
  {
    if a + 1 < b {
      ClassesDiffer(a + 1, b);
    }
  }

  /** The next smaller class would not do. */
  lemma PreviousClass(n: nat)
    requires 0 < n < ZONE_LIMIT && ZoneIndex(n) > 0
    ensures ZoneIndex(n) < NZONES && ClassSize(ZoneIndex(n) - 1) < n
  {
    ClassOf(n);
    var d := Step(n).0;
    var q := (n + d - 1) / d;
    Division(n + d - 1, d);
    assert ChunkSize(n) == q * d && ChunkSize(n) / d == q;
  }

  /** Requests below the limit get the smallest class whose chunks are large enough. */
  lemma LeastClass(n: nat, zi: nat)
    requires 0 < n < ZONE_LIMIT && zi < NZONES && n <= ClassSize(zi)
    ensures n <= ChunkSize(n) <= ClassSize(zi)
  {
    hide ClassSize, ChunkSize, ZoneIndex;
    ClassOf(n);
    var k := ZoneIndex(n);
    if zi < k {
      PreviousClass(n);
      if zi < k - 1 {
        ClassesDiffer(zi, k - 1);
      }
    } else if k < zi {
      ClassesDiffer(k, zi);
    }
  }

  // ---- zones --------------------------------------------------------------------------------------

  /** The zone size `rt_slab_init` settles on for `limsize` bytes. */
  method PickZoneSize(limsize: nat) returns (zoneSize: nat)
    ensures zoneSize == MIN_ZONE || zoneSize == 2 * MIN_ZONE || zoneSize == MAX_ZONE
    ensures zoneSize < MAX_ZONE ==> 2 * zoneSize >= limsize / 1024
    ensures zoneSize > MIN_ZONE ==> zoneSize < limsize / 1024
  {
    zoneSize := MIN_ZONE;
    while zoneSize < MAX_ZONE && zoneSize * 2 < limsize / 1024
      invariant zoneSize == MIN_ZONE || zoneSize == 2 * MIN_ZONE || zoneSize == MAX_ZONE
      invariant zoneSize > MIN_ZONE ==> zoneSize < limsize / 1024
      decreases MAX_ZONE - zoneSize
    {
      zoneSize := zoneSize * 2;
    }
  }

  predicate IsZoneSize(zoneSize: nat) {
    zoneSize == MIN_ZONE || zoneSize == 2 * MIN_ZONE || zoneSize == MAX_ZONE
  }

  function ZoneLimit(zoneSize: nat): nat {
    if zoneSize / 4 > ZONE_LIMIT then ZONE_LIMIT else zoneSize / 4
  }

  /** Where the chunks begin in a zone: power-of-2 chunks are aligned to their size. */
  function ChunkOffset(size: nat): (off: nat)
    requires size > 0
    ensures ZONE_HEADER <= off < ZONE_HEADER + (if size < 8 then 8 else size)
  {
    if Or(size, size - 1) + 1 == 2 * size then RoundUp(ZONE_HEADER, size) else RoundUp(ZONE_HEADER, 8)
  }

  /** How many chunks a zone holds. */
  function ChunkCount(zoneSize: nat, size: nat): (c: nat)
    requires size > 0 && ChunkOffset(size) <= zoneSize
    ensures c * size <= zoneSize - ChunkOffset(size) < c * size + size
  {
    Quotients(zoneSize - ChunkOffset(size), size);
    (zoneSize - ChunkOffset(size)) / size
  }

  /** Every class below the limit has at least two chunks per zone. */
  lemma AtLeastTwo(zoneSize: nat, n: nat)
    requires IsZoneSize(zoneSize) && 0 < n < ZoneLimit(zoneSize)
    ensures 8 <= ChunkSize(n) <= ZoneLimit(zoneSize) && ChunkOffset(ChunkSize(n)) <= zoneSize
    ensures ChunkCount(zoneSize, ChunkSize(n)) >= 2
  {
    hide ChunkOffset;
    hide ChunkCount;
    ClassOf(n);
    WithinLimit(zoneSize, n);
    TwoFit(zoneSize, ChunkSize(n));
  }

  lemma WithinLimit(zoneSize: nat, n: nat)
    requires IsZoneSize(zoneSize) && 0 < n < ZoneLimit(zoneSize)
    ensures ChunkSize(n) <= ZoneLimit(zoneSize)
  {
  }

  lemma TwoFit(zoneSize: nat, size: nat)
    requires 8 <= size && 3 * size + ZONE_HEADER <= zoneSize
    ensures ChunkOffset(size) <= zoneSize && ChunkCount(zoneSize, size) >= 2
  {
    hide ChunkOffset;
    hide ChunkCount;
    var c := ChunkCount(zoneSize, size);
    assert c == 0 ==> c * size == 0;
    assert c == 1 ==> c * size == size;
  }

  // ---- one zone -----------------------------------------------------------------------------------

  datatype Zone = Zone(
    nfree: nat,
    nmax: nat,
    base: nat,              // address of the first chunk
    uindex: nat,            // last chunk taken from the never used space
    chunksize: nat,
    index: nat,             // class
    freechunk: seq<nat>)    // addresses of chunks given back, the next to be taken first

  function Addr(zn: Zone, i: nat): nat {
    zn.base + i * zn.chunksize
  }

  /** The zone in the pages from `z` on is laid out for its class. */
  ghost predicate LaidOut(zoneSize: nat, z: nat, zn: Zone) {
    && zn.index < NZONES && zn.chunksize == ClassSize(zn.index) && zn.chunksize > 0
    && ChunkOffset(zn.chunksize) <= zoneSize && zn.base == z * PAGE + ChunkOffset(zn.chunksize)
    && zn.nmax == ChunkCount(zoneSize, zn.chunksize) && zn.nmax >= 2
  }

  /** The chunks given back are exactly the ones used once and not live. */
  ghost predicate FreedOk(zn: Zone, live: set<nat>) {
    && Distinct(zn.freechunk)
    && (forall i :: i in live ==> i <= zn.uindex)
    && (forall i: nat :: i <= zn.uindex ==> (Addr(zn, i) in zn.freechunk <==> i !in live))
    && (forall a :: a in zn.freechunk ==> exists i: nat :: i <= zn.uindex && Addr(zn, i) == a)
  }

  /** Free chunks are those never used and those given back; all others are live. */
  ghost predicate Counted(zn: Zone, live: set<nat>) {
    && zn.uindex < zn.nmax && zn.nfree == (zn.nmax - 1 - zn.uindex) + |zn.freechunk|
    && |live| + zn.nfree == zn.nmax
  }

  ghost predicate ZoneOk(zoneSize: nat, z: nat, zn: Zone, live: set<nat>) {
    LaidOut(zoneSize, z, zn) && FreedOk(zn, live) && Counted(zn, live)
  }

  lemma SameAddr(zn: Zone, i: nat, j: nat)
    requires zn.chunksize > 0 && Addr(zn, i) == Addr(zn, j)
    ensures i == j
  {
    assert (i - j) * zn.chunksize == 0;
  }

  /** Live chunks lie behind the zone header, inside the zone, and do not overlap. */
  lemma ChunkPlace(zoneSize: nat, z: nat, zn: Zone, i: nat)
    requires LaidOut(zoneSize, z, zn) && i < zn.nmax
    ensures z * PAGE + ZONE_HEADER <= Addr(zn, i) && Addr(zn, i) + zn.chunksize <= z * PAGE + zoneSize
  {
    hide ChunkCount;
    hide ChunkOffset;
    hide ClassSize;
    ChunkRoom(i, zn.nmax, zn.chunksize, zoneSize - ChunkOffset(zn.chunksize));
  }

  lemma ChunkRoom(i: nat, n: nat, size: nat, room: nat)
    requires i < n && n * size <= room
    ensures 0 <= i * size && i * size + size <= room
  {
    MulOrder(i + 1, n, size);
    assert (i + 1) * size == i * size + size;
  }

  lemma MulOrder(a: nat, b: nat, c: nat)
    requires a <= b
    ensures a * c <= b * c
  {
  }

  lemma ChunksApart(zn: Zone, i: nat, j: nat)
    requires i < j
    ensures Addr(zn, i) + zn.chunksize <= Addr(zn, j)
  {
    assert i * zn.chunksize + zn.chunksize == (i + 1) * zn.chunksize;
    MulOrder(i + 1, j, zn.chunksize);
  }

  // ---- alignment ----------------------------------------------------------------------------------

  lemma Multiple(x: int, j: int, d: nat)
    requires d > 0
    ensures (x + j * d) % d == x % d
  {
    var q, r := x / d, x % d;
    var q', r' := (x + j * d) / d, (x + j * d) % d;
    assert x + j * d == q' * d + r' && x == q * d + r;
    assert (q' - q - j) * d == r - r';
    Quotient(q' - q - j, d, r - r');
  }

  lemma Quotient(a: int, d: int, r: int)
    requires a * d == r && -d < r < d
    ensures a == 0
  {
  }

  /** A multiple of the page size is a multiple of `c` pages exactly if its number is one of `c`. */
  lemma PageMultiple(z: nat, c: nat)
    requires c > 0
    ensures (z * PAGE) % (PAGE * c) == 0 <==> z % c == 0
  {
    var q, r := z / c, z % c;
    assert z == q * c + r;
    assert z * PAGE == r * PAGE + q * (PAGE * c);
    Multiple(r * PAGE, q, PAGE * c);
    assert r * PAGE < PAGE * c by { MulOrder(r + 1, c, PAGE); }
    Small(r * PAGE, PAGE * c);
  }

  lemma Small(x: nat, d: nat)
    requires x < d
    ensures x % d == x
  {
  }

  lemma PageIsPower()
    ensures Pow2(12) == PAGE
  {
    assert Pow2(4) == 16 && Pow2(8) == 256 by {
      assert Pow2(2) == 4;
      Pow2Sum(2, 2);
      Pow2Sum(4, 4);
    }
    Pow2Sum(8, 4);
  }

  /** Where the page `z` begins, seen in steps of a power of two. */
  lemma PageAligned(z: nat, k: nat)
    ensures (z * PAGE) % Pow2(k) == 0 <==> k <= 12 || z % Pow2(k - 12) == 0
  {
    PageIsPower();
    if k <= 12 {
      var c := Pow2(12 - k);
      Pow2Sum(12 - k, k);
      assert z * PAGE == 0 + z * c * Pow2(k);
      Multiple(0, z * c, Pow2(k));
    } else {
      Pow2Sum(12, k - 12);
      PageMultiple(z, Pow2(k - 12));
    }
  }

  /** A chunk whose size is a power of two is aligned to its size if that is at most a page, and
      otherwise exactly if the zone is. Addresses count from the start of the heap. */
  lemma PowerAligned(zoneSize: nat, z: nat, zn: Zone, k: nat, i: nat)
    requires LaidOut(zoneSize, z, zn) && zn.chunksize == Pow2(k)
    ensures Addr(zn, i) % Pow2(k) == 0 <==> k <= 12 || z % Pow2(k - 12) == 0
  {
    hide ChunkCount, ChunkOffset, ClassSize, Pow2;
    var m := PowerOffset(k);
    OnePlusOther(z * PAGE, m, i, Pow2(k));
    Multiple(z * PAGE, m + i, Pow2(k));
    PageAligned(z, k);
  }

  /** Chunks of such a size begin at a multiple of it in the zone. */
  lemma PowerOffset(k: nat) returns (m: nat)
    ensures ChunkOffset(Pow2(k)) == m * Pow2(k)
  {
    hide Pow2, Or;
    var size := Pow2(k);
    PowerTest(size);
    Division(ZONE_HEADER + size - 1, size);
    m := (ZONE_HEADER + size - 1) / size;
  }

  lemma OnePlusOther(x: int, m: int, i: int, d: int)
    ensures x + m * d + i * d == x + (m + i) * d
  {
  }

  /** A request for a power of two gets chunks of that size. */
  lemma PowerClass(k: nat)
    requires 3 <= k < 14
    ensures ChunkSize(Pow2(k)) == Pow2(k)
  {
    hide Step;
    PowerStep(k);
    if k < 7 {
      Pow2Sum(k - 3, 3);
      RoundsToItself(Pow2(k - 3), 8);
    } else {
      Pow2Sum(3, k - 3);
      RoundsToItself(8, Pow2(k - 3));
    }
  }

  lemma PowerStep(k: nat)
    requires 3 <= k < 14
    ensures Pow2(3) == 8 && Step(Pow2(k)).0 == if k < 7 then 8 else Pow2(k - 3)
  {
    assert Pow2(3) == 8;
    assert Pow2(4) == 16 && Pow2(5) == 32;
    assert Pow2(6) == 64 && Pow2(7) == 128;
    assert Pow2(8) == 256 && Pow2(9) == 512;
    assert Pow2(10) == 1024 && Pow2(11) == 2048;
    assert Pow2(12) == 4096 && Pow2(13) == 8192;
  }

  lemma RoundsToItself(q: nat, step: nat)
    requires step > 0
    ensures RoundUp(q * step, step) == q * step
  {
    Quotients(q * step + step - 1, step);
    var x := (q * step + step - 1) / step;
    assert (x - q) * step < step && (x - q) * step > -1;
    Quotient(x - q, step, (x - q) * step);
  }

  // ---- operations on a zone -----------------------------------------------------------------------

  /** A chunk handed out: from the never used space as long as there is some. */
  function Taken(zn: Zone): Zone
    requires zn.nfree > 0 && (zn.uindex + 1 == zn.nmax ==> zn.freechunk != [])
  {
    if zn.uindex + 1 != zn.nmax
    then zn.(nfree := zn.nfree - 1, uindex := zn.uindex + 1)
    else zn.(nfree := zn.nfree - 1, freechunk := zn.freechunk[1..])
  }

  function TakenAddr(zn: Zone): nat
    requires zn.uindex + 1 == zn.nmax ==> zn.freechunk != []
  {
    if zn.uindex + 1 != zn.nmax then Addr(zn, zn.uindex + 1) else zn.freechunk[0]
  }

  /** As long as there are chunks never used, the next of these is taken, behind all used so far; after
      that the chunk given back last, which undoes its return. */
  lemma LastBackFirstOut(zoneSize: nat, z: nat, zn: Zone, live: set<nat>, i: nat)
    requires ZoneOk(zoneSize, z, zn, live) && i in live
    ensures zn.uindex + 1 < zn.nmax ==>
      TakenAddr(zn) == Addr(zn, zn.uindex + 1) && forall j :: j in live ==> Addr(zn, j) < TakenAddr(zn)
    ensures zn.uindex + 1 >= zn.nmax ==>
      var back := Returned(zn, Addr(zn, i)); TakenAddr(back) == Addr(zn, i) && Taken(back) == zn
  {
    hide LaidOut;
    assert zn.chunksize > 0 by { SizeOf(zoneSize, z, zn); }
    assert zn.uindex + 1 <= zn.nmax;
    forall j | j in live ensures zn.uindex + 1 < zn.nmax ==> Addr(zn, j) < Addr(zn, zn.uindex + 1) {
      LaterAddr(zn, j, zn.uindex + 1);
    }
  }

  lemma LaterAddr(zn: Zone, i: nat, j: nat)
    requires zn.chunksize > 0 && i < j
    ensures Addr(zn, i) < Addr(zn, j)
  {
    assert j * zn.chunksize == i * zn.chunksize + (j - i) * zn.chunksize;
  }

  lemma TakeKeeps(zoneSize: nat, z: nat, zn: Zone, live: set<nat>) returns (i: nat)
    requires ZoneOk(zoneSize, z, zn, live) && zn.nfree > 0
    ensures zn.uindex + 1 == zn.nmax ==> zn.freechunk != []
    ensures i < zn.nmax && i !in live && TakenAddr(zn) == Addr(zn, i) && ZoneOk(zoneSize, z, Taken(zn), live + {i})
  {
    hide LaidOut;
    assert zn.chunksize > 0 by { SizeOf(zoneSize, z, zn); }
    LaidOutSame(zoneSize, z, zn, Taken(zn));
    if zn.uindex + 1 != zn.nmax {
      i := TakeFresh(zn, live);
    } else {
      i := TakeFreed(zn, live);
    }
  }

  lemma SizeOf(zoneSize: nat, z: nat, zn: Zone)
    requires LaidOut(zoneSize, z, zn)
    ensures zn.chunksize > 0
  {
  }

  lemma LaidOutSame(zoneSize: nat, z: nat, zn: Zone, zn': Zone)
    requires LaidOut(zoneSize, z, zn)
    requires zn'.index == zn.index && zn'.chunksize == zn.chunksize && zn'.base == zn.base && zn'.nmax == zn.nmax
    ensures LaidOut(zoneSize, z, zn')
  {
  }

  lemma TakeFresh(zn: Zone, live: set<nat>) returns (i: nat)
    requires FreedOk(zn, live) && Counted(zn, live) && zn.nfree > 0 && zn.uindex + 1 != zn.nmax && zn.chunksize > 0
    ensures i == zn.uindex + 1 && i !in live && FreedOk(Taken(zn), live + {i}) && Counted(Taken(zn), live + {i})
  {
    i := zn.uindex + 1;
    var zn', live' := Taken(zn), live + {i};
    assert forall j: nat :: Addr(zn', j) == Addr(zn, j);
    assert Addr(zn, i) !in zn.freechunk by {
      if Addr(zn, i) in zn.freechunk {
        var j: nat :| j <= zn.uindex && Addr(zn, j) == Addr(zn, i);
        SameAddr(zn, i, j);
      }
    }
    forall a | a in zn'.freechunk ensures exists j: nat :: j <= zn'.uindex && Addr(zn', j) == a {
      var j: nat :| j <= zn.uindex && Addr(zn, j) == a;
      assert Addr(zn', j) == a;
    }
  }

  lemma TakeFreed(zn: Zone, live: set<nat>) returns (i: nat)
    requires FreedOk(zn, live) && Counted(zn, live) && zn.nfree > 0 && zn.uindex + 1 == zn.nmax && zn.chunksize > 0
    ensures zn.freechunk != [] && i <= zn.uindex && i !in live && zn.freechunk[0] == Addr(zn, i)
    ensures FreedOk(Taken(zn), live + {i}) && Counted(Taken(zn), live + {i})
  {
    var a := zn.freechunk[0];
    assert a in zn.freechunk;
    i :| i <= zn.uindex && Addr(zn, i) == a;
    var zn', live' := Taken(zn), live + {i};
    assert forall j: nat :: Addr(zn', j) == Addr(zn, j);
    assert forall x :: x in zn'.freechunk <==> x in zn.freechunk && x != a;
    forall j: nat | j <= zn'.uindex ensures Addr(zn', j) in zn'.freechunk <==> j !in live' {
      if Addr(zn, j) == a {
        SameAddr(zn, i, j);
      }
    }
    forall x | x in zn'.freechunk ensures exists j: nat :: j <= zn'.uindex && Addr(zn', j) == x {
      var j: nat :| j <= zn.uindex && Addr(zn, j) == x;
      assert Addr(zn', j) == x;
    }
  }

  /** A chunk given back. */
  function Returned(zn: Zone, ptr: nat): Zone {
    zn.(nfree := zn.nfree + 1, freechunk := [ptr] + zn.freechunk)
  }

  lemma ReturnKeeps(zoneSize: nat, z: nat, zn: Zone, live: set<nat>, i: nat)
    requires ZoneOk(zoneSize, z, zn, live) && i in live
    ensures ZoneOk(zoneSize, z, Returned(zn, Addr(zn, i)), live - {i})
  {
    hide LaidOut;
    assert zn.chunksize > 0 by { SizeOf(zoneSize, z, zn); }
    var zn', live' := Returned(zn, Addr(zn, i)), live - {i};
    LaidOutSame(zoneSize, z, zn, zn');
    assert forall j: nat :: Addr(zn', j) == Addr(zn, j);
    assert Addr(zn, i) !in zn.freechunk;
    forall j: nat | j <= zn'.uindex ensures Addr(zn', j) in zn'.freechunk <==> j !in live' {
      if Addr(zn, j) == Addr(zn, i) {
        SameAddr(zn, i, j);
      }
    }
    forall x | x in zn'.freechunk ensures exists j: nat :: j <= zn'.uindex && Addr(zn', j) == x {
      if x == Addr(zn, i) {
        assert Addr(zn', i) == x;
      } else {
        var j: nat :| j <= zn.uindex && Addr(zn, j) == x;
        assert Addr(zn', j) == x;
      }
    }
  }

  /** A new zone for a class, its first chunk handed out. */
  function Fresh(zoneSize: nat, z: nat, size: nat, zi: nat): Zone
    requires size > 0 && ChunkOffset(size) <= zoneSize && ChunkCount(zoneSize, size) > 0
  {
    var nmax := ChunkCount(zoneSize, size);
    Zone(nmax - 1, nmax, z * PAGE + ChunkOffset(size), 0, size, zi, [])
  }

  lemma FreshOk(zoneSize: nat, z: nat, n: nat)
    requires IsZoneSize(zoneSize) && 0 < n < ZoneLimit(zoneSize)
    ensures ChunkSize(n) > 0 && ChunkOffset(ChunkSize(n)) <= zoneSize && ChunkCount(zoneSize, ChunkSize(n)) >= 2
    ensures 0 <= ZoneIndex(n) < NZONES
    ensures ZoneOk(zoneSize, z, Fresh(zoneSize, z, ChunkSize(n), ZoneIndex(n)), {0})
  {
    hide ChunkOffset;
    hide ChunkCount;
    hide ChunkSize;
    hide ZoneIndex;
    hide ClassSize;
    AtLeastTwo(zoneSize, n);
    ClassOf(n);
  }
}
