/**
The memory heap: a list of all blocks in address order and a list of the free ones. Offsets
count from `start_addr`; the sizes are those of a 64-bit build without memory tracing. The
used block without payload at the end of the pool is not among the blocks.
*/
module MemHeap {
  import opened Lists
  import opened Blocks
  import opened FreeLists
  import opened MachineWords

  /** RT_ALIGN_SIZE */
  const ALIGN: nat := 8
  /** RT_MEMHEAP_SIZE */
  const HEADER: nat := 48
  /** RT_MEMHEAP_MINIALLOC */
  const MINI: nat := 16

  function AlignUp(n: nat): (r: nat)
    ensures r % ALIGN == 0 && n <= r < n + ALIGN
  {
    (n + ALIGN - 1) / ALIGN * ALIGN
  }

  /** The size a request is rounded to. */
  function Rounded(n: nat): (r: nat)
    ensures r % ALIGN == 0 && n <= r && MINI <= r && (r == MINI || r < n + ALIGN)
  {
    if AlignUp(n) < MINI then MINI else AlignUp(n)
  }

  /** No smaller size would do. */
  lemma RoundedIsLeast(n: nat, m: nat)
    requires m % ALIGN == 0 && n <= m && MINI <= m
    ensures Rounded(n) <= m
  {
  }

  /** A free block with room for the bytes asked for. */
  predicate Serves(b: Block, request: nat) {
    !b.used && Payload(b) >= request && Payload(b) >= MINI
  }

  /** `c` is handed out at `p`: room for the request, and no room for another block besides. */
  predicate HandsOut(c: Block, p: nat, request: nat) {
    c.used && c.start + HEADER == p && request <= Payload(c) < Rounded(request) + HEADER + MINI
  }

  /** Blocks are aligned, so a block fits the rounded request exactly if it has room for the request. */
  lemma FitsMeans(b: Block, request: nat)
    requires b.start % ALIGN == 0 && b.end % ALIGN == 0
    ensures Fits(HEADER, b, Rounded(request)) <==> Serves(b, request)
  {
    if Serves(b, request) {
      DifferenceOfMultiples(b.end, b.start);
      DifferenceOfMultiples(b.end - b.start, HEADER);
      RoundedIsLeast(request, Payload(b));
    }
  }

  lemma BlocksAligned(bs: seq<Block>, hi: nat, free: seq<nat>, available: int)
    requires HeapState(bs, hi, free, available)
    ensures Aligned(bs)
  {
  }

  /** Refused are requests that no block serves and those rounded to all free bytes or more. */
  lemma RefusesMeans(bs: seq<Block>, available: int, request: nat)
    requires Aligned(bs)
    ensures Refuses(bs, available, Rounded(request)) <==>
      Rounded(request) >= available || forall i :: 0 <= i < |bs| ==> !Serves(bs[i], request)
  {
    hide Serves, Fits, Rounded;
    forall i | 0 <= i < |bs| ensures Fits(HEADER, bs[i], Rounded(request)) <==> Serves(bs[i], request) {
      FitsMeans(bs[i], request);
    }
  }

  lemma AllocHands(bs: seq<Block>, k: nat, request: nat)
    requires k < |bs| && Fits(HEADER, bs[k], Rounded(request))
    ensures var r := AllocAt(HEADER, MINI, bs, k, Rounded(request));
      k < |r| && HandsOut(r[k], bs[k].start + HEADER, request)
  {
    hide AllocAt, Rounded;
    AllocShape(HEADER, MINI, bs, k, Rounded(request));
  }

  ghost predicate Aligned(bs: seq<Block>) {
    forall i :: 0 <= i < |bs| ==> bs[i].start % ALIGN == 0 && bs[i].end % ALIGN == 0
  }

  /** Blocks, free list and count of free bytes belong together. */
  ghost predicate HeapState(bs: seq<Block>, hi: nat, free: seq<nat>, available: int) {
    && HeapOk(HEADER, bs, hi) && Aligned(bs)
    && FreeOk(free, bs) && available == FreeRoom(HEADER, bs)
  }

  /** The bytes of the used blocks of `bs` are the same. */
  ghost predicate SameBytes(bs: seq<Block>, data: seq<int>, data': seq<int>) {
    |data| == |data'| &&
    forall b, x :: b in bs && b.used && b.start + HEADER <= x < b.end && x < |data| ==> data'[x] == data[x]
  }

  // ---- allocation -------------------------------------------------------------------------------

  function Payload(b: Block): int {
    b.end - b.start - HEADER
  }

  /** Whether a block is split for a request of `size`. */
  predicate Splits(b: Block, size: nat) {
    Payload(b) >= size + HEADER + MINI
  }

  function AllocList(b: Block, size: nat, free: seq<nat>): seq<nat> {
    if Splits(b, size) then [b.start + HEADER + size] + Remove(free, b.start) else Remove(free, b.start)
  }

  function AllocRoom(b: Block, size: nat, available: int): int {
    if Splits(b, size) then available - size - HEADER else available - Payload(b)
  }

  lemma AlignedReplace(bs: seq<Block>, k: nat, n: nat, mid: seq<Block>)
    requires Aligned(bs) && Aligned(mid) && k + n <= |bs|
    ensures Aligned(Replace(bs, k, n, mid))
  {
  }

  /** The free list after blocks were replaced. */
  lemma NewFreeList(bs: seq<Block>, hi: nat, k: nat, n: nat, was: seq<Block>, mid: seq<Block>, free: seq<nat>,
                    free': seq<nat>)
    requires Tiles(HEADER, bs, 0, hi) && k + n <= |bs| && was == bs[k..k + n] && FreeOk(free, bs) && Distinct(free')
    requires forall p :: p in free' <==> (p in free && p !in FreeStarts(was)) || p in FreeStarts(mid)
    ensures FreeOk(free', Replace(bs, k, n, mid))
  {
    hide Replace;
    ReplaceFree(HEADER, bs, hi, k, n, was, mid);
  }

  /** The start of a new free block is not on the list yet. */
  lemma NewStart(bs: seq<Block>, hi: nat, free: seq<nat>, k: nat, p: nat)
    requires Tiles(HEADER, bs, 0, hi) && FreeOk(free, bs) && k < |bs| && bs[k].start < p < bs[k].end
    ensures p !in free
  {
    AllOrdered(HEADER, bs, 0, hi);
  }

  lemma SumAligned(a: nat, b: nat)
    requires a % ALIGN == 0 && b % ALIGN == 0
    ensures (a + HEADER + b) % ALIGN == 0
  {
    SumOfMultiples(a, HEADER);
    SumOfMultiples(a + HEADER, b);
  }

  lemma CutAligned(bs: seq<Block>, k: nat, size: nat)
    requires Aligned(bs) && k < |bs| && size % ALIGN == 0
    ensures Aligned(CutAt(HEADER, bs, k, size))
  {
    var cut := bs[k].start + HEADER + size;
    SumAligned(bs[k].start, size);
    AlignedReplace(bs, k, 1, [Block(bs[k].start, cut, true), Block(cut, bs[k].end, false)]);
  }

  /** `x` put in front and `p` taken out. */
  lemma Exchanged(free: seq<nat>, p: nat, x: nat)
    requires Distinct(free) && x !in free
    ensures Distinct([x] + Remove(free, p))
    ensures forall y :: y in [x] + Remove(free, p) <==> y == x || (y in free && y != p)
  {
    hide Remove;
    RemoveFacts(free, p);
  }

  lemma AllocSplit(bs: seq<Block>, hi: nat, free: seq<nat>, available: int, k: nat, size: nat)
    requires HeapState(bs, hi, free, available) && k < |bs| && Fits(HEADER, bs[k], size) && size % ALIGN == 0
    requires Splits(bs[k], size)
    ensures HeapState(CutAt(HEADER, bs, k, size), hi, AllocList(bs[k], size, free), AllocRoom(bs[k], size, available))
  {
    hide Tiles, Remove, Distinct, Aligned, FreeStarts;
    var b := bs[k];
    var cut: nat := b.start + HEADER + size;
    var u, f := Block(b.start, cut, true), Block(cut, b.end, false);
    AllocTiles(HEADER, MINI, bs, hi, k, size);
    CutAligned(bs, k, size);
    assert bs[k..k + 1] == [b];
    ReplaceRoom(HEADER, bs, k, 1, [b], [u, f]);
    RoomOf(HEADER, b, b);
    RoomOf(HEADER, u, f);
    FreeStartsOne(b);
    FreeStartsOne(u);
    FreeStartsOne(f);
    FreeStartsTwo(u, f);
    NewStart(bs, hi, free, k, cut);
    Exchanged(free, b.start, cut);
    NewFreeList(bs, hi, k, 1, [b], [u, f], free, [cut] + Remove(free, b.start));
  }

  lemma AllocWhole(bs: seq<Block>, hi: nat, free: seq<nat>, available: int, k: nat, size: nat)
    requires HeapState(bs, hi, free, available) && k < |bs| && Fits(HEADER, bs[k], size) && !Splits(bs[k], size)
    ensures HeapState(bs[k := bs[k].(used := true)], hi, AllocList(bs[k], size, free),
                      AllocRoom(bs[k], size, available))
  {
    hide Tiles;
    hide Remove;
    var b := bs[k];
    var u := b.(used := true);
    AllocTiles(HEADER, MINI, bs, hi, k, size);
    assert Replace(bs, k, 1, [u]) == bs[k := u] && bs[k..k + 1] == [b];
    AlignedReplace(bs, k, 1, [u]);
    ReplaceRoom(HEADER, bs, k, 1, [b], [u]);
    RoomOf(HEADER, b, b);
    RoomOf(HEADER, u, u);
    FreeStartsOne(b);
    FreeStartsOne(u);
    RemoveFacts(free, b.start);
    NewFreeList(bs, hi, k, 1, [b], [u], free, Remove(free, b.start));
  }

  lemma AllocState(bs: seq<Block>, hi: nat, free: seq<nat>, available: int, k: nat, size: nat)
    requires HeapState(bs, hi, free, available) && k < |bs| && Fits(HEADER, bs[k], size) && size % ALIGN == 0
    ensures HeapState(AllocAt(HEADER, MINI, bs, k, size), hi, AllocList(bs[k], size, free),
                      AllocRoom(bs[k], size, available))
  {
    hide HeapState;
    if Splits(bs[k], size) {
      AllocSplit(bs, hi, free, available, k, size);
    } else {
      AllocWhole(bs, hi, free, available, k, size);
    }
  }

  // ---- freeing ----------------------------------------------------------------------------------

  predicate FreeBefore(bs: seq<Block>, k: nat) {
    0 < k <= |bs| && !bs[k - 1].used
  }

  predicate FreeBehind(bs: seq<Block>, k: nat) {
    k + 1 < |bs| && !bs[k + 1].used
  }

  /** The blocks that freeing block `k` makes one: from index `lo` on, `n` of them. */
  function Lo(bs: seq<Block>, k: nat): nat {
    if FreeBefore(bs, k) then k - 1 else k
  }

  function Hi(bs: seq<Block>, k: nat): nat {
    if FreeBehind(bs, k) then k + 1 else k
  }

  lemma FreeClosed(bs: seq<Block>, k: nat)
    requires k < |bs|
    ensures Lo(bs, k) <= k <= Hi(bs, k) < |bs|
    ensures FreeAt(bs, k) == Replace(bs, Lo(bs, k), Hi(bs, k) - Lo(bs, k) + 1,
                                     [Block(bs[Lo(bs, k)].start, bs[Hi(bs, k)].end, false)])
  {
    hide MergeNext;
    var f := bs[k := bs[k].(used := false)];
    FrontFirst(f, k);
    if FreeBefore(bs, k) {
      MergedFront(bs, k);
    } else {
      MergedBehind(bs, k, f);
    }
  }

  /** A free block and a free block behind it, or it alone. */
  lemma MergedBehind(bs: seq<Block>, k: nat, f: seq<Block>)
    requires k < |bs| && f == bs[k := bs[k].(used := false)]
    ensures MergeNext(f, k) == bs[..k] + [Block(bs[k].start, bs[Hi(bs, k)].end, false)] + bs[Hi(bs, k) + 1..]
  {
    assert f[..k] == bs[..k] && f[k + 1..] == bs[k + 1..];
    if FreeBehind(bs, k) {
      assert f[k + 2..] == bs[k + 2..];
    } else {
      assert f == f[..k] + [f[k]] + f[k + 1..];
    }
  }

  /** The same with a free block in front. */
  lemma MergedFront(bs: seq<Block>, k: nat)
    requires k < |bs| && FreeBefore(bs, k)
    ensures var m := MergeNext(bs[k := bs[k].(used := false)], k - 1);
      && k - 1 < |m|
      && MergeNext(m, k - 1) == bs[..k - 1] + [Block(bs[k - 1].start, bs[Hi(bs, k)].end, false)] + bs[Hi(bs, k) + 1..]
  {
    var f := bs[k := bs[k].(used := false)];
    var front := Block(bs[k - 1].start, bs[k].end, false);
    var m := MergeNext(f, k - 1);
    assert f[..k - 1] == bs[..k - 1] && f[k + 1..] == bs[k + 1..];
    assert m == bs[..k - 1] + [front] + bs[k + 1..];
    var b := bs[..k - 1] + [front.(used := true)] + bs[k + 1..];
    assert m == b[k - 1 := b[k - 1].(used := false)];
    assert FreeBehind(b, k - 1) == FreeBehind(bs, k);
    MergedBehind(b, k - 1, m);
    assert b[..k - 1] == bs[..k - 1];
    assert FreeBehind(bs, k) ==> b[k] == bs[k + 1] && b[k + 1..] == bs[k + 2..];
    assert b[k..] == bs[k + 1..];
  }

  /** The free list after block `k` was freed: a merged block stays where the one in front was. */
  function FreedList(bs: seq<Block>, k: nat, free: seq<nat>): seq<nat>
    requires k < |bs|
  {
    var rest := if FreeBehind(bs, k) then Remove(free, bs[k + 1].start) else free;
    if FreeBefore(bs, k) then rest else [bs[k].start] + rest
  }

  function FreedRoom(bs: seq<Block>, k: nat, available: int): int
    requires k < |bs|
  {
    available + Payload(bs[k]) + (if FreeBefore(bs, k) then HEADER else 0) + (if FreeBehind(bs, k) then HEADER else 0)
  }

  lemma Slices(bs: seq<Block>, i: nat)
    ensures i < |bs| ==> bs[i..i + 1] == [bs[i]]
    ensures i + 1 < |bs| ==> bs[i..i + 2] == [bs[i], bs[i + 1]]
    ensures i + 2 < |bs| ==> bs[i..i + 3] == [bs[i], bs[i + 1]] + [bs[i + 2]]
  {
  }

  /** The starts of the free blocks among up to three neighbours, and their room. */
  lemma Neighbours(bs: seq<Block>, hi: nat, k: nat)
    requires Tiles(HEADER, bs, 0, hi) && k < |bs| && bs[k].used
    ensures Lo(bs, k) <= k <= Hi(bs, k) < |bs|
    ensures var was, mid := bs[Lo(bs, k)..Hi(bs, k) + 1], Block(bs[Lo(bs, k)].start, bs[Hi(bs, k)].end, false);
      && FreeStarts(was) ==
         (if FreeBefore(bs, k) then {bs[k - 1].start} else {}) + (if FreeBehind(bs, k) then {bs[k + 1].start} else {})
      && Room(HEADER, mid) == FreeRoom(HEADER, was) + Payload(bs[k])
                              + (if FreeBefore(bs, k) then HEADER else 0) + (if FreeBehind(bs, k) then HEADER else 0)
  {
    hide FreeStarts;
    var b := bs[k];
    var was := bs[Lo(bs, k)..Hi(bs, k) + 1];
    Slices(bs, Lo(bs, k));
    FreeStartsOne(b);
    RoomOf(HEADER, b, b);
    if FreeBefore(bs, k) {
      var i: nat := k - 1;
      var a := bs[i];
      assert a.end == b.start;
      FreeStartsOne(a);
      FreeStartsTwo(a, b);
      RoomOf(HEADER, a, b);
      if FreeBehind(bs, k) {
        var c := bs[k + 1];
        assert was == [a, b] + [c];
        assert b.end == c.start;
        RoomConcat(HEADER, [a, b], [c], 1);
        RoomOf(HEADER, c, c);
        FreeStartsOne(c);
        FreeStartsThree(a, b, c);
      } else {
        assert was == [a, b];
      }
    } else if FreeBehind(bs, k) {
      var c := bs[k + 1];
      assert was == [b, c] && b.end == c.start;
      FreeStartsOne(c);
      FreeStartsTwo(b, c);
      RoomOf(HEADER, b, c);
    } else {
      assert was == [b];
    }
  }

  lemma FreeStartsThree(a: Block, b: Block, c: Block)
    ensures FreeStarts([a, b] + [c]) == FreeStarts([a, b]) + FreeStarts([c])
  {
    var s := [a, b] + [c];
    assert forall x :: x in s <==> x in [a, b] || x in [c];
  }

  lemma FreeState(bs: seq<Block>, hi: nat, free: seq<nat>, available: int, k: nat)
    requires HeapState(bs, hi, free, available) && k < |bs| && bs[k].used
    ensures HeapState(FreeAt(bs, k), hi, FreedList(bs, k, free), FreedRoom(bs, k, available))
  {
    hide Tiles;
    hide NoTwoFree;
    hide FreeOk;
    hide FreeAt;
    hide Replace;
    hide FreedList;
    var lo, n := Lo(bs, k), Hi(bs, k) - Lo(bs, k) + 1;
    Neighbours(bs, hi, k);
    var was, mid := bs[lo..lo + n], Block(bs[lo].start, bs[Hi(bs, k)].end, false);
    FreeKeeps(HEADER, bs, hi, k);
    FreeClosed(bs, k);
    AlignedReplace(bs, lo, n, [mid]);
    ReplaceRoom(HEADER, bs, lo, n, was, [mid]);
    RoomOf(HEADER, mid, mid);
    FreedListOk(bs, hi, k, free, was, mid);
    NewFreeList(bs, hi, lo, n, was, [mid], free, FreedList(bs, k, free));
  }

  lemma FreedListOk(bs: seq<Block>, hi: nat, k: nat, free: seq<nat>, was: seq<Block>, mid: Block)
    requires Tiles(HEADER, bs, 0, hi) && FreeOk(free, bs) && k < |bs| && bs[k].used
    requires Lo(bs, k) <= k <= Hi(bs, k) < |bs| && was == bs[Lo(bs, k)..Hi(bs, k) + 1]
    requires mid == Block(bs[Lo(bs, k)].start, bs[Hi(bs, k)].end, false)
    ensures var r := FreedList(bs, k, free);
      Distinct(r) && forall p :: p in r <==> (p in free && p !in FreeStarts(was)) || p in FreeStarts([mid])
  {
    hide Distinct;
    hide Remove;
    Neighbours(bs, hi, k);
    FreeStartsOne(mid);
    NeighbourStarts(bs, hi, k, free);
    ListAfterFree(free, FreeBefore(bs, k), if k > 0 then bs[k - 1].start else 0,
                  FreeBehind(bs, k), if k + 1 < |bs| then bs[k + 1].start else 0, bs[k].start);
  }

  lemma NeighbourStarts(bs: seq<Block>, hi: nat, k: nat, free: seq<nat>)
    requires Tiles(HEADER, bs, 0, hi) && FreeOk(free, bs) && k < |bs| && bs[k].used
    ensures bs[k].start !in free
    ensures FreeBefore(bs, k) ==> bs[k - 1].start in free && bs[k - 1].start < bs[k].start
    ensures FreeBehind(bs, k) ==> bs[k + 1].start in free && bs[k].start < bs[k + 1].start
  {
    AllOrdered(HEADER, bs, 0, hi);
    if FreeBefore(bs, k) {
      assert bs[k - 1] in bs;
    }
    if FreeBehind(bs, k) {
      assert bs[k + 1] in bs;
    }
  }

  /** The free list after the block at `p` was freed, `a` in front of it and `c` behind it. */
  lemma ListAfterFree(free: seq<nat>, before: bool, a: nat, behind: bool, c: nat, p: nat)
    requires Distinct(free) && p !in free && (before ==> a in free) && (behind ==> c in free)
    requires (before && behind ==> a != c)
    ensures var rest := if behind then Remove(free, c) else free;
      var r := if before then rest else [p] + rest;
      && Distinct(r)
      && forall x :: x in r <==>
           (x in free && !(before && x == a) && !(behind && x == c)) || x == if before then a else p
  {
    hide Remove;
    RemoveFacts(free, c);
  }

  // ---- resizing in place ------------------------------------------------------------------------

  /** The border between used block `k` and the free block behind it moved to give the used block
      a payload of `size`. */
  function MoveBorder(bs: seq<Block>, k: nat, size: nat): seq<Block>
    requires k + 1 < |bs|
  {
    var cut := bs[k].start + HEADER + size;
    Replace(bs, k, 2, [Block(bs[k].start, cut, true), Block(cut, bs[k + 1].end, false)])
  }

  lemma BorderTiles(bs: seq<Block>, hi: nat, k: nat, size: nat)
    requires Tiles(HEADER, bs, 0, hi) && k + 1 < |bs| && bs[k].start + HEADER + size + HEADER <= bs[k + 1].end
    ensures Tiles(HEADER, MoveBorder(bs, k, size), 0, hi)
  {
    hide Replace;
    var cut := bs[k].start + HEADER + size;
    var i, j := k + 1, k + 2;
    assert j < |bs| ==> bs[i].end == bs[j].start;
    ReplaceTiles(HEADER, bs, k, 2, [Block(bs[k].start, cut, true), Block(cut, bs[k + 1].end, false)], 0, hi);
  }

  lemma BorderUsed(bs: seq<Block>, hi: nat, k: nat, size: nat)
    requires Tiles(HEADER, bs, 0, hi) && k < |bs| && bs[k].used && FreeBehind(bs, k)
    ensures UsedChange(bs, MoveBorder(bs, k, size), {bs[k]}, {Block(bs[k].start, bs[k].start + HEADER + size, true)})
  {
    hide Tiles;
    hide Replace;
    var cut := bs[k].start + HEADER + size;
    var u, f := Block(bs[k].start, cut, true), Block(cut, bs[k + 1].end, false);
    ReplaceUsed(HEADER, bs, k, 2, [bs[k], bs[k + 1]], [u, f], 0, hi);
    assert (set b | b in [bs[k], bs[k + 1]] && b.used) == {bs[k]};
    assert (set b | b in [u, f] && b.used) == {u};
  }

  lemma BorderOk(bs: seq<Block>, hi: nat, k: nat, size: nat)
    requires HeapOk(HEADER, bs, hi) && k < |bs| && bs[k].used && FreeBehind(bs, k)
    requires bs[k].start + HEADER + size + HEADER <= bs[k + 1].end
    ensures HeapOk(HEADER, MoveBorder(bs, k, size), hi)
  {
    hide Tiles;
    hide NoTwoFree;
    BorderTiles(bs, hi, k, size);
    BorderNoTwoFree(bs, k, MoveBorder(bs, k, size));
  }

  lemma BorderNoTwoFree(bs: seq<Block>, k: nat, r: seq<Block>)
    requires NoTwoFree(bs) && k + 1 < |bs| && |r| == |bs| && r[k].used == bs[k].used && r[k + 1].used == bs[k + 1].used
    requires forall i :: 0 <= i < |bs| && i != k && i != k + 1 ==> r[i] == bs[i]
    ensures NoTwoFree(r)
  {
    forall i, j | 0 <= i && j == i + 1 && j < |r| ensures r[i].used || r[j].used {
      assert bs[i].used || bs[j].used;
    }
  }

  lemma BorderState(bs: seq<Block>, hi: nat, free: seq<nat>, available: int, k: nat, size: nat)
    requires HeapState(bs, hi, free, available) && k < |bs| && bs[k].used && FreeBehind(bs, k) && size % ALIGN == 0
    requires bs[k].start + HEADER + size + HEADER <= bs[k + 1].end && size != Payload(bs[k])
    ensures var cut: nat := bs[k].start + HEADER + size;
      HeapState(MoveBorder(bs, k, size), hi, [cut] + Remove(free, bs[k + 1].start), available + Payload(bs[k]) - size)
  {
    hide Tiles;
    hide NoTwoFree;
    hide Remove;
    hide Distinct;
    hide Aligned;
    var cut: nat := bs[k].start + HEADER + size;
    var b, c := bs[k], bs[k + 1];
    var u, f := Block(b.start, cut, true), Block(cut, c.end, false);
    BorderOk(bs, hi, k, size);
    BorderAligned(bs, k, size);
    NextStart(bs, hi, k);
    ReplaceRoom(HEADER, bs, k, 2, [b, c], [u, f]);
    RoomOf(HEADER, b, c);
    RoomOf(HEADER, u, f);
    FreeStartsOne(b);
    FreeStartsOne(c);
    FreeStartsTwo(b, c);
    FreeStartsOne(u);
    FreeStartsOne(f);
    FreeStartsTwo(u, f);
    if cut < c.start {
      NewStart(bs, hi, free, k, cut);
    } else {
      NewStart(bs, hi, free, k + 1, cut);
    }
    Exchanged(free, c.start, cut);
    NewFreeList(bs, hi, k, 2, [b, c], [u, f], free, [cut] + Remove(free, c.start));
  }

  lemma NextStart(bs: seq<Block>, hi: nat, k: nat)
    requires Tiles(HEADER, bs, 0, hi) && k + 1 < |bs|
    ensures bs[k].end == bs[k + 1].start && bs[k + 1].start < bs[k + 1].end
  {
    var j := k + 1;
    assert bs[k].end == bs[j].start;
  }

  lemma BorderAligned(bs: seq<Block>, k: nat, size: nat)
    requires Aligned(bs) && k + 1 < |bs| && size % ALIGN == 0
    ensures Aligned(MoveBorder(bs, k, size))
  {
    var cut := bs[k].start + HEADER + size;
    SumAligned(bs[k].start, size);
    AlignedReplace(bs, k, 2, [Block(bs[k].start, cut, true), Block(cut, bs[k + 1].end, false)]);
  }

  /** The end of a used block cut off as a free block of its own. */
  lemma CutOffState(bs: seq<Block>, hi: nat, free: seq<nat>, available: int, k: nat, size: nat)
    requires HeapState(bs, hi, free, available) && k < |bs| && bs[k].used && !FreeBehind(bs, k) && size % ALIGN == 0
    requires bs[k].start + HEADER + size + HEADER <= bs[k].end
    ensures var cut: nat := bs[k].start + HEADER + size;
      HeapState(CutAt(HEADER, bs, k, size), hi, [cut] + free, available + Payload(bs[k]) - size - HEADER)
  {
    hide Tiles;
    hide NoTwoFree;
    hide Aligned;
    var cut: nat := bs[k].start + HEADER + size;
    var b := bs[k];
    var u, f := Block(b.start, cut, true), Block(cut, b.end, false);
    ShrinkKeeps(HEADER, bs, hi, k, size);
    ShrinkIsResize(bs, k, size);
    CutAligned(bs, k, size);
    assert bs[k..k + 1] == [b];
    ReplaceRoom(HEADER, bs, k, 1, [b], [u, f]);
    RoomOf(HEADER, b, b);
    RoomOf(HEADER, u, f);
    FreeStartsOne(b);
    FreeStartsOne(u);
    FreeStartsOne(f);
    FreeStartsTwo(u, f);
    NewStart(bs, hi, free, k, cut);
    NewFreeList(bs, hi, k, 1, [b], [u, f], free, [cut] + free);
  }

  /** Cutting off and merging with a free block behind moves the border to it. */
  lemma ShrinkIsResize(bs: seq<Block>, k: nat, size: nat)
    requires k < |bs|
    ensures ShrinkAt(HEADER, bs, k, size) ==
      if FreeBehind(bs, k) then MoveBorder(bs, k, size) else CutAt(HEADER, bs, k, size)
  {
    var r := CutAt(HEADER, bs, k, size);
    assert k + 1 < |bs| ==> r[k + 2] == bs[k + 1];
    if FreeBehind(bs, k) {
      var cut := bs[k].start + HEADER + size;
      assert MergeNext(r, k + 1)
        == bs[..k] + [Block(bs[k].start, cut, true), Block(cut, bs[k + 1].end, false)] + bs[k + 2..];
    }
  }

  // ---- bytes ------------------------------------------------------------------------------------

  /** A header written at `p`. */
  function Stamp(data: seq<int>, p: nat): (r: seq<int>)
    requires p + HEADER <= |data|
    ensures |r| == |data| && forall x :: 0 <= x < |data| && (x < p || p + HEADER <= x) ==> r[x] == data[x]
  {
    data[..p] + seq(HEADER, _ => 0) + data[p + HEADER..]
  }

  /** The header of block `j` lies on no byte handed out. */
  lemma StampSafe(bs: seq<Block>, hi: nat, data: seq<int>, j: nat)
    requires Tiles(HEADER, bs, 0, hi) && j < |bs| && hi + HEADER <= |data|
    ensures bs[j].start + HEADER <= |data| && SameBytes(bs, data, Stamp(data, bs[j].start))
  {
    AllOrdered(HEADER, bs, 0, hi);
    hide Tiles;
    forall b, x | b in bs && b.used && b.start + HEADER <= x < b.end && x < |data|
      ensures Stamp(data, bs[j].start)[x] == data[x]
    {
      var i :| 0 <= i < |bs| && bs[i] == b;
      assert i < j || i == j || j < i;
    }
  }

  ghost predicate HasBlock(bs: seq<Block>, p: nat) {
    exists k :: 0 <= k < |bs| && bs[k].start == p
  }

  /** The block that starts at `p`. */
  function Find(bs: seq<Block>, p: nat): (k: nat)
    requires HasBlock(bs, p)
    ensures k < |bs| && bs[k].start == p
  {
    if bs[|bs| - 1].start == p then |bs| - 1 else
      assert HasBlock(bs[..|bs| - 1], p) by {
        var k :| 0 <= k < |bs| && bs[k].start == p;
        assert bs[..|bs| - 1][k] == bs[k];
      }
      Find(bs[..|bs| - 1], p)
  }

  /** In a heap the block that starts at `p` is unique. */
  lemma FindIs(bs: seq<Block>, hi: nat, k: nat)
    requires Tiles(HEADER, bs, 0, hi) && k < |bs|
    ensures HasBlock(bs, bs[k].start) && Find(bs, bs[k].start) == k
  {
    AllOrdered(HEADER, bs, 0, hi);
  }

  lemma FreeEntries(free: seq<nat>, bs: seq<Block>)
    requires FreeOk(free, bs)
    ensures forall j :: 0 <= j < |free| ==> HasBlock(bs, free[j])
  {
    forall j | 0 <= j < |free| ensures HasBlock(bs, free[j]) {
      assert free[j] in FreeStarts(bs);
      var b :| b in bs && b.start == free[j];
    }
  }

  // ---- the size of the block behind -------------------------------------------------------------

  /** The test for growing in place as the source has it: the size of the block behind in a 32-bit
      variable, the sum of 64 bits. */
  predicate GrowTest(next: int, oldsize: int, n: nat) {
    (Signed32(next) + oldsize) % TWO_64 > n + MINI
  }

  /** That test is right for every size asked for exactly if the block behind is below 2 GB. */
  lemma NextSizeRange(next: nat, oldsize: nat)
    requires next + oldsize < TWO_64 / 2
    ensures (forall n: nat :: GrowTest(next, oldsize, n) <==> next + oldsize > n + MINI) <==> next < TWO_32 / 2
  {
    if next >= TWO_32 / 2 {
      var a, b := (Signed32(next) + oldsize) % TWO_64, next + oldsize;
      WrapDiffers(next, oldsize);
      var least := if a < b then a else b;
      var n: nat := if least < MINI then 0 else least - MINI;
      assert !(GrowTest(next, oldsize, n) <==> next + oldsize > n + MINI);
    }
  }

  lemma WrapDiffers(next: nat, oldsize: nat)
    requires TWO_32 / 2 <= next && next + oldsize < TWO_64 / 2
    ensures (Signed32(next) + oldsize) % TWO_64 != next + oldsize
  {
    var s := Signed32(next);
    assert -TWO_32 / 2 <= s < TWO_32 / 2;
    if s + oldsize >= 0 {
      assert (s + oldsize) % TWO_64 == s + oldsize;
    } else {
      assert (s + oldsize) % TWO_64 == s + oldsize + TWO_64;
    }
  }

  /** The block behind block `k` passes the test although block `k` and it together are too small for
      `n` bytes: the new header is written behind both of them. */
  predicate Overgrows(bs: seq<Block>, k: nat, n: nat) {
    && k < |bs| && FreeBehind(bs, k)
    && n > Payload(bs[k]) + Payload(bs[k + 1]) && GrowTest(Payload(bs[k + 1]), Payload(bs[k]), n)
  }

  /** That happens exactly if the block behind is, as a 32-bit number, more negative than the block at
      hand is long, and more is asked for than both have, up to the wrapped sum. */
  lemma OvergrowsExactly(bs: seq<Block>, hi: nat, k: nat, n: nat)
    requires Tiles(HEADER, bs, 0, hi) && hi < TWO_64 && k < |bs| && FreeBehind(bs, k)
    ensures Overgrows(bs, k, n) <==>
      var sum := Signed32(Payload(bs[k + 1])) + Payload(bs[k]);
      sum < 0 && Payload(bs[k]) + Payload(bs[k + 1]) < n < TWO_64 + sum - MINI
    ensures Overgrows(bs, k, n) ==> bs[k].start + HEADER + n + HEADER > bs[k + 1].end
    ensures hi <= TWO_32 / 2 ==> !Overgrows(bs, k, n)
  {
    Within(HEADER, bs, hi, k);
    Within(HEADER, bs, hi, k + 1);
    NextStart(bs, hi, k);
    WrappedSum(Payload(bs[k + 1]), Payload(bs[k]));
  }

  lemma WrappedSum(next: nat, oldsize: nat)
    requires next + oldsize < TWO_64
    ensures var sum := Signed32(next) + oldsize;
      && sum <= next + oldsize && (next < TWO_32 / 2 ==> sum == next + oldsize)
      && sum % TWO_64 == if sum < 0 then sum + TWO_64 else sum
  {
    SignedAtMost(next);
    var sum := Signed32(next) + oldsize;
    if sum < 0 {
      assert (sum + TWO_64) % TWO_64 == sum + TWO_64;
    }
  }

  // ---- the heap ---------------------------------------------------------------------------------

  /** `m` is one of the values and none is larger. */
  ghost predicate IsMaximum(values: seq<int>, m: int) {
    m in values && forall v :: v in values ==> v <= m
  }

  lemma MaximumGrows(values: seq<int>, m: int, v: int)
    requires IsMaximum(values, m)
    ensures IsMaximum(values + [v], if v > m then v else m)
  {
    assert v in values + [v];
  }

  lemma MaximumStays(values: seq<int>, m: int, v: int)
    requires IsMaximum(values, m) && values != [] && v <= values[|values| - 1]
    ensures IsMaximum(values + [v], m)
  {
    assert values[|values| - 1] in values;
  }

  /** `start` is the first entry of the free list whose block has room for `size` bytes. */
  ghost predicate FirstLargeEnough(bs: seq<Block>, free: seq<nat>, start: nat, size: nat) {
    exists i :: 0 <= i < |free| && free[i] == start
      && forall j :: 0 <= j < i ==> HasBlock(bs, free[j]) && Payload(bs[Find(bs, free[j])]) < size
  }

  /** A block with room for `size` bytes was handed out at `p`. */
  ghost predicate Allocated(bs: seq<Block>, data: seq<int>, size: nat, p: nat, bs': seq<Block>, data': seq<int>) {
    exists k :: 0 <= k < |bs| && Fits(HEADER, bs[k], size) && p == bs[k].start + HEADER
      && bs' == AllocAt(HEADER, MINI, bs, k, size) && SameBytes(bs', data, data')
  }

  class MemoryHeap {
    const pool: nat            // pool_size
    var blocks: seq<Block>     // block_list, without the block at the end of the pool
    var free: seq<nat>         // free_list, the headers in the order of next_free
    var available: int         // available_size
    var maxUsed: int           // max_used_size
    var data: seq<int>
    /** All values of pool_size - available_size so far. */
    ghost var uses: seq<int>

    function End(): int {
      pool - HEADER
    }

    ghost predicate Valid()
      reads this
    {
      && 2 * HEADER <= pool < TWO_64 && |data| == pool
      && HeapState(blocks, End(), free, available)
      && uses != [] && uses[|uses| - 1] == pool - available && IsMaximum(uses, maxUsed)
    }

    /** `rt_memheap_init`, for a pool size that is rounded down already. */
    constructor (pool: nat)
      requires pool % ALIGN == 0 && 2 * HEADER <= pool < TWO_64
      ensures Valid() && this.pool == pool && blocks == [Block(0, pool - HEADER, false)]
      ensures available == pool - 2 * HEADER && maxUsed == 2 * HEADER && free == [0] && uses == [2 * HEADER]
    {
      this.pool := pool;
      blocks, free := [Block(0, pool - HEADER, false)], [0];
      available, maxUsed := pool - 2 * HEADER, 2 * HEADER;
      data := seq(pool, _ => 0);
      uses := [2 * HEADER];
      new;
      RoomOf(HEADER, blocks[0], blocks[0]);
      FreeStartsOne(blocks[0]);
    }

    /** The search of `rt_memheap_alloc`: the first block of the free list that is large enough. */
    method Search(size: nat) returns (i: nat, freeSize: int)
      requires Valid()
      ensures i <= |free| && forall j :: 0 <= j < |free| ==> HasBlock(blocks, free[j])
      ensures forall j :: 0 <= j < i ==> Payload(blocks[Find(blocks, free[j])]) < size
      ensures i < |free| ==> freeSize == Payload(blocks[Find(blocks, free[i])]) >= size
    {
      hide HeapOk;
      hide FreeRoom;
      hide FreeOk;
      FreeEntries(free, blocks);
      i, freeSize := 0, 0;
      while i < |free|
        invariant i <= |free|
        invariant forall j :: 0 <= j < i ==> Payload(blocks[Find(blocks, free[j])]) < size
      {
        freeSize := Payload(blocks[Find(blocks, free[i])]);
        if freeSize < size {
          i := i + 1;
        } else {
          return;
        }
      }
    }

    /** `rt_memheap_alloc` */
    method Alloc(size: nat) returns (r: Option<nat>, ghost k: nat)
      requires Valid()
      modifies this
      ensures Valid()
      ensures r == None <==> Refuses(old(blocks), old(available), Rounded(size))
      ensures r == None ==>
        && blocks == old(blocks) && free == old(free) && available == old(available)
        && maxUsed == old(maxUsed) && uses == old(uses) && data == old(data)
      ensures r != None ==>
        && k < |old(blocks)| && Fits(HEADER, old(blocks)[k], Rounded(size)) && r.value == old(blocks)[k].start + HEADER
        && blocks == AllocAt(HEADER, MINI, old(blocks), k, Rounded(size))
        && FirstLargeEnough(old(blocks), old(free), old(blocks)[k].start, Rounded(size))
        && free == AllocList(old(blocks)[k], Rounded(size), old(free))
        && uses == old(uses) + [pool - available] && SameBytes(blocks, old(data), data)
      ensures r == None <==>
        Rounded(size) >= old(available) || forall i :: 0 <= i < |old(blocks)| ==> !Serves(old(blocks)[i], size)
      ensures r != None ==> exists c :: c in blocks && HandsOut(c, r.value, size)
    {
      hide HeapState, AllocAt, SameBytes, Serves, HandsOut, Rounded;
      ghost var bs := blocks;
      BlocksAligned(bs, End(), free, available);
      RefusesMeans(bs, available, size);
      k := 0;
      var n := Rounded(size);
      if n < available {
        var i, freeSize := Search(n);
        if i < |free| {
          r, k := TakeBlock(i, n, freeSize);
          AllocHands(bs, k, size);
          assert blocks[k] in blocks;
          return;
        }
        NothingFits(blocks, End(), free, available, n);
      }
      return None, 0;
    }

    /** Hands out the block found, or the front of it. */
    method TakeBlock(i: nat, n: nat, freeSize: int) returns (r: Option<nat>, ghost k: nat)
      requires Valid() && i < |free| && n % ALIGN == 0 && n < available && HasBlock(blocks, free[i])
      requires freeSize == Payload(blocks[Find(blocks, free[i])]) >= n
      modifies this
      ensures Valid() && r != None && k == Find(old(blocks), old(free)[i]) && r.value == old(free)[i] + HEADER
      ensures k < |old(blocks)| && Fits(HEADER, old(blocks)[k], n) && r.value == old(blocks)[k].start + HEADER
      ensures blocks == AllocAt(HEADER, MINI, old(blocks), k, n) && !Refuses(old(blocks), old(available), n)
      ensures free == AllocList(old(blocks)[k], n, old(free))
      ensures uses == old(uses) + [pool - available] && SameBytes(blocks, old(data), data)
    {
      hide HeapState;
      hide Remove;
      hide CutAt;
      hide SameBytes;
      var header: nat := free[i];
      var x := Find(blocks, header);
      k := x;
      EntryIsFree(blocks, End(), free, available, i);
      AllocState(blocks, End(), free, available, x, n);
      AllocBytes(blocks, End(), free, available, x, n, data);
      if freeSize >= n + HEADER + MINI {
        var cut: nat := header + HEADER + n;
        data := Stamp(data, cut);
        free := [cut] + Remove(free, header);
        available := available - n - HEADER;
        blocks := CutAt(HEADER, blocks, x, n);
      } else {
        available := available - freeSize;
        free := Remove(free, header);
        blocks := blocks[x := blocks[x].(used := true)];
      }
      MaximumGrows(uses, maxUsed, pool - available);
      if pool - available > maxUsed {
        maxUsed := pool - available;
      }
      uses := uses + [pool - available];
      return Some(header + HEADER), k;
    }

    /** `rt_memheap_free` */
    method Free(ptr: Option<nat>)
      requires Valid() && (ptr != None ==> HandedOut(blocks, ptr.value))
      modifies this
      ensures Valid() && data == old(data) && maxUsed == old(maxUsed)
      ensures blocks == if ptr == None then old(blocks) else FreeAt(old(blocks), Find(old(blocks), ptr.value - HEADER))
      ensures free ==
        if ptr == None then old(free) else FreedList(old(blocks), Find(old(blocks), ptr.value - HEADER), old(free))
      ensures uses == if ptr == None then old(uses) else old(uses) + [pool - available]
    {
      hide HeapState, FreeAt, FreedList, MergeNext, Remove, IsMaximum;
      if ptr == None {
        return;
      }
      FreeBlock(Find(blocks, ptr.value - HEADER));
    }

    method FreeBlock(k: nat)
      requires Valid() && k < |blocks| && blocks[k].used
      modifies this`blocks, this`free, this`available, this`uses
      ensures Valid() && blocks == FreeAt(old(blocks), k) && free == FreedList(old(blocks), k, old(free))
      ensures uses == old(uses) + [pool - available]
    {
      hide HeapState, Remove, FreeAt, MergeNext;
      ghost var bs := blocks;
      FreeState(bs, End(), free, available, k);
      RoomGrows(bs, End(), free, available, k);
      FrontThenBehind(bs, k);
      var header := k;
      var insert := true;
      blocks := blocks[k := blocks[k].(used := false)];
      available := available + Payload(blocks[k]);
      if header > 0 && !blocks[header - 1].used {
        available := available + HEADER;
        blocks := MergeNext(blocks, header - 1);
        header := header - 1;
        insert := false;
      }
      if header + 1 < |blocks| && !blocks[header + 1].used {
        available := available + HEADER;
        free := Remove(free, blocks[header + 1].start);
        blocks := MergeNext(blocks, header);
      }
      if insert {
        free := [blocks[header].start] + free;
      }
      MaximumStays(uses, maxUsed, pool - available);
      uses := uses + [pool - available];
    }

    /** `rt_memheap_realloc`; `c` is the block the caller has afterwards. The one call it does not
        survive is left out: see `Overgrows`. */
    method Realloc(ptr: Option<nat>, newsize: nat) returns (r: Option<nat>, ghost c: Block)
      requires Valid() && (ptr != None ==> HandedOut(blocks, ptr.value))
      requires ptr != None && newsize > 0 ==> !Overgrows(blocks, Find(blocks, ptr.value - HEADER), Rounded(newsize))
      modifies this
      ensures Valid() && old(uses) <= uses
      ensures newsize == 0 ==> r == None && data == old(data) && maxUsed == old(maxUsed)
      ensures newsize == 0 ==>
        blocks == if ptr == None then old(blocks) else FreeAt(old(blocks), Find(old(blocks), ptr.value - HEADER))
      ensures r == None && (newsize > 0 || ptr == None) ==>
        && blocks == old(blocks) && free == old(free) && available == old(available)
        && maxUsed == old(maxUsed) && uses == old(uses) && data == old(data)
      ensures newsize > 0 && ptr == None ==> (r == None <==> Refuses(old(blocks), old(available), Rounded(newsize)))
      ensures newsize > 0 && ptr == None && r != None ==>
        Allocated(old(blocks), old(data), Rounded(newsize), r.value, blocks, data)
      ensures newsize > 0 && ptr != None ==>
        var k, n := Find(old(blocks), ptr.value - HEADER), Rounded(newsize);
        && (r == None <==> !StaysPut(old(blocks), k, n) && Refuses(old(blocks), old(available), n))
        && (StaysPut(old(blocks), k, n) ==> r == ptr)
        && (r != None ==> r.value == c.start + HEADER)
        && (r != None ==> Resized(old(blocks), old(data), old(blocks)[k], blocks, data, c, n))
        && (r != None ==> Relinked(old(blocks), old(free), k, n, blocks, free) && Payload(c) <= n + HEADER + MINI)
        && (n <= Payload(old(blocks)[k]) ==> maxUsed == old(maxUsed))
    {
      hide HeapState, Resized, Relinked, FreeAt, AllocAt, SameBytes, StaysPut, Overgrows, Refuses, IsMaximum;
      hide Serves, HandsOut;
      ghost var bs, d, list, room := blocks, data, free, available;
      c := Block(0, 0, true);
      if newsize == 0 {
        Free(ptr);
        return None, c;
      }
      var n := Rounded(newsize);
      RoundedTwice(newsize);
      if ptr == None {
        ghost var k;
        r, k := Alloc(n);
        return;
      }
      r, c := Resize(Find(blocks, ptr.value - HEADER), n);
      if r != None {
        ReallocRoom(bs, End(), list, room, d, Find(bs, ptr.value - HEADER), n, blocks, free, available, data, c);
      }
    }

    /** The part of `rt_memheap_realloc` for a block at hand. */
    method Resize(k: nat, n: nat) returns (r: Option<nat>, ghost c: Block)
      requires Valid() && k < |blocks| && blocks[k].used && n == Rounded(n) && !Overgrows(blocks, k, n)
      modifies this
      ensures Valid() && old(uses) <= uses && old(blocks)[k].start + HEADER <= old(blocks)[k].end
      ensures r == None <==> !StaysPut(old(blocks), k, n) && Refuses(old(blocks), old(available), n)
      ensures r == None ==>
        && blocks == old(blocks) && free == old(free) && available == old(available)
        && maxUsed == old(maxUsed) && uses == old(uses) && data == old(data)
      ensures StaysPut(old(blocks), k, n) ==> r == Some(old(blocks)[k].start + HEADER)
      ensures r != None ==> r.value == c.start + HEADER
      ensures r != None ==> Resized(old(blocks), old(data), old(blocks)[k], blocks, data, c, n)
      ensures r != None ==> Relinked(old(blocks), old(free), k, n, blocks, free)
      ensures n <= Payload(old(blocks)[k]) ==> maxUsed == old(maxUsed)
    {
      hide HeapState, Resized, Relinked, Moved, AllocAt, GrowTest, Refuses, IsMaximum, Remove;
      hide ShrinkAt, MoveBorder, CutAt;
      ghost var bs, list := blocks, free;
      var ptr, oldsize := blocks[k].start + HEADER, Payload(blocks[k]);
      StateBounds(blocks, End(), free, available, k);
      if n > oldsize {
        if k + 1 < |blocks| && !blocks[k + 1].used {
          var nextsize := Payload(blocks[k + 1]);
          if GrowTest(nextsize, oldsize, n) {
            c := Grow(k, n);
            GrownLinks(bs, list, k, n, blocks, free);
            return Some(ptr), c;
          }
        }
        r, c := Move(k, n);
        if r != None {
          MovedLinks(bs, list, k, n, blocks, free);
        }
        return;
      }
      if n + HEADER + MINI >= oldsize {
        c := blocks[k];
        KeptBlock(blocks, free, data, k, n);
        return Some(ptr), c;
      }
      c := Shrink(k, n);
      ShrunkLinks(bs, list, k, n, blocks, free);
      return Some(ptr), c;
    }

    /** Takes what is missing from the free block behind. */
    method Grow(k: nat, n: nat) returns (ghost c: Block)
      requires Valid() && k < |blocks| && blocks[k].used && FreeBehind(blocks, k) && n % ALIGN == 0
      requires Payload(blocks[k]) < n <= Payload(blocks[k + 1]) + Payload(blocks[k])
      modifies this
      ensures Valid() && c.start == old(blocks)[k].start && blocks == MoveBorder(old(blocks), k, n)
      ensures Resized(old(blocks), old(data), old(blocks)[k], blocks, data, c, n)
      ensures free == [c.start + HEADER + n] + Remove(old(free), old(blocks)[k + 1].start)
      ensures uses == old(uses) + [pool - available]
    {
      hide HeapState, Remove, Resized, MoveBorder;
      BorderBounds(blocks, End(), free, available, k, n);
      BorderState(blocks, End(), free, available, k, n);
      BorderBytes(blocks, End(), free, available, k, n, data);
      var header, next := blocks[k].start, blocks[k + 1].start;
      var cut: nat := header + HEADER + n;
      c := Block(header, cut, true);
      available := available - (n - Payload(blocks[k]));
      MaximumGrows(uses, maxUsed, pool - available);
      if pool - available > maxUsed {
        maxUsed := pool - available;
      }
      uses := uses + [pool - available];
      data := Stamp(data, cut);
      blocks := MoveBorder(blocks, k, n);
      free := [cut] + Remove<nat>(free, next);
    }

    /** Cuts off what is not needed and merges it with a free block behind. */
    method Shrink(k: nat, n: nat) returns (ghost c: Block)
      requires Valid() && k < |blocks| && blocks[k].used && n % ALIGN == 0 && n + HEADER + MINI < Payload(blocks[k])
      modifies this
      ensures Valid() && c.start == old(blocks)[k].start && blocks == ShrinkAt(HEADER, old(blocks), k, n)
      ensures Resized(old(blocks), old(data), old(blocks)[k], blocks, data, c, n)
      ensures free == [c.start + HEADER + n] +
        if FreeBehind(old(blocks), k) then Remove(old(free), old(blocks)[k + 1].start) else old(free)
      ensures maxUsed == old(maxUsed) && uses == old(uses) + [pool - available]
    {
      hide HeapState, Remove, Resized;
      ShrinkIsResize(blocks, k, n);
      ShrinkBytes(blocks, End(), free, available, k, n, data);
      var cut: nat := blocks[k].start + HEADER + n;
      c := Block(blocks[k].start, cut, true);
      data := Stamp(data, cut);
      if k + 1 < |blocks| && !blocks[k + 1].used {
        BorderBounds(blocks, End(), free, available, k, n);
        BorderState(blocks, End(), free, available, k, n);
        available := available - Payload(blocks[k + 1]);
        free := [cut] + Remove<nat>(free, blocks[k + 1].start);
        blocks := MoveBorder(blocks, k, n);
      } else {
        CutOffState(blocks, End(), free, available, k, n);
        free := [cut] + free;
        blocks := CutAt(HEADER, blocks, k, n);
      }
      available := available + Payload(blocks[k + 1]);
      MaximumStays(uses, maxUsed, pool - available);
      uses := uses + [pool - available];
    }

    /** Allocates, copies and frees. */
    method Move(k: nat, n: nat) returns (r: Option<nat>, ghost c: Block)
      requires Valid() && k < |blocks| && blocks[k].used && n == Rounded(n) && n > Payload(blocks[k])
      modifies this
      ensures Valid() && (r == None <==> Refuses(old(blocks), old(available), n))
      ensures r == None ==>
        && blocks == old(blocks) && free == old(free) && available == old(available)
        && maxUsed == old(maxUsed) && uses == old(uses) && data == old(data)
      ensures r != None ==>
        r.value == c.start + HEADER && Resized(old(blocks), old(data), old(blocks)[k], blocks, data, c, n)
      ensures r != None ==> Moved(old(blocks), old(free), k, n, blocks, free)
      ensures r != None ==> |uses| == |old(uses)| + 2 && old(uses) <= uses
    {
      hide HeapState, HeapOk, AllocAt, AllocList, FirstLargeEnough, FreeAt, FreedList, Resized, SameBytes, UsedChange,
        Find, IsMaximum;
      ghost var bs, data0 := blocks, data;
      StateBounds(bs, End(), free, available, k);
      var header, oldsize := blocks[k].start, Payload(blocks[k]);
      ghost var kk;
      c := Block(0, 0, true);
      r, kk := Alloc(n);
      if r == None {
        return;
      }
      c := Blocks.Handed(HEADER, MINI, bs[kk], n);
      AfterAlloc(bs, End(), k, kk, n, blocks);
      MoveDone(bs, End(), k, kk, n, blocks, data0, data);
      data := Copied(data, header + HEADER, r.value, oldsize);
      var x := Find(blocks, header);
      FreeBlock(x);
      assert MovedBy(bs, old(free), k, n, kk, x, blocks, free);
    }

    /** A client stores a byte. */
    method Write(p: nat, v: int)
      requires Valid() && p < |data|
      modifies this`data
      ensures Valid() && data == old(data)[p := v] && blocks == old(blocks)
    {
      data := data[p := v];
    }
  }

  /** When a request of `size` bytes, rounded, is turned down. */
  ghost predicate Refuses(bs: seq<Block>, available: int, size: nat) {
    size >= available || forall i :: 0 <= i < |bs| ==> !Fits(HEADER, bs[i], size)
  }

  /** `p` points behind the header of a used block. */
  ghost predicate HandedOut(bs: seq<Block>, p: nat) {
    p >= HEADER && HasBlock(bs, p - HEADER) && bs[Find(bs, p - HEADER)].used
  }

  lemma EntryIsFree(bs: seq<Block>, hi: nat, free: seq<nat>, available: int, i: nat)
    requires HeapState(bs, hi, free, available) && i < |free|
    ensures HasBlock(bs, free[i]) && !bs[Find(bs, free[i])].used
  {
    FreeEntries(free, bs);
    assert free[i] in free;
    var b :| b in bs && !b.used && b.start == free[i];
    var k :| 0 <= k < |bs| && bs[k] == b;
    FindIs(bs, hi, k);
  }

  lemma NothingFits(bs: seq<Block>, hi: nat, free: seq<nat>, available: int, size: nat)
    requires HeapState(bs, hi, free, available) && forall j :: 0 <= j < |free| ==> HasBlock(bs, free[j])
    requires forall j :: 0 <= j < |free| ==> Payload(bs[Find(bs, free[j])]) < size
    ensures forall i :: 0 <= i < |bs| ==> !Fits(HEADER, bs[i], size)
  {
    forall i | 0 <= i < |bs| ensures !Fits(HEADER, bs[i], size) {
      FindIs(bs, hi, i);
      if !bs[i].used {
        assert bs[i] in bs && bs[i].start in FreeStarts(bs);
        assert bs[i].start in free;
        var j :| 0 <= j < |free| && free[j] == bs[i].start;
        assert Payload(bs[Find(bs, free[j])]) < size;
      }
    }
  }

  /** The only write of an allocation into the pool is the header behind the block handed out. */
  lemma AllocBytes(bs: seq<Block>, hi: nat, free: seq<nat>, available: int, k: nat, size: nat, data: seq<int>)
    requires HeapState(bs, hi, free, available) && k < |bs| && Fits(HEADER, bs[k], size) && hi + HEADER <= |data|
    ensures var bs' := AllocAt(HEADER, MINI, bs, k, size);
      if Splits(bs[k], size)
      then
        && bs[k].start + HEADER + size + HEADER <= |data|
        && SameBytes(bs', data, Stamp(data, bs[k].start + HEADER + size))
      else SameBytes(bs', data, data)
  {
    hide Stamp;
    if Splits(bs[k], size) {
      AllocTiles(HEADER, MINI, bs, hi, k, size);
      var r := CutAt(HEADER, bs, k, size);
      assert r[k + 1].start == bs[k].start + HEADER + size;
      StampSafe(r, hi, data, k + 1);
    }
  }

  lemma RoomGrows(bs: seq<Block>, hi: nat, free: seq<nat>, available: int, k: nat)
    requires HeapState(bs, hi, free, available) && k < |bs|
    ensures FreedRoom(bs, k, available) >= available
  {
  }

  /** The merges in the order of `rt_memheap_free`. */
  lemma FrontThenBehind(bs: seq<Block>, k: nat)
    requires k < |bs|
    ensures var f := bs[k := bs[k].(used := false)];
      if FreeBefore(bs, k) then
        var m := MergeNext(f, k - 1);
        && k - 1 < |m| && m[k - 1].start == bs[k - 1].start && FreeAt(bs, k) == MergeNext(m, k - 1)
        && (FreeBehind(bs, k) <==> FreeBehind(m, k - 1)) && (FreeBehind(bs, k) ==> m[k].start == bs[k + 1].start)
        && (!FreeBehind(bs, k) ==> FreeAt(bs, k) == m)
      else
        && FreeAt(bs, k) == MergeNext(f, k) && |MergeNext(f, k)| > k && MergeNext(f, k)[k].start == bs[k].start
        && (!FreeBehind(bs, k) ==> FreeAt(bs, k) == f)
  {
    var f := bs[k := bs[k].(used := false)];
    FrontFirst(f, k);
    if FreeBefore(bs, k) {
      var m := MergeNext(f, k - 1);
      assert m == bs[..k - 1] + [Block(bs[k - 1].start, bs[k].end, false)] + bs[k + 1..];
    }
  }

  lemma RoundedTwice(n: nat)
    ensures Rounded(Rounded(n)) == Rounded(n)
  {
  }

  // ---- what a realloc keeps ---------------------------------------------------------------------

  /** Whether block `k` is resized without a move. */
  predicate StaysPut(bs: seq<Block>, k: nat, n: nat) {
    && k < |bs|
    && (n <= Payload(bs[k]) || (FreeBehind(bs, k) && GrowTest(Payload(bs[k + 1]), Payload(bs[k]), n)))
  }

  /** Block `b` became block `c` with room for `n` bytes: as many bytes of `b` as fit are in `c`, and
      no other block in use changed its place or its bytes. */
  ghost predicate Resized(bs: seq<Block>, data: seq<int>, b: Block, bs': seq<Block>, data': seq<int>, c: Block,
                          n: nat) {
    && UsedChange(bs, bs', {b}, {c}) && c.used && c.start + HEADER + n <= c.end <= |data| == |data'|
    && (c == b || c !in bs)
    && b.start + HEADER <= b.end <= |data|
    && (forall o, x :: o in bs && o.used && o != b && o.start + HEADER <= x < o.end && x < |data| ==>
        data'[x] == data[x])
    && var m := if Payload(b) < n then Payload(b) else n;
       data'[c.start + HEADER..c.start + HEADER + m] == data[b.start + HEADER..b.start + HEADER + m]
  }

  /** Blocks and free list after block `k` was resized to `n` bytes: as they were, cut, grown or moved. */
  ghost predicate Relinked(bs: seq<Block>, free: seq<nat>, k: nat, n: nat, bs': seq<Block>, free': seq<nat>)
    requires k < |bs| && bs[k].start + HEADER <= bs[k].end
  {
    var cut: nat := bs[k].start + HEADER + n;
    if n <= Payload(bs[k]) && n + HEADER + MINI >= Payload(bs[k]) then bs' == bs && free' == free
    else if !StaysPut(bs, k, n) then Moved(bs, free, k, n, bs', free')
    else if FreeBehind(bs, k) then bs' == MoveBorder(bs, k, n) && free' == [cut] + Remove(free, bs[k + 1].start)
    else bs' == CutAt(HEADER, bs, k, n) && free' == [cut] + free
  }

  /** A block for `n` bytes was handed out, and then block `k` was freed. */
  ghost predicate Moved(bs: seq<Block>, free: seq<nat>, k: nat, n: nat, bs': seq<Block>, free': seq<nat>)
    requires k < |bs|
  {
    exists kk, x :: 0 <= kk < |bs| && Fits(HEADER, bs[kk], n) && MovedBy(bs, free, k, n, kk, x, bs', free')
  }

  ghost predicate MovedBy(bs: seq<Block>, free: seq<nat>, k: nat, n: nat, kk: nat, x: nat,
                          bs': seq<Block>, free': seq<nat>)
    requires k < |bs| && kk < |bs| && Fits(HEADER, bs[kk], n)
  {
    var bs1 := AllocAt(HEADER, MINI, bs, kk, n);
    && x < |bs1| && bs1[x] == bs[k] && bs' == FreeAt(bs1, x)
    && free' == FreedList(bs1, x, AllocList(bs[kk], n, free))
  }

  /** Whatever a reallocation does, the block the caller ends up with is not much larger than asked for. */
  lemma ReallocRoom(bs: seq<Block>, hi: nat, free: seq<nat>, room: int, data: seq<int>, k: nat, n: nat,
                    bs': seq<Block>, free': seq<nat>, room': int, data': seq<int>, c: Block)
    requires HeapState(bs, hi, free, room) && HeapState(bs', hi, free', room')
    requires k < |bs| && bs[k].used && bs[k].start + HEADER <= bs[k].end
    requires Resized(bs, data, bs[k], bs', data', c, n) && Relinked(bs, free, k, n, bs', free')
    requires StaysPut(bs, k, n) ==> c.start == bs[k].start
    ensures Payload(c) <= n + HEADER + MINI
  {
    hide Tiles, NoTwoFree, Aligned, FreeOk, FreeRoom, FreeAt, AllocAt, GrowTest, Remove;
    assert c in bs';
    if n <= Payload(bs[k]) && n + HEADER + MINI >= Payload(bs[k]) {
      SameStart(HEADER, bs, hi, k, c);
    } else if StaysPut(bs, k, n) {
      assert bs'[k] == Block(bs[k].start, bs[k].start + HEADER + n, true);
      SameStart(HEADER, bs', hi, k, c);
    } else {
      var kk, x :| 0 <= kk < |bs| && Fits(HEADER, bs[kk], n) && MovedBy(bs, free, k, n, kk, x, bs', free');
      MovedRoom(bs, hi, k, n, kk, x, bs', c);
    }
  }

  lemma MovedRoom(bs: seq<Block>, hi: nat, k: nat, n: nat, kk: nat, x: nat, bs': seq<Block>, c: Block)
    requires HeapOk(HEADER, bs, hi) && k < |bs| && bs[k].used && kk < |bs| && Fits(HEADER, bs[kk], n)
    requires var bs1 := AllocAt(HEADER, MINI, bs, kk, n); x < |bs1| && bs1[x] == bs[k] && bs' == FreeAt(bs1, x)
    requires c in bs' && c.used && (c == bs[k] || c !in bs)
    ensures Payload(c) < n + HEADER + MINI
  {
    hide Tiles, NoTwoFree, FreeAt, AllocAt;
    var bs1 := AllocAt(HEADER, MINI, bs, kk, n);
    AllocTiles(HEADER, MINI, bs, hi, kk, n);
    AllocUsed(HEADER, MINI, bs, hi, kk, n);
    FreeKeeps(HEADER, bs1, hi, x);
    assert c != bs[k] && c in bs1;
  }

  lemma GrownLinks(bs: seq<Block>, free: seq<nat>, k: nat, n: nat, bs': seq<Block>, free': seq<nat>)
    requires k < |bs| && bs[k].start + HEADER <= bs[k].end && n > Payload(bs[k]) && FreeBehind(bs, k)
    requires GrowTest(Payload(bs[k + 1]), Payload(bs[k]), n) && bs' == MoveBorder(bs, k, n)
    requires free' == [bs[k].start + HEADER + n] + Remove(free, bs[k + 1].start)
    ensures Relinked(bs, free, k, n, bs', free')
  {
    hide MoveBorder, Remove, GrowTest;
  }

  lemma MovedLinks(bs: seq<Block>, free: seq<nat>, k: nat, n: nat, bs': seq<Block>, free': seq<nat>)
    requires k < |bs| && bs[k].start + HEADER <= bs[k].end && !StaysPut(bs, k, n) && Moved(bs, free, k, n, bs', free')
    ensures Relinked(bs, free, k, n, bs', free')
  {
    hide Moved, GrowTest;
  }

  lemma ShrunkLinks(bs: seq<Block>, free: seq<nat>, k: nat, n: nat, bs': seq<Block>, free': seq<nat>)
    requires k < |bs| && bs[k].start + HEADER <= bs[k].end && n + HEADER + MINI < Payload(bs[k])
    requires bs' == ShrinkAt(HEADER, bs, k, n)
    requires free' == [bs[k].start + HEADER + n] + if FreeBehind(bs, k) then Remove(free, bs[k + 1].start) else free
    ensures Relinked(bs, free, k, n, bs', free')
  {
    hide Remove, GrowTest;
    ShrinkIsResize(bs, k, n);
  }

  lemma KeptBlock(bs: seq<Block>, free: seq<nat>, data: seq<int>, k: nat, n: nat)
    requires k < |bs| && bs[k].used && n <= Payload(bs[k]) <= n + HEADER + MINI && bs[k].end <= |data|
    ensures Resized(bs, data, bs[k], bs, data, bs[k], n)
    ensures bs[k].start + HEADER <= bs[k].end && Relinked(bs, free, k, n, bs, free)
  {
  }

  lemma InPlace(bs: seq<Block>, data: seq<int>, b: Block, bs': seq<Block>, data': seq<int>, c: Block, n: nat)
    requires UsedChange(bs, bs', {b}, {c}) && SameBytes(bs', data, data') && c.used && c.start == b.start
    requires (c == b || c !in bs)
    requires c.end == c.start + HEADER + n <= |data| && b.start + HEADER <= b.end <= |data|
    ensures Resized(bs, data, b, bs', data', c, n)
  {
    var m := if Payload(b) < n then Payload(b) else n;
    assert c in bs';
    forall x | c.start + HEADER <= x < c.start + HEADER + m ensures data'[x] == data[x] {
    }
    forall o, x | o in bs && o.used && o != b && o.start + HEADER <= x < o.end && x < |data|
      ensures data'[x] == data[x]
    {
      assert o in bs';
    }
  }

  lemma StateBounds(bs: seq<Block>, hi: nat, free: seq<nat>, available: int, k: nat)
    requires HeapState(bs, hi, free, available) && k < |bs|
    ensures HeapOk(HEADER, bs, hi) && bs[k].start + HEADER <= bs[k].end <= hi
  {
    AllOrdered(HEADER, bs, 0, hi);
  }

  lemma BorderBounds(bs: seq<Block>, hi: nat, free: seq<nat>, available: int, k: nat, size: nat)
    requires HeapState(bs, hi, free, available) && k + 1 < |bs|
    ensures bs[k].end == bs[k + 1].start && bs[k + 1].start + HEADER <= bs[k + 1].end <= hi
  {
    NextStart(bs, hi, k);
    AllOrdered(HEADER, bs, 0, hi);
  }

  lemma BorderBytes(bs: seq<Block>, hi: nat, free: seq<nat>, available: int, k: nat, size: nat, data: seq<int>)
    requires HeapState(bs, hi, free, available) && k < |bs| && bs[k].used && FreeBehind(bs, k) && hi + HEADER <= |data|
    requires bs[k].start + HEADER + size + HEADER <= bs[k + 1].end
    ensures bs[k].start + HEADER + size + HEADER <= |data|
    ensures var cut := bs[k].start + HEADER + size;
      Resized(bs, data, bs[k], MoveBorder(bs, k, size), Stamp(data, cut), Block(bs[k].start, cut, true), size)
  {
    hide Resized;
    hide Stamp;
    hide UsedChange;
    var cut := bs[k].start + HEADER + size;
    var r := MoveBorder(bs, k, size);
    AllOrdered(HEADER, bs, 0, hi);
    hide Tiles;
    BorderOk(bs, hi, k, size);
    BorderUsed(bs, hi, k, size);
    assert r[k + 1].start == cut;
    StampSafe(r, hi, data, k + 1);
    SameStart(HEADER, bs, hi, k, Block(bs[k].start, cut, true));
    InPlace(bs, data, bs[k], r, Stamp(data, cut), Block(bs[k].start, cut, true), size);
  }

  lemma ShrunkBorder(bs: seq<Block>, k: nat, size: nat)
    requires k < |bs|
    ensures var r := ShrinkAt(HEADER, bs, k, size); k + 1 < |r| && r[k + 1].start == bs[k].start + HEADER + size
  {
    ShrinkIsResize(bs, k, size);
  }

  lemma ShrinkBytes(bs: seq<Block>, hi: nat, free: seq<nat>, available: int, k: nat, size: nat, data: seq<int>)
    requires HeapState(bs, hi, free, available) && k < |bs| && bs[k].used && hi + HEADER <= |data|
    requires bs[k].start + HEADER + size + HEADER <= bs[k].end
    ensures bs[k].end <= |data|
    ensures var cut := bs[k].start + HEADER + size;
      Resized(bs, data, bs[k], ShrinkAt(HEADER, bs, k, size), Stamp(data, cut), Block(bs[k].start, cut, true), size)
  {
    hide Resized, Stamp, UsedChange, Tiles, ShrinkAt, SameBytes;
    var cut := bs[k].start + HEADER + size;
    var r := ShrinkAt(HEADER, bs, k, size);
    Within(HEADER, bs, hi, k);
    ShrinkKeeps(HEADER, bs, hi, k, size);
    ShrunkBorder(bs, k, size);
    StampSafe(r, hi, data, k + 1);
    SameStart(HEADER, bs, hi, k, Block(bs[k].start, cut, true));
    InPlace(bs, data, bs[k], r, Stamp(data, cut), Block(bs[k].start, cut, true), size);
  }

  /** `n` bytes copied from `src` to `dst`. */
  function Copied(data: seq<int>, src: nat, dst: nat, n: nat): (r: seq<int>)
    requires src + n <= |data| && dst + n <= |data|
    ensures |r| == |data| && r[dst..dst + n] == data[src..src + n]
    ensures forall x :: 0 <= x < |data| && (x < dst || dst + n <= x) ==> r[x] == data[x]
  {
    data[..dst] + data[src..src + n] + data[dst + n..]
  }

  lemma Disjoint(bs: seq<Block>, hi: nat, o: Block, c: Block)
    requires Tiles(HEADER, bs, 0, hi) && o in bs && c in bs && o != c
    ensures o.end <= c.start || c.end <= o.start
  {
    AllOrdered(HEADER, bs, 0, hi);
    var i :| 0 <= i < |bs| && bs[i] == o;
    var j :| 0 <= j < |bs| && bs[j] == c;
    assert i < j || j < i;
  }

  /** An allocation leaves the block at hand where it is. */
  lemma AfterAlloc(bs: seq<Block>, hi: nat, k: nat, kk: nat, n: nat, bs1: seq<Block>)
    requires HeapOk(HEADER, bs, hi) && k < |bs| && bs[k].used && kk < |bs| && Fits(HEADER, bs[kk], n)
    requires bs1 == AllocAt(HEADER, MINI, bs, kk, n)
    ensures var b, c := bs[k], Blocks.Handed(HEADER, MINI, bs[kk], n);
      && HeapOk(HEADER, bs1, hi) && UsedChange(bs, bs1, {}, {c}) && b in bs1 && c in bs1 && c !in bs && b != c
      && c.start == bs[kk].start && c.start + HEADER + n <= c.end <= hi && b.start + HEADER <= b.end <= hi
      && HasBlock(bs1, b.start) && bs1[Find(bs1, b.start)] == b
  {
    hide AllocAt, Tiles, NoTwoFree, Find;
    var b, c := bs[k], Blocks.Handed(HEADER, MINI, bs[kk], n);
    AllocTiles(HEADER, MINI, bs, hi, kk, n);
    AllocUsed(HEADER, MINI, bs, hi, kk, n);
    SameStart(HEADER, bs, hi, kk, c);
    Within(HEADER, bs, hi, k);
    Within(HEADER, bs, hi, kk);
    assert b in bs;
    assert b in bs1 && c in bs1;
    var i :| 0 <= i < |bs1| && bs1[i] == b;
    FindIs(bs1, hi, i);
  }

  lemma MoveDone(bs: seq<Block>, hi: nat, k: nat, kk: nat, n: nat, bs1: seq<Block>, data0: seq<int>, data1: seq<int>)
    requires HeapOk(HEADER, bs, hi) && k < |bs| && bs[k].used && kk < |bs| && Fits(HEADER, bs[kk], n)
    requires n > Payload(bs[k])
    requires bs1 == AllocAt(HEADER, MINI, bs, kk, n) && SameBytes(bs1, data0, data1) && hi <= |data0|
    ensures var b, c := bs[k], Blocks.Handed(HEADER, MINI, bs[kk], n);
      && b.start + HEADER <= b.end <= |data1| == |data0| && c.start + HEADER + n <= |data1| && HasBlock(bs1, b.start)
      && Resized(bs, data0, b, FreeAt(bs1, Find(bs1, b.start)),
                 Copied(data1, b.start + HEADER, c.start + HEADER, Payload(b)), c, n)
  {
    hide AllocAt;
    hide FreeAt;
    hide Find;
    hide HeapOk;
    hide UsedChange;
    hide Copied;
    hide SameBytes;
    var b, c := bs[k], Blocks.Handed(HEADER, MINI, bs[kk], n);
    AfterAlloc(bs, hi, k, kk, n, bs1);
    var bs2 := FreeAt(bs1, Find(bs1, b.start));
    FreeKeeps(HEADER, bs1, hi, Find(bs1, b.start));
    BothChanges(bs, bs1, bs2, b, c);
    SameLength(bs1, data0, data1);
    var data2 := Copied(data1, b.start + HEADER, c.start + HEADER, Payload(b));
    MovedBytes(bs1, hi, b, c, n, data0, data1);
    forall o, x | o in bs && o.used && o != b && o.start + HEADER <= x < o.end && x < |data0|
      ensures data2[x] == data0[x]
    {
      StillThere(bs, bs1, o, c);
      OtherBytes(bs1, hi, o, c, n, data0, data1, b.start + HEADER, Payload(b), x);
    }
  }

  lemma SameLength(bs: seq<Block>, data: seq<int>, data': seq<int>)
    requires SameBytes(bs, data, data')
    ensures |data| == |data'|
  {
  }

  lemma BothChanges(bs: seq<Block>, bs1: seq<Block>, bs2: seq<Block>, b: Block, c: Block)
    requires UsedChange(bs, bs1, {}, {c}) && UsedChange(bs1, bs2, {b}, {}) && b != c
    ensures UsedChange(bs, bs2, {b}, {c})
  {
    forall x: Block | x.used ensures x in bs2 <==> (x in bs && x !in {b}) || x in {c} {
      assert x in bs1 <==> (x in bs && x !in {}) || x in {c};
      assert x in bs2 <==> (x in bs1 && x !in {b}) || x in {};
    }
  }

  lemma StillThere(bs: seq<Block>, bs1: seq<Block>, o: Block, c: Block)
    requires UsedChange(bs, bs1, {}, {c}) && o in bs && o.used
    ensures o in bs1
  {
  }

  lemma MovedBytes(bs1: seq<Block>, hi: nat, b: Block, c: Block, n: nat, data0: seq<int>, data1: seq<int>)
    requires b in bs1 && b.used && SameBytes(bs1, data0, data1) && b.start + HEADER <= b.end <= |data0|
    requires Payload(b) < n
    requires c.start + HEADER + n <= |data0|
    ensures |data1| == |data0|
    ensures var m := Payload(b);
      Copied(data1, b.start + HEADER, c.start + HEADER, m)[c.start + HEADER..c.start + HEADER + m]
      == data0[b.start + HEADER..b.start + HEADER + m]
  {
    hide Copied;
    assert data1[b.start + HEADER..b.end] == data0[b.start + HEADER..b.end];
  }

  lemma OtherBytes(bs1: seq<Block>, hi: nat, o: Block, c: Block, n: nat, data0: seq<int>, data1: seq<int>, src: nat,
                   m: nat, x: nat)
    requires HeapOk(HEADER, bs1, hi) && o in bs1 && c in bs1 && o != c && o.used && SameBytes(bs1, data0, data1)
    requires o.start + HEADER <= x < o.end && x < |data0| && m <= n && c.start + HEADER + n <= c.end <= |data0|
    requires src + m <= |data0|
    ensures |data1| == |data0| && Copied(data1, src, c.start + HEADER, m)[x] == data0[x]
  {
    hide Copied;
    Disjoint(bs1, hi, o, c);
  }

  // ---- clients ----------------------------------------------------------------------------------

  /** A request is turned down if nothing fits and, although something fits, if it asks for exactly
      all the free bytes there are. */
  lemma RefusedExactly(bs: seq<Block>, hi: nat, free: seq<nat>, available: int, size: nat)
    requires HeapState(bs, hi, free, available)
    ensures Refuses(bs, available, size) <==>
      (forall i :: 0 <= i < |bs| ==> !Fits(HEADER, bs[i], size)) || size == available
  {
    if i :| 0 <= i < |bs| && Fits(HEADER, bs[i], size) {
      RoomBound(HEADER, bs, 0, hi, |bs|, i);
    }
  }

  /** A heap of a little over 2 GB with one block in use: a call for 8 GB would be taken for one that
      fits, and the next header would be written far behind the pool. */
  method GrowsPastPool() returns (heap: MemoryHeap, p: Option<nat>)
    ensures heap.Valid() && heap.pool < 3 * TWO_32 / 4 && p == Some(HEADER) && HandedOut(heap.blocks, HEADER)
    ensures Overgrows(heap.blocks, Find(heap.blocks, 0), 2 * TWO_32)
    ensures HEADER + 2 * TWO_32 > heap.pool
  {
    hide HeapState, Overgrows, AllocAt, Refuses, IsMaximum, FirstLargeEnough, SameBytes, Find;
    heap := new MemoryHeap(TWO_32 / 2 + 3 * HEADER + MINI);
    LargeFresh();
    LargeOvergrows();
    ghost var k;
    p, k := heap.Alloc(MINI);
    HandedFirst(heap.blocks, heap.End());
  }

  lemma LargeFresh()
    ensures var end := TWO_32 / 2 + 2 * HEADER + MINI; var bs := [Block(0, end, false)];
      && Rounded(MINI) == MINI && !Refuses(bs, end - HEADER, MINI)
      && AllocAt(HEADER, MINI, bs, 0, MINI) == [Block(0, HEADER + MINI, true), Block(HEADER + MINI, end, false)]
  {
    var end := TWO_32 / 2 + 2 * HEADER + MINI;
    assert Fits(HEADER, [Block(0, end, false)][0], MINI);
  }

  lemma LargeOvergrows()
    ensures var end := TWO_32 / 2 + 2 * HEADER + MINI;
      Overgrows([Block(0, HEADER + MINI, true), Block(HEADER + MINI, end, false)], 0, 2 * TWO_32)
  {
  }

  lemma HandedFirst(bs: seq<Block>, hi: nat)
    requires HeapOk(HEADER, bs, hi) && |bs| > 0 && bs[0].used && bs[0].start == 0
    ensures HandedOut(bs, HEADER) && Find(bs, 0) == 0
  {
    FindIs(bs, hi, 0);
  }

  /** So a fresh heap never hands out its one block whole, although that block fits. */
  method WholeHeapRefused(pool: nat) returns (heap: MemoryHeap, r: Option<nat>)
    requires pool % ALIGN == 0 && 2 * HEADER + MINI <= pool < TWO_64
    ensures heap.Valid() && heap.blocks == [Block(0, pool - HEADER, false)]
    ensures Fits(HEADER, heap.blocks[0], pool - 2 * HEADER) && r == None
  {
    heap := new MemoryHeap(pool);
    ghost var k;
    r, k := heap.Alloc(pool - 2 * HEADER);
  }

  /** Freeing a block just allocated gives back the same blocks and the same count of free bytes. */
  method AllocThenFree(heap: MemoryHeap, size: nat) returns (ok: bool)
    requires heap.Valid()
    modifies heap
    ensures heap.Valid() && heap.blocks == old(heap.blocks) && heap.available == old(heap.available)
    ensures ok <==> !Refuses(old(heap.blocks), old(heap.available), Rounded(size))
  {
    ghost var bs := heap.blocks;
    var r, k := heap.Alloc(size);
    ok := r != None;
    if ok {
      AllocIndex(bs, heap.End(), k, Rounded(size), heap.blocks);
      FreeUndoesAlloc(HEADER, MINI, bs, heap.End(), k, Rounded(size), heap.blocks);
      heap.Free(r);
    }
  }

  /** The first block of the free list that is large enough is its head, if that is. */
  lemma HeadServes(bs: seq<Block>, free: seq<nat>, start: nat, n: nat)
    requires free != [] && HasBlock(bs, free[0]) && Payload(bs[Find(bs, free[0])]) >= n
    requires FirstLargeEnough(bs, free, start, n)
    ensures start == free[0]
  {
    var i :| 0 <= i < |free| && free[i] == start
      && forall j :: 0 <= j < i ==> HasBlock(bs, free[j]) && Payload(bs[Find(bs, free[j])]) < n;
    assert i == 0;
  }

  /** So a request that fits the head of the free list is handed out there, unless it is refused for
      asking for all free bytes. */
  lemma HeadFirst(bs: seq<Block>, free: seq<nat>, room: int, n: nat, x: nat, q: Option<nat>, j: nat)
    requires free != [] && x < |bs| && HasBlock(bs, free[0]) && Find(bs, free[0]) == x && Fits(HEADER, bs[x], n)
    requires q == None <==> Refuses(bs, room, n)
    requires q != None ==>
      j < |bs| && q.value == bs[j].start + HEADER && FirstLargeEnough(bs, free, bs[j].start, n)
    ensures q == if n < room then Some(free[0] + HEADER) else None
  {
    hide FirstLargeEnough, Find;
    if q != None {
      HeadServes(bs, free, bs[j].start, n);
    }
  }

  lemma CutIndex(bs: seq<Block>, hi: nat, k: nat, n: nat, bs': seq<Block>)
    requires HeapOk(HEADER, bs, hi) && k < |bs| && Fits(HEADER, bs[k], n) && Splits(bs[k], n)
    requires bs' == AllocAt(HEADER, MINI, bs, k, n)
    ensures var cut: nat := bs[k].start + HEADER + n;
      && k + 1 < |bs'| && bs'[k + 1] == Block(cut, bs[k].end, false)
      && HasBlock(bs', cut) && Find(bs', cut) == k + 1
  {
    hide Tiles, NoTwoFree, AllocAt, Find, HasBlock;
    AllocTiles(HEADER, MINI, bs, hi, k, n);
    AllocShape(HEADER, MINI, bs, k, n);
    FindIs(bs', hi, k + 1);
  }

  /** What is left of a block that was cut comes first in the free list: if it serves the next request,
      that is handed out directly behind the first. */
  method AllocTwice(heap: MemoryHeap, size: nat, next: nat)
    returns (p: Option<nat>, q: Option<nat>, ghost k: nat, room: int)
    requires heap.Valid()
    modifies heap
    ensures heap.Valid() && (p != None ==> k < |old(heap.blocks)| && p.value == old(heap.blocks)[k].start + HEADER)
    ensures p != None && Rounded(size) + HEADER + Rounded(next) <= Payload(old(heap.blocks)[k]) ==>
      q == if Rounded(next) < room then Some(p.value + Rounded(size) + HEADER) else None
  {
    hide Tiles, NoTwoFree, Aligned, FreeOk, FreeRoom, AllocAt, SameBytes, IsMaximum, Rounded, Serves, HandsOut;
    hide FirstLargeEnough, Refuses, Find, Remove;
    ghost var bs := heap.blocks;
    p, k := heap.Alloc(size);
    ghost var bs1, free1 := heap.blocks, heap.free;
    room := heap.available;
    ghost var j;
    q, j := heap.Alloc(next);
    if p != None && Rounded(size) + HEADER + Rounded(next) <= Payload(bs[k]) {
      CutIndex(bs, heap.End(), k, Rounded(size), bs1);
      HeadFirst(bs1, free1, room, Rounded(next), k + 1, q, j);
    }
  }

  /** A block given back that joins no block in front comes first in the free list: if it serves the
      next request, it is handed out again. */
  method FreeThenAlloc(heap: MemoryHeap, p: nat, next: nat) returns (q: Option<nat>, room: int)
    requires heap.Valid() && HandedOut(heap.blocks, p)
    modifies heap
    ensures heap.Valid()
    ensures var k := Find(old(heap.blocks), p - HEADER);
      !FreeBefore(old(heap.blocks), k) && Rounded(next) <= Payload(old(heap.blocks)[k]) ==>
        q == if Rounded(next) < room then Some(p) else None
  {
    hide Tiles, NoTwoFree, Aligned, FreeOk, FreeRoom, FreeAt, SameBytes, IsMaximum, Rounded, Serves, HandsOut;
    hide FirstLargeEnough, Refuses, Find, Remove;
    ghost var bs, k := heap.blocks, Find(heap.blocks, p - HEADER);
    heap.Free(Some(p));
    ghost var bs1, free1 := heap.blocks, heap.free;
    room := heap.available;
    ghost var j;
    q, j := heap.Alloc(next);
    if !FreeBefore(bs, k) && Rounded(next) <= Payload(bs[k]) {
      FreedIndex(bs, heap.End(), k, bs1);
      HeadFirst(bs1, free1, room, Rounded(next), k, q, j);
    }
  }

  lemma FreedIndex(bs: seq<Block>, hi: nat, k: nat, bs': seq<Block>)
    requires HeapOk(HEADER, bs, hi) && k < |bs| && bs[k].used && !FreeBefore(bs, k) && bs' == FreeAt(bs, k)
    ensures k < |bs'| && bs'[k].start == bs[k].start && !bs'[k].used && Payload(bs'[k]) >= Payload(bs[k])
    ensures HasBlock(bs', bs[k].start) && Find(bs', bs[k].start) == k
  {
    FreeClosed(bs, k);
    FreeKeeps(HEADER, bs, hi, k);
    FindIs(bs', hi, k);
  }

  lemma AllocIndex(bs: seq<Block>, hi: nat, k: nat, n: nat, bs': seq<Block>)
    requires HeapOk(HEADER, bs, hi) && k < |bs| && Fits(HEADER, bs[k], n) && bs' == AllocAt(HEADER, MINI, bs, k, n)
    ensures k < |bs'| && bs'[k].start == bs[k].start && bs'[k].used && HasBlock(bs', bs[k].start)
    ensures Find(bs', bs[k].start) == k
  {
    AllocTiles(HEADER, MINI, bs, hi, k, n);
    FindIs(bs', hi, k);
  }

  /** Freeing all pointers in use, in whatever order, leaves one free block spanning the heap. */
  method FreeEverything(heap: MemoryHeap, order: seq<nat>)
    requires heap.Valid() && Distinct(order) && UsedAre(heap.blocks, order)
    modifies heap
    ensures heap.Valid() && heap.blocks == [Block(0, heap.End(), false)] && heap.available == heap.pool - 2 * HEADER
  {
    hide HeapOk, FreeAt, FreedList, UsedAre, Distinct;
    for i := 0 to |order|
      invariant heap.Valid() && UsedAre(heap.blocks, order[i..])
    {
      ghost var bs := heap.blocks;
      if p :| 0 <= p < |heap.blocks| && heap.blocks[p].start == order[i] {
        FreeNext(bs, heap.End(), p, order, i);
        heap.Free(Some(order[i] + HEADER));
      } else {
        SkipNext(bs, order, i);
      }
    }
    assert order[|order|..] == [];
    Emptied(heap.blocks, heap.End());
  }

  lemma FreeNext(bs: seq<Block>, hi: nat, p: nat, order: seq<nat>, i: nat)
    requires HeapOk(HEADER, bs, hi) && Distinct(order) && i < |order| && UsedAre(bs, order[i..]) && p < |bs|
    requires bs[p].start == order[i]
    ensures HandedOut(bs, order[i] + HEADER) && Find(bs, order[i]) == p && UsedAre(FreeAt(bs, p), order[i + 1..])
  {
    hide FreeAt;
    FindIs(bs, hi, p);
    assert bs[p] in bs && order[i..][0] == order[i] && order[i..][1..] == order[i + 1..];
    FreeOne(HEADER, bs, hi, p, order[i..]);
  }

  lemma SkipNext(bs: seq<Block>, order: seq<nat>, i: nat)
    requires i < |order| && UsedAre(bs, order[i..]) && forall p :: 0 <= p < |bs| ==> bs[p].start != order[i]
    ensures UsedAre(bs, order[i + 1..])
  {
    assert order[i..][0] == order[i] && order[i..][1..] == order[i + 1..];
    SkipOne(bs, order[i..]);
  }

  lemma Emptied(bs: seq<Block>, hi: nat)
    requires HeapOk(HEADER, bs, hi) && 0 < hi && UsedAre(bs, [])
    ensures bs == [Block(0, hi, false)] && FreeRoom(HEADER, bs) == hi - HEADER
  {
    OneBlockLeft(HEADER, bs, hi);
    RoomOf(HEADER, bs[0], bs[0]);
  }
}
