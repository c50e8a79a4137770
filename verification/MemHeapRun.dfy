/** Whole runs of the memory heap: it is an allocator of bytes that stay as written. */
module MemHeapRun {
  import opened Lists
  import opened Blocks
  import opened Allocator
  import opened MemHeap
  import opened MachineWords

  lemma AllocOwned(bs: seq<Block>, hi: nat, d: seq<int>, l: Live, k: nat, n: nat, bs': seq<Block>, d': seq<int>)
    requires HeapOk(HEADER, bs, hi) && hi <= |d| && Owned(HEADER, bs, d, l)
    requires k < |bs| && Fits(HEADER, bs[k], Rounded(n)) && bs' == AllocAt(HEADER, MINI, bs, k, Rounded(n))
    requires SameBytes(bs', d, d')
    ensures var p := bs[k].start + HEADER; p + n <= |d'| && var l' := l[p := d'[p..p + n]];
      Owned(HEADER, bs', d', l') && Gained(l, p, n, l')
  {
    hide AllocAt, Tiles, Owned, UsedChange, Gained, Rounded;
    var c := Blocks.Handed(HEADER, MINI, bs[k], Rounded(n));
    AllocUsed(HEADER, MINI, bs, hi, k, Rounded(n));
    Within(HEADER, bs, hi, k);
    FreeIsUnknown(HEADER, bs, hi, d, l, k);
    GainBlock(HEADER, bs, d, l, bs', d', c, n);
  }

  lemma FreeOwned(bs: seq<Block>, hi: nat, d: seq<int>, l: Live, k: nat, bs': seq<Block>)
    requires HeapOk(HEADER, bs, hi) && Owned(HEADER, bs, d, l)
    requires k < |bs| && bs[k].used && bs' == FreeAt(bs, k)
    ensures Owned(HEADER, bs', d, l - {bs[k].start + HEADER})
  {
    hide FreeAt, Tiles, Owned, UsedChange;
    FreeKeeps(HEADER, bs, hi, k);
    LoseBlock(HEADER, bs, hi, d, l, bs', d, k);
  }

  /** A reallocation that succeeds. */
  lemma ResizedOwned(bs: seq<Block>, hi: nat, d: seq<int>, l: Live, k: nat, p: nat, n: nat, bs': seq<Block>,
                     d': seq<int>, c: Block)
    requires HeapOk(HEADER, bs, hi) && HeapOk(HEADER, bs', hi) && Owned(HEADER, bs, d, l) && p in l && n > 0
    requires k < |bs| && bs[k].used && bs[k].start + HEADER == p && Resized(bs, d, bs[k], bs', d', c, Rounded(n))
    ensures var q := c.start + HEADER; q + n <= |d'| && var l' := (l - {p})[q := d'[q..q + n]];
      Owned(HEADER, bs', d', l') && Steps(ReallocOp(p, n), Some(q), l, l')
  {
    hide Tiles, Owned, Steps;
    ResizedFront(bs, d, bs[k], bs', d', c, n);
    assert Kept(HEADER, bs, bs', d, d', c);
    ReallocSteps(HEADER, bs, hi, d, l, bs', d', p, k, c, n);
  }

  lemma ResizedFront(bs: seq<Block>, d: seq<int>, b: Block, bs': seq<Block>, d': seq<int>, c: Block, n: nat)
    requires Resized(bs, d, b, bs', d', c, Rounded(n))
    ensures SameFront(d, b.start + HEADER, b.end, d', c.start + HEADER, n)
  {
    hide Rounded;
    var p, q := b.start + HEADER, c.start + HEADER;
    var m := if Payload(b) < Rounded(n) then Payload(b) else Rounded(n);
    forall x, y | p <= x < b.end && x < |d| && y == x - p + q && y < q + n && y < |d'| ensures d'[y] == d[x] {
      var i := x - p;
      assert 0 <= i < m;
      assert d'[q..q + m][i] == d'[q + i];
      assert d[p..p + m][i] == d[p + i];
    }
  }

  // ---- runs -------------------------------------------------------------------------------------

  lemma LocateIn(bs: seq<Block>, hi: nat, d: seq<int>, l: Live, p: nat) returns (k: nat)
    requires HeapOk(HEADER, bs, hi) && Owned(HEADER, bs, d, l) && p in l
    ensures k < |bs| && bs[k].used && bs[k].start + HEADER == p && HandedOut(bs, p) && Find(bs, p - HEADER) == k
  {
    k := Locate(HEADER, bs, hi, d, l, p);
    FindIs(bs, hi, k);
  }

  lemma WriteIn(bs: seq<Block>, hi: nat, d: seq<int>, l: Live, p: nat, i: nat, v: int)
    requires HeapOk(HEADER, bs, hi) && Owned(HEADER, bs, d, l) && p in l && i < |l[p]|
    ensures p + i < |d| && Owned(HEADER, bs, d[p + i := v], l[p := l[p][i := v]])
  {
    WriteBlock(HEADER, bs, hi, d, l, p, i, v);
  }

  /** `op` reallocates a pointer in use and takes too small a block behind for one that is large
      enough. */
  predicate Breaks(bs: seq<Block>, op: Op, l: Live) {
    && op.ReallocOp? && op.p in l && op.n > 0
    && exists k :: 0 <= k < |bs| && bs[k].start + HEADER == op.p && Overgrows(bs, k, Rounded(op.n))
  }

  /** No operation does that in a heap of at most 2 GB. */
  lemma NeverBreaks(bs: seq<Block>, hi: nat, op: Op, l: Live)
    requires HeapOk(HEADER, bs, hi) && hi <= TWO_32 / 2
    ensures !Breaks(bs, op, l)
  {
    hide HeapOk, Tiles;
    if op.ReallocOp? {
      forall k | 0 <= k < |bs| ensures !Overgrows(bs, k, Rounded(op.n)) {
        if FreeBehind(bs, k) {
          SmallHeap(bs, hi, k, Rounded(op.n));
        }
      }
    }
  }

  lemma SmallHeap(bs: seq<Block>, hi: nat, k: nat, n: nat)
    requires HeapOk(HEADER, bs, hi) && hi <= TWO_32 / 2 && k < |bs| && FreeBehind(bs, k)
    ensures !Overgrows(bs, k, n)
  {
    OvergrowsExactly(bs, hi, k, n);
  }

  method Step(heap: MemoryHeap, op: Op, l: Live) returns (r: Option<nat>, l': Live)
    requires heap.Valid() && Owned(HEADER, heap.blocks, heap.data, l) && !Breaks(heap.blocks, op, l)
    modifies heap
    ensures heap.Valid() && Owned(HEADER, heap.blocks, heap.data, l') && Steps(op, r, l, l')
    ensures old(heap.uses) <= heap.uses
  {
    hide Owned, HeapOk, Aligned, SameBytes, AllocAt, AllocList, FreeAt, FreedList, FirstLargeEnough, Resized, Refuses,
      StaysPut, HandedOut, Find, IsMaximum, Overgrows;
    ghost var bs, d := heap.blocks, heap.data;
    r, l' := None, l;
    match op {
      case AllocOp(n) =>
        ghost var k;
        r, k := heap.Alloc(n);
        if r.Some? {
          AllocOwned(bs, heap.End(), d, l, k, n, heap.blocks, heap.data);
          var q: nat := r.value;
          l' := l[q := heap.data[q..q + n]];
        }
      case FreeOp(p) =>
        l' := l - {p};
        if p in l {
          ghost var k := LocateIn(bs, heap.End(), d, l, p);
          heap.Free(Some(p));
          FreeOwned(bs, heap.End(), d, l, k, heap.blocks);
        } else {
          assert l - {p} == l;
        }
      case ReallocOp(p, n) =>
        if p in l {
          r, l' := ReallocStep(heap, p, n, l);
        }
      case WriteOp(p, i, v) =>
        if p in l && i < |l[p]| {
          WriteIn(bs, heap.End(), d, l, p, i, v);
          heap.Write(p + i, v);
          l' := l[p := l[p][i := v]];
        }
    }
  }

  method ReallocStep(heap: MemoryHeap, p: nat, n: nat, l: Live) returns (r: Option<nat>, l': Live)
    requires heap.Valid() && Owned(HEADER, heap.blocks, heap.data, l) && p in l
    requires !Breaks(heap.blocks, ReallocOp(p, n), l)
    modifies heap
    ensures heap.Valid() && Owned(HEADER, heap.blocks, heap.data, l') && Steps(ReallocOp(p, n), r, l, l')
    ensures old(heap.uses) <= heap.uses
  {
    hide Owned, HeapOk, Aligned, FreeAt, Resized, Refuses, StaysPut, HandedOut, Find, IsMaximum, Overgrows, Relinked;
    ghost var bs, d := heap.blocks, heap.data;
    ghost var k := LocateIn(bs, heap.End(), d, l, p);
    ghost var c;
    r, c := heap.Realloc(Some(p), n);
    if n == 0 {
      FreeOwned(bs, heap.End(), d, l, k, heap.blocks);
      l' := l - {p};
    } else if r == None {
      l' := l;
    } else {
      ResizedOwned(bs, heap.End(), d, l, k, p, n, heap.blocks, heap.data, c);
      var q: nat := r.value;
      var rest: Live := l - {p};
      l' := rest[q := heap.data[q..q + n]];
    }
  }

  /** Any sequence of allocations, frees, reallocations and writes is a run of the allocator, up to
      the first operation that breaks the heap: the pointers in use are the used blocks, and every
      pointer has the bytes last written there. In a heap of at most 2 GB none breaks it. */
  method Run(pool: nat, ops: seq<Op>)
    returns (heap: MemoryHeap, results: seq<Option<nat>>, states: seq<Live>, done: nat)
    requires pool % ALIGN == 0 && 2 * HEADER <= pool < TWO_64
    ensures heap.Valid() && done <= |ops| && IsRun(ops[..done], results, states)
    ensures Owned(HEADER, heap.blocks, heap.data, states[done])
    ensures done < |ops| ==> Breaks(heap.blocks, ops[done], states[done])
    ensures pool <= TWO_32 / 2 ==> done == |ops|
  {
    hide Owned, HeapState, Steps, IsMaximum, Breaks;
    heap := new MemoryHeap(pool);
    NothingOwned(HEADER, pool - HEADER, heap.data);
    results, states, done := [], [map[]], 0;
    var l: Live := map[];
    while done < |ops|
      invariant fresh(heap) && heap.Valid() && heap.pool == pool && Owned(HEADER, heap.blocks, heap.data, l)
      invariant done <= |ops| && IsRun(ops[..done], results, states) && l == states[done]
    {
      if pool <= TWO_32 / 2 {
        SmallNeverBreaks(heap, ops[done], l);
      }
      if Breaks(heap.blocks, ops[done], l) {
        return;
      }
      var r, l' := Step(heap, ops[done], l);
      OneMore(ops, done, results, states, r, l');
      results, states, l, done := results + [r], states + [l'], l', done + 1;
    }
  }

  lemma SmallNeverBreaks(heap: MemoryHeap, op: Op, l: Live)
    requires heap.Valid() && heap.pool <= TWO_32 / 2
    ensures !Breaks(heap.blocks, op, l)
  {
    NeverBreaks(heap.blocks, heap.End(), op, l);
  }
}
