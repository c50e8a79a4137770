/** Whole runs of the small memory algorithm: it is an allocator of bytes that stay as written. */
module SmallMemRun {
  import opened Lists
  import opened Blocks
  import opened Allocator
  import opened SmallMem

  lemma AllocOwned(bs: seq<Block>, hi: nat, d: seq<int>, l: Live, k: nat, n: nat, bs': seq<Block>, d': seq<int>)
    requires HeapOk(HEADER, bs, hi) && hi <= |d| && Owned(HEADER, bs, d, l)
    requires k < |bs| && Fits(HEADER, bs[k], Rounded(n)) && bs' == AllocAt(HEADER, MIN_SIZE, bs, k, Rounded(n))
    requires SameBytes(bs, d, d')
    ensures var p := bs[k].start + HEADER; p + n <= |d'| && var l' := l[p := d'[p..p + n]];
      Owned(HEADER, bs', d', l') && Gained(l, p, n, l')
  {
    hide AllocAt, Tiles, Owned, UsedChange, Gained, Rounded;
    var c := Handed(HEADER, MIN_SIZE, bs[k], Rounded(n));
    AllocUsed(HEADER, MIN_SIZE, bs, hi, k, Rounded(n));
    Within(HEADER, bs, hi, k);
    FreeIsUnknown(HEADER, bs, hi, d, l, k);
    GainBlock(HEADER, bs, d, l, bs', d', c, n);
  }

  lemma FreeOwned(bs: seq<Block>, hi: nat, d: seq<int>, l: Live, k: nat, bs': seq<Block>, d': seq<int>)
    requires HeapOk(HEADER, bs, hi) && Owned(HEADER, bs, d, l)
    requires k < |bs| && bs[k].used && bs' == FreeAt(bs, k) && SameBytes(bs', d, d')
    ensures Owned(HEADER, bs', d', l - {bs[k].start + HEADER})
  {
    hide FreeAt, Tiles, Owned, UsedChange;
    FreeKeeps(HEADER, bs, hi, k);
    LoseBlock(HEADER, bs, hi, d, l, bs', d', k);
  }

  // ---- reallocation -----------------------------------------------------------------------------

  lemma Shrunk(bs: seq<Block>, hi: nat, d: seq<int>, k: nat, size: nat, n: nat, bs': seq<Block>, d': seq<int>)
    requires HeapOk(HEADER, bs, hi) && hi <= |d| && k < |bs| && bs[k].used
    requires bs[k].start + HEADER + size + HEADER <= bs[k].end
    requires bs' == ShrinkAt(HEADER, bs, k, size) && SameBytes(bs', d, d') && n <= size
    ensures Relocated(HEADER, bs, d, bs', d', k, Block(bs[k].start, bs[k].start + HEADER + size, true), n)
  {
    hide ShrinkAt, Tiles;
    var c := Block(bs[k].start, bs[k].start + HEADER + size, true);
    ShrinkKeeps(HEADER, bs, hi, k, size);
    SameStart(HEADER, bs, hi, k, c);
    Within(HEADER, bs, hi, k);
    assert c in bs';
  }

  /** Where the block went, and what became of the others. */
  lemma MovedBlocks(bs: seq<Block>, hi: nat, k: nat, size: nat, j: nat, k': nat, bs1: seq<Block>, bs': seq<Block>)
    requires HeapOk(HEADER, bs, hi) && k < |bs| && bs[k].used && j < |bs| && Fits(HEADER, bs[j], size)
    requires bs1 == AllocAt(HEADER, MIN_SIZE, bs, j, size) && k' < |bs1| && bs1[k'] == bs[k] && bs' == FreeAt(bs1, k')
    ensures var c := Handed(HEADER, MIN_SIZE, bs[j], size);
      && UsedChange(bs, bs', {bs[k]}, {c})
      && c !in bs && c.used && c.start == bs[j].start && c.start + HEADER + size <= c.end <= hi
  {
    hide AllocAt, FreeAt, Tiles;
    var c := Handed(HEADER, MIN_SIZE, bs[j], size);
    AllocUsed(HEADER, MIN_SIZE, bs, hi, j, size);
    AllocTiles(HEADER, MIN_SIZE, bs, hi, j, size);
    FreeKeeps(HEADER, bs1, hi, k');
    SameStart(HEADER, bs, hi, j, c);
    Within(HEADER, bs, hi, j);
    assert bs[k] in bs;
  }

  lemma MovedBlock(bs: seq<Block>, hi: nat, d: seq<int>, k: nat, size: nat, n: nat, r: Option<nat>, bs': seq<Block>,
                   d': seq<int>)
    requires HeapOk(HEADER, bs, hi) && hi <= |d| && k < |bs| && bs[k].used && n <= size
    requires bs[k].start + HEADER <= bs[k].end && MoveEffect(bs[k].start + HEADER, size, k, bs, d, r, bs', d')
    requires r != None
    ensures FirstFit(HEADER, bs, Rounded(size)) < |bs|
    ensures var c := Handed(HEADER, MIN_SIZE, bs[FirstFit(HEADER, bs, Rounded(size))], Rounded(size));
      r.value == c.start + HEADER && Relocated(HEADER, bs, d, bs', d', k, c, n)
  {
    hide AllocAt, FreeAt, HeapOk, FirstFit, UsedChange, Copied, AfterAlloc, Rounded;
    var j := FirstFit(HEADER, bs, Rounded(size));
    MovedBlocks(bs, hi, k, Rounded(size), j, AfterAlloc(bs, j, Rounded(size), k),
                AllocAt(HEADER, MIN_SIZE, bs, j, Rounded(size)), bs');
    var from := bs[k].start + HEADER;
    CopiedFront(d, d', from, bs[k].end, r.value, size, n);
  }

  lemma CopiedFront(d: seq<int>, d': seq<int>, p: nat, end: nat, q: nat, size: nat, n: nat)
    requires p <= end && n <= size && Copied(d, d', p, q, if end - p < size then end - p else size)
    ensures SameFront(d, p, end, d', q, n)
  {
    var m := if end - p < size then end - p else size;
    forall x, y | p <= x < end && x < |d| && y == x - p + q && y < q + n && y < |d'| ensures d'[y] == d[x] {
      assert d'[y] == d'[q..q + m][x - p] && d[x] == d[p..p + m][x - p];
    }
  }

  /** What `p` and the other pointers stand for after it was reallocated to `n` bytes. */
  function AfterRealloc(l: Live, p: nat, n: nat, r: Option<nat>, d: seq<int>): Live {
    if n == 0 then l - {p}
    else if r == None || r.value + n > |d| then l
    else (l - {p})[r.value := d[r.value..r.value + n]]
  }

  lemma ReallocOwned(size: nat, bs: seq<Block>, hi: nat, d: seq<int>, l: Live, k: nat, p: nat, n: nat,
                     r: Option<nat>, bs': seq<Block>, d': seq<int>)
    requires HeapOk(HEADER, bs, hi) && HeapOk(HEADER, bs', hi) && hi <= |d| && Owned(HEADER, bs, d, l) && p in l
    requires k < |bs| && bs[k].used && bs[k].start + HEADER == p <= bs[k].end
    requires ReallocEffect(size, Some(p), AlignUp(n), k, bs, d, r, bs', d')
    ensures var l' := AfterRealloc(l, p, n, r, d'); Owned(HEADER, bs', d', l') && Steps(ReallocOp(p, n), r, l, l')
  {
    hide Tiles, Owned, FreeAt, ShrinkAt, AllocAt, MoveEffect, SameBytes, Relocated;
    var was := bs[k].end - bs[k].start - HEADER;
    if n == 0 {
      FreeOwned(bs, hi, d, l, k, bs', d');
    } else if r != None {
      var c := bs[k];
      if AlignUp(n) == was {
        Unmoved(bs, hi, d, k, n);
      } else if AlignUp(n) + HEADER + MIN_SIZE < was {
        c := Block(bs[k].start, bs[k].start + HEADER + AlignUp(n), true);
        Shrunk(bs, hi, d, k, AlignUp(n), n, bs', d');
      } else {
        MovedBlock(bs, hi, d, k, AlignUp(n), n, r, bs', d');
        c := Handed(HEADER, MIN_SIZE, bs[FirstFit(HEADER, bs, Rounded(AlignUp(n)))], Rounded(AlignUp(n)));
      }
      ReallocSteps(HEADER, bs, hi, d, l, bs', d', p, k, c, n);
      EndOf(bs, d, bs', d', k, c, n);
    } else {
      NothingMoved(size, bs, hi, d, l, k, p, n, bs', d');
    }
  }

  lemma Unmoved(bs: seq<Block>, hi: nat, d: seq<int>, k: nat, n: nat)
    requires HeapOk(HEADER, bs, hi) && hi <= |d| && k < |bs| && bs[k].used && bs[k].start + HEADER + n <= bs[k].end
    ensures Relocated(HEADER, bs, d, bs, d, k, bs[k], n)
  {
    Within(HEADER, bs, hi, k);
  }

  lemma EndOf(bs: seq<Block>, d: seq<int>, bs': seq<Block>, d': seq<int>, k: nat, c: Block, n: nat)
    requires Relocated(HEADER, bs, d, bs', d', k, c, n)
    ensures c.start + HEADER + n <= |d'|
  {
  }

  lemma NothingMoved(size: nat, bs: seq<Block>, hi: nat, d: seq<int>, l: Live, k: nat, p: nat, n: nat, bs': seq<Block>,
                     d': seq<int>)
    requires k < |bs| && bs[k].used && bs[k].start + HEADER == p <= bs[k].end && n > 0
    requires ReallocEffect(size, Some(p), AlignUp(n), k, bs, d, None, bs', d')
    ensures bs' == bs && d' == d
  {
  }

  // ---- runs -------------------------------------------------------------------------------------

  method Step(m: SmallMemory, op: Op, l: Live) returns (r: Option<nat>, l': Live)
    requires m.Valid() && Owned(HEADER, m.blocks, m.data, l)
    modifies m
    ensures m.Valid() && Owned(HEADER, m.blocks, m.data, l') && Steps(op, r, l, l')
  {
    hide Owned, HeapOk, Linked, LowestFree, SameBytes, AllocAt, FreeAt, FirstFit, ReallocEffect;
    ghost var bs, d := m.blocks, m.data;
    r, l' := None, l;
    match op {
      case AllocOp(n) =>
        r := m.Alloc(n);
        if r.Some? {
          AllocOwned(bs, m.End(), d, l, FirstFit(HEADER, bs, Rounded(n)), n, m.blocks, m.data);
          l' := l[r.value := m.data[r.value..r.value + n]];
        }
      case FreeOp(p) =>
        l' := l - {p};
        if p in l {
          ghost var k := LocateIn(bs, m.End(), d, l, p);
          m.Free(Some(p), k);
          FreeOwned(bs, m.End(), d, l, k, m.blocks, m.data);
        } else {
          assert l - {p} == l;
        }
      case ReallocOp(p, n) =>
        if p in l {
          ghost var k := LocateIn(bs, m.End(), d, l, p);
          r := m.Realloc(Some(p), n, k);
          ReallocOwned(m.size, bs, m.End(), d, l, k, p, n, r, m.blocks, m.data);
          l' := AfterRealloc(l, p, n, r, m.data);
        }
      case WriteOp(p, i, v) =>
        if p in l && i < |l[p]| {
          WriteIn(bs, m.End(), d, l, p, i, v);
          m.Write(p + i, v);
          l' := l[p := l[p][i := v]];
        }
    }
  }

  lemma LocateIn(bs: seq<Block>, hi: nat, d: seq<int>, l: Live, p: nat) returns (k: nat)
    requires HeapOk(HEADER, bs, hi) && Owned(HEADER, bs, d, l) && p in l
    ensures k < |bs| && bs[k].used && bs[k].start + HEADER == p <= bs[k].end
  {
    k := Locate(HEADER, bs, hi, d, l, p);
  }

  lemma WriteIn(bs: seq<Block>, hi: nat, d: seq<int>, l: Live, p: nat, i: nat, v: int)
    requires HeapOk(HEADER, bs, hi) && Owned(HEADER, bs, d, l) && p in l && i < |l[p]|
    ensures p + i < |d| && Owned(HEADER, bs, d[p + i := v], l[p := l[p][i := v]])
  {
    WriteBlock(HEADER, bs, hi, d, l, p, i, v);
  }

  /** Any sequence of allocations, frees, reallocations and writes is a run of the allocator: the
      pointers in use are the used blocks, and every pointer has the bytes last written there. */
  method Run(size: nat, ops: seq<Op>) returns (m: SmallMemory, results: seq<Option<nat>>, states: seq<Live>)
    requires size % ALIGN == 0
    ensures m.Valid() && IsRun(ops, results, states) && Owned(HEADER, m.blocks, m.data, states[|ops|])
  {
    hide Owned, HeapOk, Linked, LowestFree, Steps;
    m := new SmallMemory(size);
    NothingOwned(HEADER, m.End(), m.data);
    results, states := [], [map[]];
    var l: Live := map[];
    for i := 0 to |ops|
      invariant fresh(m) && m.Valid() && Owned(HEADER, m.blocks, m.data, l)
      invariant IsRun(ops[..i], results, states) && l == states[i]
    {
      var r, l' := Step(m, ops[i], l);
      OneMore(ops, i, results, states, r, l');
      results, states, l := results + [r], states + [l'], l';
    }
    assert ops[..|ops|] == ops;
  }
}
