/** Whole runs of the slab allocator: it is an allocator of bytes that stay as written. */
module SlabRun {
  import opened Lists
  import opened Allocator
  import opened SlabZones
  import opened Slab

  /** No two allocations share a byte, and all lie in a heap of `end` bytes. */
  ghost predicate Separate(l: Allocator.Live, end: nat) {
    && (forall p, q :: p in l && q in l && p != q ==> p + |l[p]| <= q || q + |l[q]| <= p)
    && (forall p :: p in l ==> p + |l[p]| <= end)
  }

  /** `p` stands for `ref` and has these bytes. */
  ghost predicate Has(v: View, data: seq<int>, ref: Ref, p: nat, bytes: seq<int>) {
    && Refers(v, ref, p) && |bytes| <= Room(v, ref) && p + Room(v, ref) <= |data|
    && forall x :: p <= x < p + |bytes| ==> data[x] == bytes[x - p]
  }

  /** The pointers in use are exactly what is live, and every pointer has its bytes. */
  ghost predicate Client(v: View, data: seq<int>, refs: map<nat, Ref>, l: Allocator.Live) {
    && refs.Keys == l.Keys
    && (forall p :: p in refs ==> Has(v, data, refs[p], p, l[p]))
    && (forall a, p: nat :: Refers(v, a, p) ==> p in refs && refs[p] == a)
  }

  lemma ClientSeparate(v: View, data: seq<int>, refs: map<nat, Ref>, l: Allocator.Live)
    requires Sound(v, |data|) && Client(v, data, refs, l)
    ensures Separate(l, |data|)
  {
    hide Refers, Room;
    forall p, q | p in l && q in l && p != q ensures p + |l[p]| <= q || q + |l[q]| <= p {
      assert Has(v, data, refs[p], p, l[p]) && Has(v, data, refs[q], q, l[q]);
      if refs[p] == refs[q] {
        OnePointer(v, refs[p], p, q);
      }
    }
  }

  lemma OnePointer(v: View, a: Ref, p: nat, q: nat)
    requires Refers(v, a, p) && Refers(v, a, q)
    ensures p == q
  {
  }

  lemma StillHas(v: View, w: View, d: seq<int>, d': seq<int>, but: Option<Ref>, ref: Ref, p: nat, bytes: seq<int>)
    requires Has(v, d, ref, p, bytes) && Refers(w, ref, p) && Room(w, ref) == Room(v, ref) && Some(ref) != but
    requires Slab.Kept(w, but, d, d')
    ensures Has(w, d', ref, p, bytes)
  {
    hide Refers, Room;
  }

  // ---- steps --------------------------------------------------------------------------------------

  lemma ClientGains(v: View, d: seq<int>, refs: map<nat, Ref>, l: Allocator.Live, w: View, d': seq<int>, a: Ref, p: nat,
                    n: nat)
    requires Client(v, d, refs, l) && Gains(v, w, a, p) && Sound(w, |d'|) && n <= Room(w, a)
    requires Slab.Kept(w, None, d, d')
    ensures p + n <= |d'|
    ensures var l' := l[p := d'[p..p + n]]; Client(w, d', refs[p := a], l') && Gained(l, p, n, l')
  {
    hide Refers, Room, Slab.Kept;
    var l', refs' := l[p := d'[p..p + n]], refs[p := a];
    forall q: nat | Refers(w, a, q) ensures q == p {
      OnePointer(w, a, p, q);
    }
    assert p !in refs by {
      NewPointer(v, d, refs, l, w, |d'|, a, p);
    }
    forall q | q in refs' ensures Has(w, d', refs'[q], q, l'[q]) {
      if q != p {
        assert Has(v, d, refs[q], q, l[q]);
        StillHas(v, w, d, d', None, refs[q], q, l[q]);
      }
    }
  }

  lemma NewPointer(v: View, d: seq<int>, refs: map<nat, Ref>, l: Allocator.Live, w: View, end: nat, a: Ref, p: nat)
    requires Client(v, d, refs, l) && Gains(v, w, a, p) && Sound(w, end)
    ensures p !in refs
  {
    hide Refers, Room;
  }

  lemma ClientLoses(v: View, d: seq<int>, refs: map<nat, Ref>, l: Allocator.Live, w: View, d': seq<int>, a: Ref, p: nat)
    requires Client(v, d, refs, l) && Loses(v, w, a, p) && Slab.Kept(w, None, d, d')
    ensures Client(w, d', refs - {p}, l - {p})
  {
    hide Refers, Room, Slab.Kept;
    forall q: nat | Refers(v, a, q) ensures q == p {
      OnePointer(v, a, p, q);
    }
    forall q | q in refs - {p} ensures Has(w, d', refs[q], q, l[q]) {
      assert Has(v, d, refs[q], q, l[q]);
      StillHas(v, w, d, d', None, refs[q], q, l[q]);
    }
  }

  lemma ClientResizes(v: View, d: seq<int>, refs: map<nat, Ref>, l: Allocator.Live, w: View, d': seq<int>,
                      a: Ref, p: nat, b: Ref, q: nat, n: nat)
    requires Client(v, d, refs, l) && p in l && refs[p] == a && n > 0
    requires Slab.Resized(v, d, a, p, n, w, d', b, q) && Sound(w, |d'|)
    ensures q + n <= |d'|
    ensures var l' := (l - {p})[q := d'[q..q + n]];
      Client(w, d', (refs - {p})[q := b], l') && Steps(ReallocOp(p, n), Some(q), l, l')
  {
    hide Refers, Room, Slab.Kept, Has, Sound;
    NewHas(w, d', b, q, n);
    var l', refs' := (l - {p})[q := d'[q..q + n]], (refs - {p})[q := b];
    assert Has(v, d, a, p, l[p]);
    OtherPointer(v, d, refs, l, w, |d'|, a, p, b, q);
    forall x | x in refs' && x != q ensures Has(w, d', refs'[x], x, l'[x]) {
      OtherHas(v, d, refs, l, w, d', a, p, b, q, x);
    }
    forall c, x: nat | Refers(w, c, x) ensures x in refs' && refs'[x] == c {
      OtherRef(v, d, refs, l, w, d', a, p, b, q, c, x);
    }
    SameFirst(v, d, a, p, l[p], d', q, n);
  }

  lemma NewHas(w: View, d: seq<int>, b: Ref, q: nat, n: nat)
    requires Refers(w, b, q) && n <= Room(w, b) && Sound(w, |d|)
    ensures q + n <= |d| && Has(w, d, b, q, d[q..q + n])
  {
    hide Refers, Room;
  }

  lemma OtherHas(v: View, d: seq<int>, refs: map<nat, Ref>, l: Allocator.Live, w: View, d': seq<int>,
                 a: Ref, p: nat, b: Ref, q: nat, x: nat)
    requires Client(v, d, refs, l) && p in l && refs[p] == a && Replaces(v, w, a, p, b, q)
    requires Slab.Kept(w, Some(b), d, d')
    requires x in refs && x != p
    ensures Has(w, d', refs[x], x, l[x])
  {
    hide Refers, Room, Slab.Kept;
    assert Has(v, d, refs[x], x, l[x]);
    if refs[x] == a {
      OnePointer(v, a, p, x);
    }
    StillHas(v, w, d, d', Some(b), refs[x], x, l[x]);
  }

  lemma OtherRef(v: View, d: seq<int>, refs: map<nat, Ref>, l: Allocator.Live, w: View, d': seq<int>,
                 a: Ref, p: nat, b: Ref, q: nat, c: Ref, x: nat)
    requires Client(v, d, refs, l) && p in l && refs[p] == a && Replaces(v, w, a, p, b, q)
    requires Refers(w, c, x) && q !in refs - {p}
    ensures var refs' := (refs - {p})[q := b]; x in refs' && refs'[x] == c
  {
    hide Refers, Room;
    if c == b {
      OnePointer(w, b, q, x);
    } else {
      assert Refers(v, c, x);
    }
  }

  lemma OtherPointer(v: View, d: seq<int>, refs: map<nat, Ref>, l: Allocator.Live, w: View, end: nat, a: Ref, p: nat,
                     b: Ref, q: nat)
    requires Client(v, d, refs, l) && Replaces(v, w, a, p, b, q) && Sound(w, end)
    ensures q !in refs - {p}
  {
    hide Refers, Room;
    forall x: nat | Refers(v, a, x) ensures x == p {
      OnePointer(v, a, p, x);
    }
  }

  /** As many of the bytes last written as fit are still there. */
  lemma SameFirst(v: View, d: seq<int>, a: Ref, p: nat, bytes: seq<int>, d': seq<int>, q: nat, n: nat)
    requires Has(v, d, a, p, bytes) && q + n <= |d'|
    requires var m := if Room(v, a) < n then Room(v, a) else n;
      p + m <= |d| && q + m <= |d'| && d'[q..q + m] == d[p..p + m]
    ensures forall i :: 0 <= i < n && i < |bytes| ==> d'[q..q + n][i] == bytes[i]
  {
    hide Refers, Room;
    var m := if Room(v, a) < n then Room(v, a) else n;
    forall i | 0 <= i < n && i < |bytes| ensures d'[q..q + n][i] == bytes[i] {
      assert d'[q..q + n][i] == d'[q..q + m][i] == d[p..p + m][i] == d[p + i];
    }
  }

  lemma ClientWrites(v: View, d: seq<int>, refs: map<nat, Ref>, l: Allocator.Live, p: nat, i: nat, x: int)
    requires Client(v, d, refs, l) && Sound(v, |d|) && p in l && i < |l[p]|
    ensures p + i < |d| && Client(v, d[p + i := x], refs, l[p := l[p][i := x]])
  {
    hide Refers, Room;
    assert Has(v, d, refs[p], p, l[p]);
    var d', l' := d[p + i := x], l[p := l[p][i := x]];
    forall q | q in refs ensures Has(v, d', refs[q], q, l'[q]) {
      assert Has(v, d, refs[q], q, l[q]);
      if q != p && refs[q] == refs[p] {
        OnePointer(v, refs[p], p, q);
      }
    }
  }

  lemma KnownRef(v: View, d: seq<int>, refs: map<nat, Ref>, l: Allocator.Live, p: nat) returns (ref: Ref)
    requires Client(v, d, refs, l) && p in l
    ensures p in refs && ref == refs[p] && Refers(v, ref, p)
  {
    hide Refers, Room;
    ref := refs[p];
    assert Has(v, d, ref, p, l[p]);
  }

  // ---- runs ---------------------------------------------------------------------------------------

  method Step(s: SlabHeap, op: Op, l: Allocator.Live, ghost refs: map<nat, Ref>)
    returns (r: Option<nat>, l': Allocator.Live, ghost refs': map<nat, Ref>)
    requires s.Valid() && Client(s.Live(), s.data, refs, l)
    modifies s, s.pages
    ensures s.Valid() && Client(s.Live(), s.data, refs', l') && Steps(op, r, l, l')
    ensures old(OneIdle(s.live, s.lists)) ==> OneIdle(s.live, s.lists)
  {
    hide Placed, ZonesListed, TableKept, Client, Sound, Gains, Loses, Slab.Resized, Slab.Kept, Refused, Refers, Room;
    hide OneIdle, RightSize;
    ghost var v, d := s.Live(), s.data;
    r, l', refs' := None, l, refs;
    match op {
      case AllocOp(n) =>
        ghost var ref;
        r, ref := s.Alloc(n);
        if r != None {
          HeapSound(s);
          ClientGains(v, d, refs, l, s.Live(), s.data, ref, r.value, n);
          l', refs' := l[r.value := s.data[r.value..r.value + n]], refs[r.value := ref];
        }
      case FreeOp(p) =>
        l' := l - {p};
        if p in l {
          ghost var ref := KnownRef(v, d, refs, l, p);
          s.Free(Some(p), ref);
          ClientLoses(v, d, refs, l, s.Live(), s.data, ref, p);
          refs' := refs - {p};
        } else {
          assert l - {p} == l;
        }
      case ReallocOp(p, n) =>
        if p in l {
          r, l', refs' := ReallocStep(s, p, n, l, refs);
        }
      case WriteOp(p, i, x) =>
        if p in l && i < |l[p]| {
          HeapSound(s);
          ClientWrites(v, d, refs, l, p, i, x);
          s.Write(p + i, x);
          l' := l[p := l[p][i := x]];
        }
    }
  }

  method ReallocStep(s: SlabHeap, p: nat, n: nat, l: Allocator.Live, ghost refs: map<nat, Ref>)
    returns (r: Option<nat>, l': Allocator.Live, ghost refs': map<nat, Ref>)
    requires s.Valid() && Client(s.Live(), s.data, refs, l) && p in l
    modifies s, s.pages
    ensures s.Valid() && Client(s.Live(), s.data, refs', l') && Steps(ReallocOp(p, n), r, l, l')
    ensures old(OneIdle(s.live, s.lists)) ==> OneIdle(s.live, s.lists)
  {
    hide Placed, ZonesListed, TableKept, Client, Sound, Gains, Loses, Slab.Resized, Slab.Kept, Refused, Refers, Room;
    hide OneIdle, RightSize;
    ghost var v, d := s.Live(), s.data;
    ghost var ref := KnownRef(v, d, refs, l, p);
    ghost var ref';
    r, ref' := s.Realloc(Some(p), n, ref);
    if n == 0 {
      ClientLoses(v, d, refs, l, s.Live(), s.data, ref, p);
      l', refs' := l - {p}, refs - {p};
    } else if r == None {
      l', refs' := l, refs;
    } else {
      HeapSound(s);
      ClientResizes(v, d, refs, l, s.Live(), s.data, ref, p, ref', r.value, n);
      l', refs' := (l - {p})[r.value := s.data[r.value..r.value + n]], (refs - {p})[r.value := ref'];
    }
  }

  /** Any sequence of allocations, frees, reallocations and writes is a run of the allocator: the
      pointers in use are what is live, every pointer has the bytes last written there, and all
      that is handed out at any time lies in the heap and apart from everything else. Of every
      class at most one zone without a live chunk is kept. */
  method Run(npages: nat, ops: seq<Op>)
    returns (s: SlabHeap, results: seq<Option<nat>>, states: seq<Allocator.Live>, ghost refs: map<nat, Ref>)
    requires npages > 0
    ensures s.Valid() && IsRun(ops, results, states) && Client(s.Live(), s.data, refs, states[|ops|])
    ensures forall i :: 0 <= i < |states| ==> Separate(states[i], npages * PAGE)
    ensures OneIdle(s.live, s.lists)
  {
    hide Placed, ZonesListed, TableKept, Client, Steps, Separate, Sound, OneIdle;
    s := new SlabHeap(npages);
    results, states, refs := [], [map[]], map[];
    var l: Allocator.Live := map[];
    NoClient(s.Live(), s.data);
    for i := 0 to |ops|
      invariant fresh(s) && fresh(s.pages) && s.Valid() && s.pageCount == npages && Client(s.Live(), s.data, refs, l)
      invariant IsRun(ops[..i], results, states) && l == states[i] && OneIdle(s.live, s.lists)
      invariant forall j :: 0 <= j < |states| ==> Separate(states[j], npages * PAGE)
    {
      var r, l';
      ghost var refs';
      r, l', refs' := Step(s, ops[i], l, refs);
      HeapSound(s);
      ClientSeparate(s.Live(), s.data, refs', l');
      OneMore(ops, i, results, states, r, l');
      results, states, l, refs := results + [r], states + [l'], l', refs';
    }
    assert ops[..|ops|] == ops;
  }

  lemma NoClient(v: View, data: seq<int>)
    requires v.zones == map[] && v.larges == map[]
    ensures Client(v, data, map[], map[]) && Separate(map[], |data|)
  {
  }
}
