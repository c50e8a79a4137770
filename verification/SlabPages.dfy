/** The page allocator of the slab: a list of runs of free pages in address order. */
module SlabPages {
  import opened Lists

  /** `n` free pages from page `start` on. */
  datatype Run = Run(start: nat, n: nat)

  function End(r: Run): nat {
    r.start + r.n
  }

  /** Runs are not empty, lie in address order and do not touch. */
  ghost predicate RunsOk(rs: seq<Run>) {
    && (forall i :: 0 <= i < |rs| ==> rs[i].n > 0)
    && (forall i, j :: 0 <= i < j < |rs| ==> End(rs[i]) < rs[j].start)
  }

  predicate Inside(r: Run, p: nat) {
    r.start <= p < End(r)
  }

  /** Page `p` is free. */
  ghost predicate IsFree(rs: seq<Run>, p: nat) {
    exists i :: 0 <= i < |rs| && Inside(rs[i], p)
  }

  /** `after` has the pages of `before` and those of `r`. */
  ghost predicate Adds(before: seq<Run>, r: Run, after: seq<Run>) {
    forall p: nat :: IsFree(after, p) <==> IsFree(before, p) || Inside(r, p)
  }

  /** `r` is free in `before`, and `after` has all the other pages. */
  ghost predicate Takes(before: seq<Run>, r: Run, after: seq<Run>) {
    && (forall p: nat :: Inside(r, p) ==> IsFree(before, p))
    && (forall p: nat :: IsFree(after, p) <==> IsFree(before, p) && !Inside(r, p))
  }

  ghost predicate Apart(rs: seq<Run>, r: Run) {
    forall p: nat :: Inside(r, p) ==> !IsFree(rs, p)
  }

  // ---- one run replaced ---------------------------------------------------------------------------

  /** Runs `mid` in place of the `n` runs from `k` on. */
  function Splice(rs: seq<Run>, k: nat, n: nat, mid: seq<Run>): seq<Run>
    requires k + n <= |rs|
  {
    rs[..k] + mid + rs[k + n..]
  }

  lemma SpliceFree(rs: seq<Run>, k: nat, n: nat, mid: seq<Run>, p: nat)
    requires RunsOk(rs) && k + n <= |rs|
    ensures IsFree(Splice(rs, k, n, mid), p) <==>
      IsFree(mid, p) || (exists i :: 0 <= i < |rs| && !(k <= i < k + n) && Inside(rs[i], p))
  {
    var r := Splice(rs, k, n, mid);
    if i :| 0 <= i < |mid| && Inside(mid[i], p) {
      assert r[k + i] == mid[i];
    }
    if i :| 0 <= i < |rs| && !(k <= i < k + n) && Inside(rs[i], p) {
      assert rs[i] == r[if i < k then i else i - n + |mid|];
    }
    if i :| 0 <= i < |r| && Inside(r[i], p) {
      if k <= i < k + |mid| {
        assert r[i] == mid[i - k];
      } else {
        assert r[i] == rs[if i < k then i else i - |mid| + n];
      }
    }
  }

  lemma SpliceOk(rs: seq<Run>, k: nat, n: nat, mid: seq<Run>)
    requires RunsOk(rs) && k + n <= |rs| && RunsOk(mid)
    requires mid != [] && k > 0 ==> End(rs[k - 1]) < mid[0].start
    requires mid != [] && k + n < |rs| ==> End(mid[|mid| - 1]) < rs[k + n].start
    ensures RunsOk(Splice(rs, k, n, mid))
  {
    var r := Splice(rs, k, n, mid);
    forall i, j | 0 <= i < j < |r| ensures End(r[i]) < r[j].start {
      SplicePair(rs, k, n, mid, i, j);
    }
  }

  lemma SplicePair(rs: seq<Run>, k: nat, n: nat, mid: seq<Run>, i: nat, j: nat)
    requires RunsOk(rs) && k + n <= |rs| && RunsOk(mid)
    requires mid != [] && k > 0 ==> End(rs[k - 1]) < mid[0].start
    requires mid != [] && k + n < |rs| ==> End(mid[|mid| - 1]) < rs[k + n].start
    requires i < j < |Splice(rs, k, n, mid)|
    ensures End(Splice(rs, k, n, mid)[i]) < Splice(rs, k, n, mid)[j].start
  {
    var r := Splice(rs, k, n, mid);
    if i < k {
      if k <= j < k + |mid| {
        BeforeAll(rs, k, mid, i, j - k);
      }
    } else if i < k + |mid| && j >= k + |mid| {
      BehindAll(rs, k + n, mid, i - k, j - |mid| + n);
    }
  }

  lemma BeforeAll(rs: seq<Run>, k: nat, mid: seq<Run>, i: nat, j: nat)
    requires RunsOk(rs) && RunsOk(mid) && i < k <= |rs| && j < |mid| && End(rs[k - 1]) < mid[0].start
    ensures End(rs[i]) < mid[j].start
  {
  }

  lemma BehindAll(rs: seq<Run>, k: nat, mid: seq<Run>, i: nat, j: nat)
    requires RunsOk(rs) && RunsOk(mid) && k <= j < |rs| && i < |mid| && End(mid[|mid| - 1]) < rs[k].start
    ensures End(mid[i]) < rs[j].start
  {
  }

  // ---- the run list is determined by the free pages ---------------------------------------------------

  ghost predicate SamePages(a: seq<Run>, b: seq<Run>) {
    forall p: nat :: IsFree(a, p) <==> IsFree(b, p)
  }

  /** The first free page and the first page after the first run. */
  lemma FirstRun(rs: seq<Run>)
    requires RunsOk(rs) && rs != []
    ensures IsFree(rs, rs[0].start) && !IsFree(rs, End(rs[0]))
    ensures forall p: nat :: Inside(rs[0], p) ==> IsFree(rs, p)
    ensures forall p: nat :: IsFree(rs, p) ==> rs[0].start <= p
    ensures forall p: nat :: IsFree(rs[1..], p) <==> IsFree(rs, p) && !Inside(rs[0], p)
  {
    assert Inside(rs[0], rs[0].start);
    assert RunsOk(rs[1..]);
    assert rs == Splice(rs[1..], 0, 0, [rs[0]]);
    forall p: nat ensures IsFree(rs[1..], p) <==> IsFree(rs, p) && !Inside(rs[0], p) {
      if i :| 0 <= i < |rs[1..]| && Inside(rs[1..][i], p) {
        assert Inside(rs[i + 1], p);
      }
      if i :| 0 <= i < |rs| && Inside(rs[i], p) && i != 0 {
        assert Inside(rs[1..][i - 1], p);
      }
    }
  }

  lemma SameFirst(a: seq<Run>, b: seq<Run>)
    requires RunsOk(a) && RunsOk(b) && SamePages(a, b) && a != [] && b != []
    ensures a[0] == b[0]
  {
    FirstRun(a);
    FirstRun(b);
    assert IsFree(b, a[0].start) && IsFree(a, b[0].start);
    assert !IsFree(b, End(a[0])) && !IsFree(a, End(b[0]));
    assert !Inside(b[0], End(a[0])) && !Inside(a[0], End(b[0]));
  }

  /** Two run lists with the same free pages are the same list. */
  lemma {:induction false} Canonical(a: seq<Run>, b: seq<Run>)
    requires RunsOk(a) && RunsOk(b) && SamePages(a, b)
    ensures a == b
    decreases |a|
  {
    if a == [] || b == [] {
      if a != [] {
        FirstRun(a);
      }
      if b != [] {
        FirstRun(b);
      }
    } else {
      SameFirst(a, b);
      FirstRun(a);
      FirstRun(b);
      Canonical(a[1..], b[1..]);
      assert a == [a[0]] + a[1..] && b == [b[0]] + b[1..];
    }
  }

  /** So giving back pages just taken restores the list itself. */
  lemma FreeUndoesAlloc(before: seq<Run>, r: Run, between: seq<Run>, after: seq<Run>)
    requires RunsOk(before) && RunsOk(after) && Takes(before, r, between) && Adds(between, r, after)
    ensures after == before
  {
    Canonical(before, after);
  }

  // ---- the operations -------------------------------------------------------------------------------

  /** A run gives its first pages, all or some of them. */
  lemma TakeFront(rs: seq<Run>, k: nat, n: nat, after: seq<Run>)
    requires RunsOk(rs) && k < |rs| && 0 < n <= rs[k].n
    requires after == Splice(rs, k, 1, if n < rs[k].n then [Run(rs[k].start + n, rs[k].n - n)] else [])
    ensures RunsOk(after) && Takes(rs, Run(rs[k].start, n), after)
  {
    var mid := if n < rs[k].n then [Run(rs[k].start + n, rs[k].n - n)] else [];
    SpliceOk(rs, k, 1, mid);
    forall p: nat ensures IsFree(after, p) <==> IsFree(rs, p) && !Inside(Run(rs[k].start, n), p) {
      SpliceFree(rs, k, 1, mid, p);
      assert n < rs[k].n ==> Inside(mid[0], p) == (Inside(rs[k], p) && !Inside(Run(rs[k].start, n), p));
      assert Inside(rs[k], p) ==> forall i :: 0 <= i < |rs| && Inside(rs[i], p) ==> i == k;
    }
    forall p: nat | Inside(Run(rs[k].start, n), p) ensures IsFree(rs, p) {
      assert Inside(rs[k], p);
    }
  }

  /** Pages joined with the runs they touch: `mid` covers the runs from `k` on and `r`. */
  lemma PutIn(rs: seq<Run>, k: nat, n: nat, r: Run, mid: Run, after: seq<Run>)
    requires RunsOk(rs) && k + n <= |rs| && mid.n > 0 && after == Splice(rs, k, n, [mid])
    requires forall p: nat :: Inside(mid, p) <==> Inside(r, p) || exists i :: k <= i < k + n && Inside(rs[i], p)
    requires k > 0 ==> End(rs[k - 1]) < mid.start
    requires k + n < |rs| ==> End(mid) < rs[k + n].start
    ensures RunsOk(after) && Adds(rs, r, after)
  {
    SpliceOk(rs, k, n, [mid]);
    forall p: nat ensures IsFree(after, p) <==> IsFree(rs, p) || Inside(r, p) {
      SpliceFree(rs, k, n, [mid], p);
      assert [mid][0] == mid;
    }
  }

  /** Run `k` is the first that is long enough. */
  ghost predicate FirstFit(runs: seq<Run>, k: nat, npages: nat) {
    k < |runs| && npages <= runs[k].n && forall i :: 0 <= i < k ==> runs[i].n < npages
  }

  class PageList {
    var runs: seq<Run>

    /** `rt_slab_page_init`: all pages are free. */
    constructor (start: nat, n: nat)
      requires n > 0
      ensures runs == [Run(start, n)] && RunsOk(runs)
    {
      runs := [Run(start, n)];
    }

    /** `rt_slab_page_alloc`: the first run that is long enough. */
    method Alloc(npages: nat) returns (r: Option<nat>)
      requires RunsOk(runs)
      modifies this
      ensures RunsOk(runs)
      ensures r == None <==> npages == 0 || forall i :: 0 <= i < |old(runs)| ==> old(runs)[i].n < npages
      ensures r == None ==> runs == old(runs)
      ensures r != None ==> Takes(old(runs), Run(r.value, npages), runs)
      ensures r != None ==>
        exists k :: 0 <= k < |old(runs)| && FirstFit(old(runs), k, npages) && old(runs)[k].start == r.value
    {
      if npages == 0 {
        return None;
      }
      var k := 0;
      while k < |runs|
        invariant k <= |runs| && runs == old(runs) && forall i :: 0 <= i < k ==> runs[i].n < npages
      {
        var b := runs[k];
        if b.n > npages {
          TakeFront(runs, k, npages, Splice(runs, k, 1, [Run(b.start + npages, b.n - npages)]));
          runs := Splice(runs, k, 1, [Run(b.start + npages, b.n - npages)]);
          return Some(b.start);
        }
        if b.n == npages {
          TakeFront(runs, k, npages, Splice(runs, k, 1, []));
          runs := Splice(runs, k, 1, []);
          return Some(b.start);
        }
        k := k + 1;
      }
      return None;
    }

    /** `rt_slab_page_free`: pages that are not free go into the list and join their neighbours. */
    method Free(addr: nat, npages: nat)
      requires RunsOk(runs) && npages > 0 && Apart(runs, Run(addr, npages))
      modifies this
      ensures RunsOk(runs) && Adds(old(runs), Run(addr, npages), runs)
    {
      hide RunsOk;
      hide Splice;
      ghost var r := Run(addr, npages);
      var k := 0;
      while k < |runs|
        invariant k <= |runs| && runs == old(runs) && (k > 0 ==> End(runs[k - 1]) < addr)
      {
        var b := runs[k];
        NotInside(runs, k, r);
        if End(b) == addr {
          if k + 1 < |runs| && End(b) + npages == runs[k + 1].start {
            JoinBoth(runs, k, r);
            runs := Splice(runs, k, 2, [Run(b.start, b.n + npages + runs[k + 1].n)]);
          } else {
            JoinFront(runs, k, r);
            runs := Splice(runs, k, 1, [Run(b.start, b.n + npages)]);
          }
          return;
        }
        if b.start == addr + npages {
          JoinBehind(runs, k, r);
          runs := Splice(runs, k, 1, [Run(addr, b.n + npages)]);
          return;
        }
        if b.start > addr + npages {
          break;
        }
        k := k + 1;
      }
      InsertRun(runs, k, r);
      runs := Splice(runs, k, 0, [Run(addr, npages)]);
    }
  }

  lemma NotInside(rs: seq<Run>, k: nat, r: Run)
    requires RunsOk(rs) && k < |rs| && r.n > 0 && Apart(rs, r)
    ensures End(rs[k]) <= r.start || End(r) <= rs[k].start
  {
    var b := rs[k];
    assert Inside(b, r.start) ==> IsFree(rs, r.start);
    assert Inside(r, b.start) ==> !IsFree(rs, b.start);
    assert Inside(b, b.start) && Inside(r, r.start);
  }

  lemma JoinFront(rs: seq<Run>, k: nat, r: Run)
    requires RunsOk(rs) && k < |rs| && r.n > 0 && Apart(rs, r) && End(rs[k]) == r.start
    requires k + 1 < |rs| ==> End(r) != rs[k + 1].start
    ensures var after := Splice(rs, k, 1, [Run(rs[k].start, rs[k].n + r.n)]); RunsOk(after) && Adds(rs, r, after)
  {
    var mid := Run(rs[k].start, rs[k].n + r.n);
    if k + 1 < |rs| {
      NotInside(rs, k + 1, r);
    }
    assert forall p: nat :: Inside(mid, p) <==> Inside(r, p) || Inside(rs[k], p);
    PutIn(rs, k, 1, r, mid, Splice(rs, k, 1, [mid]));
  }

  lemma JoinBehind(rs: seq<Run>, k: nat, r: Run)
    requires RunsOk(rs) && k < |rs| && r.n > 0 && rs[k].start == End(r) && (k > 0 ==> End(rs[k - 1]) < r.start)
    ensures var after := Splice(rs, k, 1, [Run(r.start, rs[k].n + r.n)]); RunsOk(after) && Adds(rs, r, after)
  {
    var mid := Run(r.start, rs[k].n + r.n);
    assert forall p: nat :: Inside(mid, p) <==> Inside(r, p) || Inside(rs[k], p);
    PutIn(rs, k, 1, r, mid, Splice(rs, k, 1, [mid]));
  }

  lemma JoinBoth(rs: seq<Run>, k: nat, r: Run)
    requires RunsOk(rs) && k + 1 < |rs| && r.n > 0 && End(rs[k]) == r.start && End(r) == rs[k + 1].start
    ensures var after := Splice(rs, k, 2, [Run(rs[k].start, rs[k].n + r.n + rs[k + 1].n)]);
      RunsOk(after) && Adds(rs, r, after)
  {
    var mid := Run(rs[k].start, rs[k].n + r.n + rs[k + 1].n);
    forall p: nat ensures Inside(mid, p) <==> Inside(r, p) || exists i :: k <= i < k + 2 && Inside(rs[i], p) {
      if Inside(mid, p) && !Inside(r, p) {
        assert Inside(rs[k], p) || Inside(rs[k + 1], p);
      }
    }
    PutIn(rs, k, 2, r, mid, Splice(rs, k, 2, [mid]));
  }

  lemma InsertRun(rs: seq<Run>, k: nat, r: Run)
    requires RunsOk(rs) && k <= |rs| && r.n > 0 && (k > 0 ==> End(rs[k - 1]) < r.start)
    requires (k < |rs| ==> End(r) < rs[k].start)
    ensures var after := Splice(rs, k, 0, [r]); RunsOk(after) && Adds(rs, r, after)
  {
    PutIn(rs, k, 0, r, r, Splice(rs, k, 0, [r]));
  }

  /** Pages taken and given back leave the very same list. */
  method AllocThenFree(pages: PageList, npages: nat)
    requires RunsOk(pages.runs)
    modifies pages
    ensures RunsOk(pages.runs) && pages.runs == old(pages.runs)
  {
    ghost var before := pages.runs;
    var r := pages.Alloc(npages);
    if r != None {
      ghost var between := pages.runs;
      pages.Free(r.value, npages);
      FreeUndoesAlloc(before, Run(r.value, npages), between, pages.runs);
    }
  }
}
