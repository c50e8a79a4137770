/**
Ticks that wrap around, sorted insertion, and the rows of a skip list as functions on
lists of timers.
*/
module TimerRows {
  import opened Lists
  import opened MachineWords

  /** Number of values of `rt_tick_t`. */
  const WRAP: int := TWO_32
  /** RT_TICK_MAX / 2 */
  const HALF: int := 0x7fff_ffff

  /** Unsigned 32-bit subtraction. */
  function Minus(a: int, b: int): (r: int)
    requires 0 <= a < WRAP && 0 <= b < WRAP
    ensures 0 <= r < WRAP
  {
    (a - b) % WRAP
  }

  /** `a` and `b` are less than half the range apart. */
  predicate Near(a: int, b: int) {
    -HALF < a - b < HALF
  }

  /** Subtracting wrapped ticks wraps the difference. */
  lemma MinusWraps(a: int, b: int)
    ensures Minus(a % WRAP, b % WRAP) == (a - b) % WRAP
  {
    var qa, qb := a / WRAP, b / WRAP;
    assert a == qa * WRAP + a % WRAP && b == qb * WRAP + b % WRAP;
    assert a - b == (a % WRAP - b % WRAP) + (qa - qb) * WRAP;
    ModAddMultiple(a % WRAP - b % WRAP, qa - qb);
  }

  lemma ModAddMultiple(x: int, k: int)
    ensures (x + k * WRAP) % WRAP == x % WRAP
  {
    var q := x / WRAP;
    assert x == q * WRAP + x % WRAP;
    assert x + k * WRAP == (q + k) * WRAP + x % WRAP;
  }

  /** The two tests of timer.c on wrapped ticks are comparisons of the true ticks. */
  lemma NearComparisons(a: int, b: int)
    requires Near(a, b)
    ensures Minus(a % WRAP, b % WRAP) == 0 <==> a == b
    ensures 0 < Minus(a % WRAP, b % WRAP) < HALF <==> b < a
    ensures Minus(a % WRAP, b % WRAP) < HALF <==> b <= a
  {
    MinusWraps(a, b);
  }

  /** Exactly how far the ordering test can be trusted for ticks less than a full turn apart. */
  lemma ComparisonRange(a: int, b: int)
    requires -WRAP < a - b < WRAP
    ensures (0 < Minus(a % WRAP, b % WRAP) < HALF <==> b < a) <==> -(HALF + 2) <= a - b < HALF
  {
    MinusWraps(a, b);
  }

  // ---- sorted lists ------------------------------------------------------------------

  /** The deadline or the height of a timer. */
  function At(v: seq<int>, t: nat): int {
    if t < |v| then v[t] else 0
  }

  ghost predicate Sorted(due: seq<int>, s: seq<nat>) {
    forall i, j :: 0 <= i < j < |s| ==> At(due, s[i]) <= At(due, s[j])
  }

  /** `x` put behind all timers that are due no later: plain linear insertion, equals first in
      first out. */
  function Insert(due: seq<int>, s: seq<nat>, x: nat): seq<nat> {
    if s == [] then [x]
    else if At(due, s[0]) > At(due, x) then [x] + s
    else [s[0]] + Insert(due, s[1..], x)
  }

  /** How many of the first timers are due no later than `d`. */
  function Upper(due: seq<int>, s: seq<nat>, d: int): (n: nat)
    ensures n <= |s|
    ensures forall i :: 0 <= i < n ==> At(due, s[i]) <= d
    ensures n < |s| ==> At(due, s[n]) > d
  {
    if s == [] || At(due, s[0]) > d then 0 else
      var n := Upper(due, s[1..], d);
      assert forall i :: 0 < i < n + 1 ==> s[i] == s[1..][i - 1];
      n + 1
  }

  lemma {:induction false} InsertAtUpper(due: seq<int>, s: seq<nat>, x: nat)
    ensures Insert(due, s, x) == InsertAt(s, Upper(due, s, At(due, x)), x)
    decreases |s|
  {
    if s == [] || At(due, s[0]) > At(due, x) {
    } else {
      InsertAtUpper(due, s[1..], x);
      var n := Upper(due, s[1..], At(due, x));
      assert [s[0]] + InsertAt(s[1..], n, x) == InsertAt(s, n + 1, x);
    }
  }

  lemma InsertSorted(due: seq<int>, s: seq<nat>, x: nat)
    requires Sorted(due, s)
    ensures Sorted(due, Insert(due, s, x))
    ensures |Insert(due, s, x)| == |s| + 1
    ensures forall y :: y in Insert(due, s, x) <==> y in s || y == x
    ensures Distinct(s) && x !in s ==> Distinct(Insert(due, s, x))
  {
    hide Insert;
    hide Upper;
    var n := Upper(due, s, At(due, x));
    InsertAtUpper(due, s, x);
    InsertFacts(s, n, x);
    var r := InsertAt(s, n, x);
    forall i, j | 0 <= i < j < |r| ensures At(due, r[i]) <= At(due, r[j]) {
      assert r[i] == (if i < n then s[i] else if i == n then x else s[i - 1]);
      assert r[j] == (if j < n then s[j] else if j == n then x else s[j - 1]);
      if i == n {
        assert At(due, s[n]) <= At(due, s[j - 1]);
      }
    }
  }

  /** In a sorted list, `Upper` is where everything before is due no later and nothing after is. */
  lemma UpperIs(due: seq<int>, s: seq<nat>, d: int, n: nat)
    requires Sorted(due, s) && n <= |s|
    requires n > 0 ==> At(due, s[n - 1]) <= d
    requires n < |s| ==> At(due, s[n]) > d
    ensures Upper(due, s, d) == n
  {
    assert forall i :: 0 <= i < n ==> At(due, s[i]) <= d;
  }

  // ---- rows --------------------------------------------------------------------------

  /** The timers of `s` that reach up to height `m`. */
  function Keep(height: seq<int>, s: seq<nat>, m: int): seq<nat> {
    if s == [] then [] else
      (if At(height, s[0]) >= m then [s[0]] else []) + Keep(height, s[1..], m)
  }

  lemma {:induction false} KeepMembers(height: seq<int>, s: seq<nat>, m: int)
    ensures forall x :: x in Keep(height, s, m) <==> x in s && At(height, x) >= m
    decreases |s|
  {
    if s != [] {
      KeepMembers(height, s[1..], m);
      assert forall x :: x in s <==> x == s[0] || x in s[1..];
    }
  }

  lemma {:induction false} KeepSorted(height: seq<int>, due: seq<int>, s: seq<nat>, m: int)
    requires Sorted(due, s)
    ensures Sorted(due, Keep(height, s, m))
    decreases |s|
  {
    if s != [] {
      assert Sorted(due, s[1..]);
      KeepSorted(height, due, s[1..], m);
      KeepMembers(height, s[1..], m);
      var r, k := Keep(height, s[1..], m), Keep(height, s, m);
      forall i, j | 0 <= i < j < |k| ensures At(due, k[i]) <= At(due, k[j]) {
        if At(height, s[0]) >= m && i == 0 {
          assert k[j] in r;
          var q :| 0 <= q < |s[1..]| && s[1..][q] == k[j];
          assert At(due, s[0]) <= At(due, s[q + 1]);
        } else {
          var e := if At(height, s[0]) >= m then 1 else 0;
          assert k[i] == r[i - e] && k[j] == r[j - e];
        }
      }
    }
  }

  /** Insertion below shows above exactly if the new timer reaches up. */
  lemma {:induction false} KeepInsert(height: seq<int>, due: seq<int>, s: seq<nat>, m: int, x: nat)
    requires Sorted(due, s)
    ensures Keep(height, Insert(due, s, x), m) ==
      if At(height, x) >= m then Insert(due, Keep(height, s, m), x) else Keep(height, s, m)
    decreases |s|
  {
    if s == [] {
      assert Insert(due, s, x) == [x];
    } else if At(due, s[0]) > At(due, x) {
      KeepSorted(height, due, s, m);
      KeepMembers(height, s, m);
      var k := Keep(height, s, m);
      assert ([x] + s)[1..] == s;
      if k != [] {
        assert k[0] in k;
        var q :| 0 <= q < |s| && s[q] == k[0];
        assert At(due, s[0]) <= At(due, s[q]);
      }
    } else {
      assert Sorted(due, s[1..]);
      KeepInsert(height, due, s[1..], m, x);
      KeepInsertStep(height, due, s[0], s[1..], m, x);
      assert s == [s[0]] + s[1..];
    }
  }

  lemma KeepInsertStep(height: seq<int>, due: seq<int>, h: nat, s: seq<nat>, m: int, x: nat)
    requires At(due, h) <= At(due, x)
    requires Keep(height, Insert(due, s, x), m) ==
      if At(height, x) >= m then Insert(due, Keep(height, s, m), x) else Keep(height, s, m)
    ensures Keep(height, Insert(due, [h] + s, x), m) ==
      if At(height, x) >= m then Insert(due, Keep(height, [h] + s, m), x) else Keep(height, [h] + s, m)
  {
    hide Keep, Insert;
    var i, k := Insert(due, s, x), Keep(height, s, m);
    assert ([h] + s)[1..] == s && ([h] + i)[1..] == i;
    InsertHead(due, h, s, x);
    InsertHead(due, h, k, x);
    KeepHead(height, [h] + i, m);
    KeepHead(height, [h] + s, m);
    assert [] + k == k && [] + Insert(due, k, x) == Insert(due, k, x) && [] + Keep(height, i, m) == Keep(height, i, m);
  }

  lemma InsertHead(due: seq<int>, h: nat, s: seq<nat>, x: nat)
    requires At(due, h) <= At(due, x)
    ensures Insert(due, [h] + s, x) == [h] + Insert(due, s, x)
  {
    assert ([h] + s)[1..] == s;
  }

  lemma {:induction false} KeepConcat(height: seq<int>, a: seq<nat>, b: seq<nat>, m: int)
    ensures Keep(height, a + b, m) == Keep(height, a, m) + Keep(height, b, m)
    decreases |a|
  {
    if a == [] {
      assert a + b == b;
    } else {
      hide Keep;
      KeepConcat(height, a[1..], b, m);
      assert (a + b)[1..] == a[1..] + b && (a + b)[0] == a[0];
      KeepHead(height, a + b, m);
      KeepHead(height, a, m);
    }
  }

  lemma KeepHead(height: seq<int>, s: seq<nat>, m: int)
    requires s != []
    ensures Keep(height, s, m) == (if At(height, s[0]) >= m then [s[0]] else []) + Keep(height, s[1..], m)
  {
  }

  /** Unlinking a timer from the row below and from the row above it. */
  lemma KeepRemove(height: seq<int>, s: seq<nat>, m: int, x: nat)
    requires Distinct(s)
    ensures Keep(height, Remove(s, x), m) == Remove(Keep(height, s, m), x)
  {
    KeepMembers(height, s, m);
    if x in s {
      var i := IndexOf(s, x);
      var a, b := s[..i], s[i + 1..];
      assert s == a + [x] + b;
      assert x !in a && x !in b;
      KeepAround(height, a, x, b, m);
    }
  }

  lemma KeepAround(height: seq<int>, a: seq<nat>, x: nat, b: seq<nat>, m: int)
    requires x !in a && x !in b
    ensures Remove(Keep(height, a + [x] + b, m), x) == Keep(height, a + b, m)
  {
    var ka, kb := Keep(height, a, m), Keep(height, b, m);
    KeepConcat(height, a + [x], b, m);
    KeepConcat(height, a, [x], m);
    KeepConcat(height, a, b, m);
    KeepMembers(height, a, m);
    KeepMembers(height, b, m);
    assert Keep(height, [x], m) == if At(height, x) >= m then [x] else [] by { assert [x][1..] == []; }
    hide Keep;
    if At(height, x) >= m {
      RemoveMiddle(ka, x, kb);
    } else {
      assert ka + [] + kb == ka + kb;
    }
  }

  /** Only the heights of the timers in the row matter. */
  lemma {:induction false} KeepFrame(height: seq<int>, height': seq<int>, s: seq<nat>, m: int)
    requires forall x :: x in s ==> At(height, x) == At(height', x)
    ensures Keep(height, s, m) == Keep(height', s, m)
    decreases |s|
  {
    if s != [] {
      assert s[0] in s;
      KeepFrame(height, height', s[1..], m);
    }
  }
}
