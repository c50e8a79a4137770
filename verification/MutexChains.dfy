/**
What the local priority equations mean for whole chains of waiting threads.
*/
module MutexChains {
  import opened Lists
  import opened MutexState

  /** `a` is suspended on a mutex that `b` owns. */
  ghost predicate WaitsFor(ts: Threads, ms: Mutexes, a: nat, b: nat) {
    && a < |ts| && b < |ts| && ts[a].suspended && ts[a].pending.Some?
    && ts[a].pending.value < |ms| && ms[ts[a].pending.value].owner == Some(b)
  }

  /** Each thread of `c` waits for the next. */
  ghost predicate Chain(ts: Threads, ms: Mutexes, c: seq<nat>) {
    && c != []
    && (forall i :: 0 <= i < |c| ==> c[i] < |ts|)
    && (forall i :: 0 <= i < |c| - 1 ==> WaitsFor(ts, ms, c[i], c[i + 1]))
  }

  ghost predicate ChainTo(ts: Threads, ms: Mutexes, c: seq<nat>, t: nat) {
    Chain(ts, ms, c) && c[|c| - 1] == t
  }

  /** No deadlock: no chain meets a thread twice. */
  ghost predicate Acyclic(ts: Threads, ms: Mutexes) {
    forall c: seq<nat> :: Chain(ts, ms, c) ==> Distinct(c)
  }

  /** No thread is less urgent than one that waits for it through any chain. */
  ghost predicate NoInversion(ts: Threads, ms: Mutexes) {
    forall c: seq<nat> :: Chain(ts, ms, c) ==> ts[c[|c| - 1]].cur <= ts[c[0]].cur <= ts[c[0]].init
  }

  /** Every current priority is the minimum of the initial priorities of the thread itself
      and of all threads that wait for it through any chain. */
  ghost predicate Inherits(ts: Threads, ms: Mutexes) {
    forall t :: 0 <= t < |ts| ==> InheritsAt(ts, ms, t)
  }

  ghost predicate InheritsAt(ts: Threads, ms: Mutexes, t: nat)
    requires t < |ts|
  {
    && (forall c: seq<nat> :: ChainTo(ts, ms, c, t) ==> ts[t].cur <= ts[c[0]].init)
    && (exists c: seq<nat> :: ChainTo(ts, ms, c, t) && ts[t].cur == ts[c[0]].init)
  }

  lemma {:induction false} ChainUrgency(ts: Threads, ms: Mutexes, c: seq<nat>)
    requires Inv(ts, ms) && Chain(ts, ms, c)
    ensures ts[c[|c| - 1]].cur <= ts[c[0]].cur <= ts[c[0]].init
    decreases |c|
  {
    assert Covers(ts, ms, c[0], ts[c[0]].cur);
    if |c| > 1 {
      assert WaitsFor(ts, ms, c[0], c[1]);
      var m := ts[c[0]].pending.value;
      assert ThreadOk(ts, ms, c[0]) && QueueOk(ts, ms[m]);
      assert Covers(ts, ms, c[1], ts[c[1]].cur);
      forall i | 0 <= i < |c[1..]| - 1 ensures WaitsFor(ts, ms, c[1..][i], c[1..][i + 1]) {
        assert WaitsFor(ts, ms, c[i + 1], c[i + 2]);
      }
      ChainUrgency(ts, ms, c[1..]);
    }
  }

  lemma UrgencyAlongChains(ts: Threads, ms: Mutexes)
    requires Inv(ts, ms)
    ensures NoInversion(ts, ms)
  {
    forall c: seq<nat> | Chain(ts, ms, c) ensures ts[c[|c| - 1]].cur <= ts[c[0]].cur <= ts[c[0]].init {
      ChainUrgency(ts, ms, c);
    }
  }

  /** A thread that runs above its own priority has a waiter to thank for it. */
  lemma Donor(ts: Threads, ms: Mutexes, t: nat) returns (w: nat)
    requires Inv(ts, ms) && Exact(ts, ms) && t < |ts| && ts[t].cur != ts[t].init
    ensures WaitsFor(ts, ms, w, t) && ts[w].cur == ts[t].cur
  {
    assert Attained(ts, ms, t, ts[t].cur) && Covers(ts, ms, t, ts[t].cur) && ThreadOk(ts, ms, t);
    var m: nat :| Donates(ms, m, t, ts[t].cur);
    assert CacheExact(ts, ms[m]);
    w := ms[m].waiters[0];
    assert w in ms[m].waiters;
  }

  /** Going from donor to donor ends, since an acyclic chain has no more threads than there are. */
  lemma {:induction false} Source(ts: Threads, ms: Mutexes, c: seq<nat>, t: nat) returns (c': seq<nat>)
    requires Inv(ts, ms) && Exact(ts, ms) && Acyclic(ts, ms)
    requires ChainTo(ts, ms, c, t) && ts[c[0]].cur == ts[t].cur
    ensures ChainTo(ts, ms, c', t) && ts[t].cur == ts[c'[0]].init
    decreases |ts| - |c|
  {
    if ts[c[0]].cur == ts[c[0]].init {
      c' := c;
    } else {
      var w := Donor(ts, ms, c[0]);
      var d := [w] + c;
      forall i | 0 <= i < |d| - 1 ensures WaitsFor(ts, ms, d[i], d[i + 1]) {
        if i > 0 {
          assert WaitsFor(ts, ms, c[i - 1], c[i]);
        }
      }
      assert Chain(ts, ms, d);
      Pigeonhole(d, |ts|);
      c' := Source(ts, ms, d, t);
    }
  }

  /** The local equations, on acyclic waits, are the global one. */
  lemma ExactIsInherited(ts: Threads, ms: Mutexes)
    requires Inv(ts, ms) && Exact(ts, ms) && Acyclic(ts, ms)
    ensures Inherits(ts, ms)
  {
    hide Inv, Exact, Acyclic, InheritsAt;
    forall t | 0 <= t < |ts| ensures InheritsAt(ts, ms, t) {
      ExactIsInheritedAt(ts, ms, t);
    }
  }

  lemma ExactIsInheritedAt(ts: Threads, ms: Mutexes, t: nat)
    requires Inv(ts, ms) && Exact(ts, ms) && Acyclic(ts, ms) && t < |ts|
    ensures InheritsAt(ts, ms, t)
  {
    hide Inv, Exact, Acyclic;
    UrgencyAlongChains(ts, ms);
    var c := Source(ts, ms, [t], t);
    assert ChainTo(ts, ms, c, t) && ts[t].cur == ts[c[0]].init;
  }
}
