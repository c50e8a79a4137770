/**
The steps of the mutex protocol as functions on threads and mutexes, and what each step
keeps of the priority invariants.
*/
module MutexSteps {
  import opened Lists
  import opened MutexState
  import opened SuspendList

  // ---- blocking in a take ------------------------------------------------------

  /** `t` suspended in a take of `m`. */
  function Suspended(ts: Threads, t: nat, m: nat, timed: bool): (ts': Threads)
    requires t < |ts|
  {
    ts[t := ts[t].(suspended := true, pending := Some(m), call := InTake(m), error := EOK, timer := timed)]
  }

  /** `t` put in the suspend list at `n`, and the cached priority lowered if need be. */
  function Queued(ts: Threads, ms: Mutexes, t: nat, m: nat, n: nat): (ms': Mutexes)
    requires t < |ts| && m < |ms| && n <= |ms[m].waiters|
  {
    var mu := ms[m];
    ms[m := mu.(waiters := InsertAt(mu.waiters, n, t),
                priority := if ts[t].cur < mu.priority then ts[t].cur else mu.priority)]
  }

  ghost predicate RightPlace(ts: Threads, w: seq<nat>, t: nat, n: nat)
    requires t < |ts|
  {
    Place(w, Priorities(ts), Prio, t, n)
  }

  ghost predicate CanBlock(ts: Threads, ms: Mutexes, t: nat, m: nat, n: nat) {
    && t < |ts| && m < |ms| && Inv(ts, ms)
    && !ts[t].suspended && ts[t].call == Idle
    && ms[m].owner.Some? && ms[m].owner != Some(t)
    && RightPlace(ts, ms[m].waiters, t, n)
  }

  lemma BlockedWaiters(ts: Threads, ms: Mutexes, t: nat, m: nat, n: nat, timed: bool)
    requires CanBlock(ts, ms, t, m, n)
    ensures WaitersOk(Suspended(ts, t, m, timed), Queued(ts, ms, t, m, n))
    ensures forall u :: u in Queued(ts, ms, t, m, n)[m].waiters <==> u in ms[m].waiters || u == t
  {
    assert t !in ms[m].waiters;
    InsertFacts(ms[m].waiters, n, t);
  }

  lemma BlockedThread(ts: Threads, ms: Mutexes, t: nat, m: nat, n: nat, timed: bool, u: nat)
    requires CanBlock(ts, ms, t, m, n) && u < |ts|
    requires forall u :: u in Queued(ts, ms, t, m, n)[m].waiters <==> u in ms[m].waiters || u == t
    ensures ThreadOk(Suspended(ts, t, m, timed), Queued(ts, ms, t, m, n), u)
  {
    hide QueueOk, InsertAt, Distinct;
    var ts', ms' := Suspended(ts, t, m, timed), Queued(ts, ms, t, m, n);
    assert ThreadOk(ts, ms, u);
    assert forall k :: 0 <= k < |ms| ==> ms'[k].owner == ms[k].owner;
  }

  lemma BlockedStruct(ts: Threads, ms: Mutexes, t: nat, m: nat, n: nat, timed: bool)
    requires CanBlock(ts, ms, t, m, n)
    ensures Struct(Suspended(ts, t, m, timed), Queued(ts, ms, t, m, n))
  {
    var ts', ms' := Suspended(ts, t, m, timed), Queued(ts, ms, t, m, n);
    BlockedWaiters(ts, ms, t, m, n, timed);
    forall u | 0 <= u < |ts'| ensures ThreadOk(ts', ms', u) {
      BlockedThread(ts, ms, t, m, n, timed, u);
    }
  }

  ghost predicate SameCur(ts: Threads, ts': Threads) {
    |ts| == |ts'| && forall t :: 0 <= t < |ts| ==> ts'[t].cur == ts[t].cur
  }

  lemma SameCurQueue(ts: Threads, ts': Threads, mu: Mutex)
    requires SameCur(ts, ts')
    ensures QueueOk(ts, mu) <==> QueueOk(ts', mu)
    ensures CacheExact(ts, mu) <==> CacheExact(ts', mu)
  {
  }

  lemma BlockedQueues(ts: Threads, ms: Mutexes, t: nat, m: nat, n: nat, timed: bool)
    requires CanBlock(ts, ms, t, m, n)
    ensures QueuesOk(Suspended(ts, t, m, timed), Queued(ts, ms, t, m, n))
    ensures (forall k :: 0 <= k < |ms| ==> CacheExact(ts, ms[k])) ==>
      forall k :: 0 <= k < |ms| ==> CacheExact(Suspended(ts, t, m, timed), Queued(ts, ms, t, m, n)[k])
  {
    hide QueueOk, CacheExact, Inv, Suspended;
    var ts', ms' := Suspended(ts, t, m, timed), Queued(ts, ms, t, m, n);
    forall k | 0 <= k < |ms'|
      ensures QueueOk(ts', ms'[k])
      ensures CacheExact(ts, ms[k]) ==> CacheExact(ts', ms'[k])
    {
      BlockedQueue(ts, ms, t, m, n, timed, k);
    }
  }

  lemma BlockedQueue(ts: Threads, ms: Mutexes, t: nat, m: nat, n: nat, timed: bool, k: nat)
    requires CanBlock(ts, ms, t, m, n) && k < |ms|
    ensures |Queued(ts, ms, t, m, n)| == |ms|
    ensures QueueOk(Suspended(ts, t, m, timed), Queued(ts, ms, t, m, n)[k])
    ensures CacheExact(ts, ms[k]) ==> CacheExact(Suspended(ts, t, m, timed), Queued(ts, ms, t, m, n)[k])
  {
    hide QueueOk, CacheExact, Inv;
    var ts', ms' := Suspended(ts, t, m, timed), Queued(ts, ms, t, m, n);
    BlockerKnown(ts, ms, t, k);
    if k == m {
      QueuedOk(ts, ms[m], t, n);
    }
    SameCurQueue(ts, ts', ms'[k]);
  }

  lemma BlockerKnown(ts: Threads, ms: Mutexes, t: nat, k: nat)
    requires Inv(ts, ms) && t < |ts| && k < |ms|
    ensures ts[t].cur <= NO_PRIORITY && ms[k].priority <= NO_PRIORITY && QueueOk(ts, ms[k])
  {
    assert Covers(ts, ms, t, ts[t].cur) && ThreadOk(ts, ms, t);
  }

  lemma QueuedOk(ts: Threads, mu: Mutex, t: nat, n: nat)
    requires t < |ts| && RightPlace(ts, mu.waiters, t, n) && QueueOk(ts, mu)
    requires ts[t].cur <= NO_PRIORITY && mu.priority <= NO_PRIORITY
    ensures var mu' := mu.(waiters := InsertAt(mu.waiters, n, t),
                           priority := if ts[t].cur < mu.priority then ts[t].cur else mu.priority);
            QueueOk(ts, mu') && (CacheExact(ts, mu) ==> CacheExact(ts, mu'))
  {
    InsertFacts(mu.waiters, n, t);
    InsertedSorted(ts, mu.waiters, n, t);
  }

  lemma BlockedCovered(ts: Threads, ms: Mutexes, t: nat, m: nat, n: nat, timed: bool)
    requires CanBlock(ts, ms, t, m, n)
    ensures CoveredBut(Suspended(ts, t, m, timed), Queued(ts, ms, t, m, n), ms[m].owner.value)
    ensures ts[ms[m].owner.value].cur <= Queued(ts, ms, t, m, n)[m].priority ==>
      AllCovered(Suspended(ts, t, m, timed), Queued(ts, ms, t, m, n))
    ensures ts[t].cur < ts[ms[m].owner.value].cur ==>
      Covers(Suspended(ts, t, m, timed), Queued(ts, ms, t, m, n), ms[m].owner.value, ts[t].cur)
  {
    var ts', ms' := Suspended(ts, t, m, timed), Queued(ts, ms, t, m, n);
    forall u | 0 <= u < |ts'|
      ensures (u != ms[m].owner.value || ts[u].cur <= ms'[m].priority) ==> Covers(ts', ms', u, ts'[u].cur)
    {
      assert Covers(ts, ms, u, ts[u].cur);
    }
    assert Covers(ts, ms, ms[m].owner.value, ts[ms[m].owner.value].cur);
  }

  lemma BlockedShape(ts: Threads, ms: Mutexes, t: nat, m: nat, n: nat, timed: bool)
    requires CanBlock(ts, ms, t, m, n)
    ensures SameShape(Suspended(ts, t, m, timed), ms[m := ms[m].(waiters := ms[m].waiters + [t])],
                      Suspended(ts, t, m, timed), Queued(ts, ms, t, m, n))
  {
    assert ThreadOk(ts, ms, t);
    InsertFacts(ms[m].waiters, n, t);
    assert SameWaiters(ms[m].waiters + [t], InsertAt(ms[m].waiters, n, t));
  }

  lemma BlockedExact(ts: Threads, ms: Mutexes, t: nat, m: nat, n: nat, timed: bool)
    requires CanBlock(ts, ms, t, m, n) && Exact(ts, ms)
    ensures var ts', ms', o := Suspended(ts, t, m, timed), Queued(ts, ms, t, m, n), ms[m].owner.value;
      if ts[o].cur <= ms'[m].priority then Exact(ts', ms')
      else ts[t].cur == ms'[m].priority && ExactFor(ts', ms', o, ts[t].cur)
  {
    var ts', ms', o := Suspended(ts, t, m, timed), Queued(ts, ms, t, m, n), ms[m].owner.value;
    BlockedQueues(ts, ms, t, m, n, timed);
    assert Covers(ts, ms, o, ts[o].cur);
    forall u | 0 <= u < |ts'| && (u != o || ts[o].cur <= ms'[m].priority) ensures Attained(ts', ms', u, ts'[u].cur) {
      assert Attained(ts, ms, u, ts[u].cur);
      if ts[u].cur != ts[u].init {
        var k: nat :| Donates(ms, k, u, ts[u].cur);
        assert Donates(ms', k, u, ts[u].cur);
      }
    }
    if ts[o].cur > ms'[m].priority {
      assert Donates(ms', m, o, ts[t].cur);
    }
  }

  lemma WaitersBelow(ts: Threads, ms: Mutexes, m: nat)
    requires Inv(ts, ms) && m < |ms|
    ensures forall i :: 0 <= i < |ms[m].waiters| ==> ms[m].waiters[i] < |ts|
    ensures ms[m].owner.Some? ==> ms[m].owner.value < |ts|
  {
    assert forall i :: 0 <= i < |ms[m].waiters| ==> ms[m].waiters[i] in ms[m].waiters;
  }

  /** The state `UpdatePriority` asks for before `t` gets the priority `p`. */
  ghost predicate Due(ts: Threads, ms: Mutexes, t: nat, p: nat) {
    && t < |ts| && Struct(ts, ms) && QueuesOk(ts, ms)
    && CoveredBut(ts, ms, t) && ts[t].cur <= ts[t].init && Covers(ts, ms, t, p)
  }

  /** If the owner of `m` is not itself suspended, `t` lends it its priority and nobody
      else's changes, and `t` stands in the list of `m` behind its equals. */
  ghost predicate OneDonation(ts: Threads, ms: Mutexes, t: nat, m: nat, ts': Threads, ms': Mutexes)
    requires t < |ts| && m < |ms|
  {
    ms[m].owner.Some? && ms[m].owner.value < |ts| && !ts[ms[m].owner.value].suspended ==>
      var o := ms[m].owner.value;
      && |ts'| == |ts|
      && (exists n :: RightPlace(ts, ms[m].waiters, t, n) && ms' == Queued(ts, ms, t, m, n))
      && (forall u :: 0 <= u < |ts| && u != o ==> ts'[u].cur == ts[u].cur)
      && ts'[o].cur == if ts[t].cur < ms[m].priority && ts[t].cur < ts[o].cur then ts[t].cur else ts[o].cur
  }

  /** `t` has been queued on `m`, and nothing but priorities and the order of waiters has changed. */
  ghost predicate BlockEffect(ts: Threads, ms: Mutexes, t: nat, m: nat, timed: bool, ts': Threads, ms': Mutexes)
    requires t < |ts| && m < |ms|
  {
    && SameShape(Suspended(ts, t, m, timed), ms[m := ms[m].(waiters := ms[m].waiters + [t])], ts', ms')
    && OneDonation(ts, ms, t, m, ts', ms')
  }

  /** The owner is due for an update exactly when the code calls for one. */
  lemma BlockedOutcome(ts: Threads, ms: Mutexes, t: nat, m: nat, n: nat, timed: bool)
    requires CanBlock(ts, ms, t, m, n) && ms[m].owner.value < |ts|
    ensures var ts', ms', o := Suspended(ts, t, m, timed), Queued(ts, ms, t, m, n), ms[m].owner.value;
      if ts[t].cur < ms[m].priority && ts[t].cur < ts[o].cur
      then Due(ts', ms', o, ts[t].cur) && (Exact(ts, ms) ==> ExactFor(ts', ms', o, ts[t].cur))
      else Inv(ts', ms') && (Exact(ts, ms) ==> Exact(ts', ms'))
  {
    BlockedStruct(ts, ms, t, m, n, timed);
    BlockedQueues(ts, ms, t, m, n, timed);
    BlockedCovered(ts, ms, t, m, n, timed);
    var o := ms[m].owner.value;
    assert Covers(ts, ms, o, ts[o].cur);
    if Exact(ts, ms) {
      BlockedExact(ts, ms, t, m, n, timed);
    }
  }

  // ---- release -------------------------------------------------------------------

  /** `rest` is the list `s` without `x`. */
  ghost predicate Without(s: seq<nat>, x: nat, rest: seq<nat>) {
    Distinct(rest) && forall y :: y in rest <==> y in s && y != x
  }

  /** The owner after its last release: the mutexes `rest`, priority `p`. */
  function Relieved(ts: Threads, t: nat, rest: seq<nat>, p: nat): (ts': Threads)
    requires t < |ts|
  {
    ts[t := ts[t].(taken := rest, cur := p)]
  }

  /** The first waiter of `m`, if any, made ready and given the mutex. */
  function Granted(ts: Threads, ms: Mutexes, m: nat): (ts': Threads)
    requires m < |ms| && (ms[m].waiters != [] ==> ms[m].waiters[0] < |ts|)
  {
    if ms[m].waiters == [] then ts else
      var w := ms[m].waiters[0];
      ts[w := ts[w].(suspended := false, timer := false, pending := None, taken := [m] + ts[w].taken)]
  }

  function HandedOver(ts: Threads, ms: Mutexes, m: nat): (ms': Mutexes)
    requires m < |ms| && forall w :: w in ms[m].waiters ==> w < |ts|
  {
    var w := ms[m].waiters;
    if w == [] then ms[m := Mutex(None, 0, NO_PRIORITY, [])]
    else
      ms[m := Mutex(Some(w[0]), 1, if |w| > 1 then assert w[1] in w; ts[w[1]].cur else NO_PRIORITY, w[1..])]
  }

  /** `p` is the owner's priority once `m` is gone from its list. */
  ghost predicate RightPriority(ts: Threads, ms: Mutexes, t: nat, m: nat, p: nat)
    requires t < |ts| && m < |ms|
  {
    if ts[t].cur == ms[m].priority then
      && p <= ts[t].init
      && (forall k :: 0 <= k < |ms| && k != m && ms[k].owner == Some(t) ==> p <= ms[k].priority)
      && (p == ts[t].init || exists k: nat :: k != m && Donates(ms, k, t, p))
    else p == ts[t].cur
  }

  ghost predicate CanRelease(ts: Threads, ms: Mutexes, t: nat, m: nat, rest: seq<nat>, p: nat) {
    && t < |ts| && m < |ms| && Inv(ts, ms)
    && !ts[t].suspended && ts[t].call == Idle && ms[m].owner == Some(t)
    && RightPriority(ts, ms, t, m, p) && Without(ts[t].taken, m, rest)
  }

  function Released(ts: Threads, ms: Mutexes, t: nat, m: nat, rest: seq<nat>, p: nat): (ts': Threads)
    requires t < |ts| && m < |ms| && (ms[m].waiters != [] ==> ms[m].waiters[0] < |ts|)
  {
    Granted(Relieved(ts, t, rest, p), ms, m)
  }

  /** The minimum over the remaining list is the owner's priority without `m`. */
  lemma RestPriority(ts: Threads, ms: Mutexes, t: nat, m: nat, rest: seq<nat>, p: nat)
    requires t < |ts| && m < |ms| && Struct(ts, ms) && Without(ts[t].taken, m, rest)
    requires ts[t].cur == ms[m].priority && p <= ts[t].init
    requires forall k :: k in rest ==> k < |ms| && p <= ms[k].priority
    requires p == ts[t].init || exists k :: k in rest && p == ms[k].priority
    ensures RightPriority(ts, ms, t, m, p)
  {
    assert ThreadOk(ts, ms, t);
    if p != ts[t].init {
      var k :| k in rest && p == ms[k].priority;
      assert k != m && Donates(ms, k, t, p);
    }
  }

  /** All that a last release does: the owner loses the mutex and the priority it lent, and
      the first waiter gets the mutex. */
  ghost predicate ReleaseEffect(ts: Threads, ms: Mutexes, t: nat, m: nat, ts': Threads, ms': Mutexes)
    requires t < |ts| && m < |ms|
  {
    && |ts'| == |ts|
    && (forall w :: w in ms[m].waiters ==> w < |ts|)
    && (ms[m].waiters != [] ==> ms[m].waiters[0] < |ts|)
    && RightPriority(ts, ms, t, m, ts'[t].cur)
    && ts' == Released(ts, ms, t, m, Remove(ts[t].taken, m), ts'[t].cur)
    && ms' == HandedOver(ts, ms, m)
  }

  lemma ReleasedRest(ts: Threads, ms: Mutexes, t: nat, m: nat, rest: seq<nat>)
    requires t < |ts| && m < |ms| && Struct(ts, ms) && rest == Remove(ts[t].taken, m)
    ensures Without(ts[t].taken, m, rest) && forall k :: k in rest ==> k < |ms|
  {
    assert ThreadOk(ts, ms, t);
    RemoveFacts(ts[t].taken, m);
  }

  lemma HandedOverSame(ts: Threads, ms: Mutexes, t: nat, m: nat, rest: seq<nat>, p: nat)
    requires t < |ts| && m < |ms| && Struct(ts, ms) && ms[m].owner == Some(t)
    requires forall w :: w in ms[m].waiters ==> w < |ts|
    ensures HandedOver(Relieved(ts, t, rest, p), ms, m) == HandedOver(ts, ms, m)
  {
    var w := ms[m].waiters;
    if |w| > 1 {
      assert w[1] in w;
      assert ThreadOk(ts, ms, w[1]);
    }
  }

  lemma ReleasedHead(ts: Threads, ms: Mutexes, t: nat, m: nat)
    requires t < |ts| && m < |ms| && Struct(ts, ms) && ms[m].owner == Some(t)
    ensures forall w :: w in ms[m].waiters ==> w < |ts|
    ensures ms[m].waiters != [] ==>
      var w := ms[m].waiters[0];
      w < |ts| && w != t && ts[w].suspended && ts[w].pending == Some(m) && ts[w].call == InTake(m) && m !in ts[w].taken
    ensures ms[m].waiters != [] ==>
      forall u :: u in ms[m].waiters[1..] <==> u in ms[m].waiters && u != ms[m].waiters[0]
  {
    var w := ms[m].waiters;
    if w != [] {
      assert w[0] in w;
      assert ThreadOk(ts, ms, w[0]);
      assert w == [w[0]] + w[1..];
    }
  }

  lemma ReleasedWaiters(ts: Threads, ms: Mutexes, t: nat, m: nat, rest: seq<nat>, p: nat)
    requires t < |ts| && m < |ms| && WaitersOk(ts, ms) && !ts[t].suspended
    requires ms[m].waiters != [] ==> ms[m].waiters[0] < |ts|
    requires forall w :: w in ms[m].waiters ==> w < |ts|
    ensures WaitersOk(Released(ts, ms, t, m, rest, p), HandedOver(ts, ms, m))
  {
    var ts', ms' := Released(ts, ms, t, m, rest, p), HandedOver(ts, ms, m);
    var w := ms[m].waiters;
    forall k | 0 <= k < |ms'|
      ensures Distinct(ms'[k].waiters)
      ensures forall u :: u in ms'[k].waiters ==>
        u < |ts'| && ts'[u].suspended && ts'[u].pending == Some(k) && ts'[u].call == InTake(k)
    {
      if w != [] {
        assert w[0] in w;
      }
      if k == m && w != [] {
        assert forall u :: u in w[1..] ==> u in w && u != w[0];
      }
      forall u | u in ms'[k].waiters
        ensures u < |ts'| && ts'[u].suspended && ts'[u].pending == Some(k) && ts'[u].call == InTake(k)
      {
        assert u in ms[k].waiters && u != t;
      }
    }
  }

  lemma ReleasedOwners(ts: Threads, ms: Mutexes, t: nat, m: nat, rest: seq<nat>, p: nat)
    requires CanRelease(ts, ms, t, m, rest, p) && (ms[m].waiters != [] ==> ms[m].waiters[0] < |ts|)
    requires forall w :: w in ms[m].waiters ==> w < |ts|
    ensures OwnersOk(Released(ts, ms, t, m, rest, p), HandedOver(ts, ms, m))
  {
    ReleasedHead(ts, ms, t, m);
    var w := ms[m].waiters;
    if |w| > 1 {
      assert w[1] in w;
      assert Covers(ts, ms, w[1], ts[w[1]].cur) && ThreadOk(ts, ms, w[1]);
    }
  }

  lemma ReleasedNext(ts: Threads, ms: Mutexes, t: nat, m: nat, rest: seq<nat>, p: nat)
    requires t < |ts| && m < |ms| && ms[m].waiters != [] && (forall w :: w in ms[m].waiters ==> w < |ts|)
    requires ms[m].waiters[0] < |ts| && ThreadOk(ts, ms, ms[m].waiters[0])
    requires var w := ms[m].waiters[0]; w != t && ts[w].suspended && ts[w].call == InTake(m) && m !in ts[w].taken
    ensures ThreadOk(Released(ts, ms, t, m, rest, p), HandedOver(ts, ms, m), ms[m].waiters[0])
  {
    var u := ms[m].waiters[0];
    var ts', ms' := Released(ts, ms, t, m, rest, p), HandedOver(ts, ms, m);
    assert ts'[u].taken == [m] + ts[u].taken;
    assert forall k :: k in ts[u].taken ==> k != m && ms'[k] == ms[k];
  }

  lemma ReleasedOther(ts: Threads, ms: Mutexes, t: nat, m: nat, rest: seq<nat>, p: nat, u: nat)
    requires CanRelease(ts, ms, t, m, rest, p) && (ms[m].waiters != [] ==> ms[m].waiters[0] < |ts|)
    requires forall w :: w in ms[m].waiters ==> w < |ts|
    requires u < |ts| && (ms[m].waiters != [] ==> u != ms[m].waiters[0])
    ensures ThreadOk(Released(ts, ms, t, m, rest, p), HandedOver(ts, ms, m), u)
  {
    ReleasedHead(ts, ms, t, m);
    var ts', ms' := Released(ts, ms, t, m, rest, p), HandedOver(ts, ms, m);
    assert ThreadOk(ts, ms, u) && ThreadOk(ts, ms, t);
    assert forall k :: 0 <= k < |ms| && k != m ==> ms'[k] == ms[k];
    if u == t {
      assert ts'[u] == ts[u].(taken := rest, cur := p);
    } else {
      assert ts'[u] == ts[u] && m !in ts[u].taken;
      OtherThread(ts, ms, ts', ms', m, u);
    }
  }

  /** A thread that neither owns `m` nor is granted it. */
  lemma OtherThread(ts: Threads, ms: Mutexes, ts': Threads, ms': Mutexes, m: nat, u: nat)
    requires u < |ts| == |ts'| && m < |ms| == |ms'| && ThreadOk(ts, ms, u) && ts'[u] == ts[u]
    requires ms[m].owner != Some(u) && ms'[m].owner != Some(u)
    requires u in ms[m].waiters ==> u in ms'[m].waiters
    requires forall k :: 0 <= k < |ms| && k != m ==> ms'[k] == ms[k]
    ensures ThreadOk(ts', ms', u)
  {
  }

  lemma ReleasedThread(ts: Threads, ms: Mutexes, t: nat, m: nat, rest: seq<nat>, p: nat, u: nat)
    requires CanRelease(ts, ms, t, m, rest, p) && (ms[m].waiters != [] ==> ms[m].waiters[0] < |ts|)
    requires forall w :: w in ms[m].waiters ==> w < |ts|
    requires u < |ts|
    ensures ThreadOk(Released(ts, ms, t, m, rest, p), HandedOver(ts, ms, m), u)
  {
    if ms[m].waiters != [] && u == ms[m].waiters[0] {
      ReleasedHead(ts, ms, t, m);
      assert ThreadOk(ts, ms, u);
      ReleasedNext(ts, ms, t, m, rest, p);
    } else {
      ReleasedOther(ts, ms, t, m, rest, p, u);
    }
  }

  lemma ReleasedStruct(ts: Threads, ms: Mutexes, t: nat, m: nat, rest: seq<nat>, p: nat)
    requires CanRelease(ts, ms, t, m, rest, p) && (ms[m].waiters != [] ==> ms[m].waiters[0] < |ts|)
    requires forall w :: w in ms[m].waiters ==> w < |ts|
    ensures Struct(Released(ts, ms, t, m, rest, p), HandedOver(ts, ms, m))
  {
    ReleasedWaiters(ts, ms, t, m, rest, p);
    ReleasedOwners(ts, ms, t, m, rest, p);
    var ts', ms' := Released(ts, ms, t, m, rest, p), HandedOver(ts, ms, m);
    forall u | 0 <= u < |ts'| ensures ThreadOk(ts', ms', u) {
      ReleasedThread(ts, ms, t, m, rest, p, u);
    }
  }

  /** Nobody's queue changes but that of `m`, which loses its head. */
  lemma ReleasedQueues(ts: Threads, ms: Mutexes, t: nat, m: nat, rest: seq<nat>, p: nat)
    requires CanRelease(ts, ms, t, m, rest, p) && (ms[m].waiters != [] ==> ms[m].waiters[0] < |ts|)
    requires forall w :: w in ms[m].waiters ==> w < |ts|
    ensures QueuesOk(Released(ts, ms, t, m, rest, p), HandedOver(ts, ms, m))
    ensures (forall k :: 0 <= k < |ms| ==> CacheExact(ts, ms[k])) ==>
      forall k :: 0 <= k < |ms| ==> CacheExact(Released(ts, ms, t, m, rest, p), HandedOver(ts, ms, m)[k])
  {
    ReleasedHead(ts, ms, t, m);
    var ts', ms' := Released(ts, ms, t, m, rest, p), HandedOver(ts, ms, m);
    assert ThreadOk(ts, ms, t);
    assert forall u :: 0 <= u < |ts| && u != t ==> ts'[u].cur == ts[u].cur;
    forall k | 0 <= k < |ms'|
      ensures QueueOk(ts', ms'[k]) && (CacheExact(ts, ms[k]) ==> CacheExact(ts', ms'[k]))
    {
      assert QueueOk(ts, ms[k]) && t !in ms[k].waiters;
      if k == m {
        if ms[m].waiters != [] {
          assert CacheExact(ts, ms'[m]);
          QueueTail(ts, ms[m], ms'[m]);
        }
        OtherCurQueue(ts, ts', ms'[m], t);
      } else {
        OtherCurQueue(ts, ts', ms[k], t);
      }
    }
  }

  /** A queue does not depend on the priorities of threads outside it. */
  lemma OtherCurQueue(ts: Threads, ts': Threads, mu: Mutex, t: nat)
    requires |ts| == |ts'| && t !in mu.waiters && forall u :: 0 <= u < |ts| && u != t ==> ts'[u].cur == ts[u].cur
    ensures QueueOk(ts, mu) ==> QueueOk(ts', mu)
    ensures CacheExact(ts, mu) ==> CacheExact(ts', mu)
  {
  }

  lemma QueueTail(ts: Threads, mu: Mutex, mu': Mutex)
    requires QueueOk(ts, mu) && forall w :: w in mu.waiters ==> w < |ts|
    requires mu.waiters != [] && mu'.waiters == mu.waiters[1..] && CacheExact(ts, mu')
    ensures QueueOk(ts, mu')
  {
    var w, w' := mu.waiters, mu'.waiters;
    assert forall i :: 0 <= i < |w'| ==> w'[i] == w[i + 1] && w'[i] in w;
  }

  lemma ReleasedCovered(ts: Threads, ms: Mutexes, t: nat, m: nat, rest: seq<nat>, p: nat)
    requires CanRelease(ts, ms, t, m, rest, p) && (ms[m].waiters != [] ==> ms[m].waiters[0] < |ts|)
    requires forall w :: w in ms[m].waiters ==> w < |ts|
    ensures AllCovered(Released(ts, ms, t, m, rest, p), HandedOver(ts, ms, m))
  {
    ReleasedHead(ts, ms, t, m);
    var ts', ms' := Released(ts, ms, t, m, rest, p), HandedOver(ts, ms, m);
    var w := ms[m].waiters;
    assert QueueOk(ts, ms[m]);
    forall u | 0 <= u < |ts'| ensures Covers(ts', ms', u, ts'[u].cur) {
      assert Covers(ts, ms, u, ts[u].cur) && ThreadOk(ts, ms, u);
      if w != [] && u == w[0] && |w| > 1 {
        assert w[1] in w && ts[w[0]].cur <= ts[w[1]].cur;
      }
    }
  }

  lemma ReleasedExact(ts: Threads, ms: Mutexes, t: nat, m: nat, rest: seq<nat>, p: nat)
    requires CanRelease(ts, ms, t, m, rest, p) && (ms[m].waiters != [] ==> ms[m].waiters[0] < |ts|)
    requires forall w :: w in ms[m].waiters ==> w < |ts|
    requires Exact(ts, ms)
    ensures Exact(Released(ts, ms, t, m, rest, p), HandedOver(ts, ms, m))
  {
    ReleasedHead(ts, ms, t, m);
    ReleasedQueues(ts, ms, t, m, rest, p);
    var ts', ms' := Released(ts, ms, t, m, rest, p), HandedOver(ts, ms, m);
    forall u | 0 <= u < |ts'| ensures Attained(ts', ms', u, ts'[u].cur) {
      assert Attained(ts, ms, u, ts[u].cur);
      if ts'[u].cur != ts[u].init {
        if u == t && ts[t].cur == ms[m].priority {
          var k: nat :| k != m && Donates(ms, k, t, p);
          assert Donates(ms', k, t, p);
        } else {
          var k: nat :| Donates(ms, k, u, ts[u].cur);
          assert Donates(ms', k, u, ts[u].cur);
        }
      }
    }
  }

  lemma ReleasedInv(ts: Threads, ms: Mutexes, t: nat, m: nat, rest: seq<nat>, p: nat)
    requires CanRelease(ts, ms, t, m, rest, p) && (ms[m].waiters != [] ==> ms[m].waiters[0] < |ts|)
    requires forall w :: w in ms[m].waiters ==> w < |ts|
    ensures Inv(Released(ts, ms, t, m, rest, p), HandedOver(ts, ms, m))
  {
    ReleasedStruct(ts, ms, t, m, rest, p);
    ReleasedQueues(ts, ms, t, m, rest, p);
    ReleasedCovered(ts, ms, t, m, rest, p);
  }

  lemma ReleasedEffect(ts: Threads, ms: Mutexes, t: nat, m: nat, rest: seq<nat>, p: nat)
    requires CanRelease(ts, ms, t, m, rest, p) && (ms[m].waiters != [] ==> ms[m].waiters[0] < |ts|)
    requires forall w :: w in ms[m].waiters ==> w < |ts|
    requires rest == Remove(ts[t].taken, m)
    ensures var ts', ms' := Released(ts, ms, t, m, rest, p), HandedOver(ts, ms, m);
      Inv(ts', ms') && (Exact(ts, ms) ==> Exact(ts', ms')) && ReleaseEffect(ts, ms, t, m, ts', ms')
  {
    ReleasedHead(ts, ms, t, m);
    ReleasedInv(ts, ms, t, m, rest, p);
    if Exact(ts, ms) {
      ReleasedExact(ts, ms, t, m, rest, p);
    }
  }

  // ---- timeout ---------------------------------------------------------------------

  function Expired(ts: Threads, t: nat): (ts': Threads)
    requires t < |ts|
  {
    ts[t := ts[t].(suspended := false, timer := false, error := ETIMEOUT)]
  }

  function Dropped(ms: Mutexes, m: nat, rest: seq<nat>): (ms': Mutexes)
    requires m < |ms|
  {
    ms[m := ms[m].(waiters := rest)]
  }

  ghost predicate CanExpire(ts: Threads, ms: Mutexes, t: nat, m: nat, rest: seq<nat>) {
    && Inv(ts, ms) && t < |ts| && m < |ms| && ts[t].timer && ts[t].call == InTake(m)
    && Without(ms[m].waiters, t, rest) && SortedBut(ts, rest, None)
  }

  lemma ExpiredWithout(ts: Threads, ms: Mutexes, t: nat, m: nat)
    requires Inv(ts, ms) && t < |ts| && m < |ms| && ts[t].timer && ts[t].call == InTake(m)
    ensures CanExpire(ts, ms, t, m, Remove(ms[m].waiters, t))
  {
    assert ThreadOk(ts, ms, t) && QueueOk(ts, ms[m]);
    RemoveFacts(ms[m].waiters, t);
    RemovedSorted(ts, ms[m].waiters, t);
  }

  lemma ExpiredStruct(ts: Threads, ms: Mutexes, t: nat, m: nat, rest: seq<nat>)
    requires CanExpire(ts, ms, t, m, rest)
    ensures Struct(Expired(ts, t), Dropped(ms, m, rest))
  {
    var ts', ms' := Expired(ts, t), Dropped(ms, m, rest);
    assert ThreadOk(ts, ms, t);
    forall u | 0 <= u < |ts'| ensures ThreadOk(ts', ms', u) {
      assert ThreadOk(ts, ms, u);
    }
  }

  /** A timeout leaves cached priorities behind, which err on the urgent side. */
  lemma ExpiredInv(ts: Threads, ms: Mutexes, t: nat, m: nat, rest: seq<nat>)
    requires CanExpire(ts, ms, t, m, rest)
    ensures Inv(Expired(ts, t), Dropped(ms, m, rest))
  {
    var ts', ms' := Expired(ts, t), Dropped(ms, m, rest);
    ExpiredStruct(ts, ms, t, m, rest);
    forall u | 0 <= u < |ts'| ensures Covers(ts', ms', u, ts'[u].cur) {
      assert Covers(ts, ms, u, ts[u].cur);
    }
    forall k | 0 <= k < |ms'| ensures QueueOk(ts', ms'[k]) {
      assert QueueOk(ts, ms[k]);
      SameCurQueue(ts, ts', ms'[k]);
    }
  }

  // ---- first take, clean-up, sleeping ------------------------------------------------

  function AcquiredThreads(ts: Threads, t: nat, m: nat): (ts': Threads)
    requires t < |ts|
  {
    ts[t := ts[t].(taken := [m] + ts[t].taken, error := EOK)]
  }

  function AcquiredMutexes(ms: Mutexes, t: nat, m: nat): (ms': Mutexes)
    requires m < |ms|
  {
    ms[m := ms[m].(owner := Some(t), priority := NO_PRIORITY, hold := 1)]
  }

  lemma AcquiredStruct(ts: Threads, ms: Mutexes, t: nat, m: nat)
    requires Struct(ts, ms) && t < |ts| && m < |ms| && ms[m].owner == None
    requires !ts[t].suspended && ts[t].call == Idle
    ensures Struct(AcquiredThreads(ts, t, m), AcquiredMutexes(ms, t, m))
  {
    var ts', ms' := AcquiredThreads(ts, t, m), AcquiredMutexes(ms, t, m);
    forall u | 0 <= u < |ts'| ensures ThreadOk(ts', ms', u) {
      assert ThreadOk(ts, ms, u);
    }
  }

  lemma AcquiredInv(ts: Threads, ms: Mutexes, t: nat, m: nat)
    requires Inv(ts, ms) && t < |ts| && m < |ms| && ms[m].owner == None
    requires !ts[t].suspended && ts[t].call == Idle
    ensures Inv(AcquiredThreads(ts, t, m), AcquiredMutexes(ms, t, m))
    ensures Exact(ts, ms) ==> Exact(AcquiredThreads(ts, t, m), AcquiredMutexes(ms, t, m))
  {
    var ts', ms' := AcquiredThreads(ts, t, m), AcquiredMutexes(ms, t, m);
    AcquiredStruct(ts, ms, t, m);
    forall u | 0 <= u < |ts'| ensures Covers(ts', ms', u, ts'[u].cur) {
      assert ThreadOk(ts, ms, u) && Covers(ts, ms, u, ts[u].cur);
    }
    forall k | 0 <= k < |ms'| ensures QueueOk(ts', ms'[k]) && (CacheExact(ts, ms[k]) ==> CacheExact(ts', ms'[k])) {
      assert QueueOk(ts, ms[k]);
      SameCurQueue(ts, ts', ms'[k]);
    }
    if Exact(ts, ms) {
      SameAttained(ts, ms, ts', ms', m);
    }
  }

  /** Donations of the mutexes other than `m`, which nobody drew on, stay. */
  lemma SameAttained(ts: Threads, ms: Mutexes, ts': Threads, ms': Mutexes, m: nat)
    requires |ts| == |ts'| && |ms| == |ms'|
    requires forall t :: 0 <= t < |ts| ==> ts'[t].cur == ts[t].cur && ts'[t].init == ts[t].init
    requires forall k :: 0 <= k < |ms| && k != m ==> ms'[k].owner == ms[k].owner && ms'[k].priority == ms[k].priority
    requires forall t :: 0 <= t < |ts| ==> Attained(ts, ms, t, ts[t].cur)
    requires m < |ms| ==> ms[m].owner == None || (ms'[m].owner == ms[m].owner && ms'[m].priority == ms[m].priority)
    ensures forall t :: 0 <= t < |ts'| ==> Attained(ts', ms', t, ts'[t].cur)
  {
    forall t | 0 <= t < |ts'| ensures Attained(ts', ms', t, ts'[t].cur) {
      if ts[t].cur != ts[t].init {
        assert Attained(ts, ms, t, ts[t].cur);
        var k: nat :| Donates(ms, k, t, ts[t].cur);
        assert Donates(ms', k, t, ts[t].cur);
      }
    }
  }

  /** Everything the priority conditions look at is the same. */
  ghost predicate SamePriorities(ts: Threads, ms: Mutexes, ts': Threads, ms': Mutexes) {
    && |ts| == |ts'| && |ms| == |ms'|
    && (forall t :: 0 <= t < |ts| ==> ts'[t].cur == ts[t].cur && ts'[t].init == ts[t].init)
    && (forall m :: 0 <= m < |ms| ==> ms'[m] == ms[m].(hold := ms'[m].hold))
  }

  lemma SamePrioritiesInv(ts: Threads, ms: Mutexes, ts': Threads, ms': Mutexes)
    requires SamePriorities(ts, ms, ts', ms')
    ensures QueuesOk(ts, ms) ==> QueuesOk(ts', ms')
    ensures AllCovered(ts, ms) ==> AllCovered(ts', ms')
    ensures Exact(ts, ms) ==> Exact(ts', ms')
  {
    if QueuesOk(ts, ms) {
      forall k | 0 <= k < |ms'| ensures QueueOk(ts', ms'[k]) {
        assert QueueOk(ts, ms[k]);
        SameCurQueue(ts, ts', ms'[k]);
      }
    }
    if AllCovered(ts, ms) {
      forall u | 0 <= u < |ts'| ensures Covers(ts', ms', u, ts'[u].cur) {
        assert Covers(ts, ms, u, ts[u].cur);
      }
    }
    if Exact(ts, ms) {
      SamePrioritiesExact(ts, ms, ts', ms');
    }
  }

  lemma SamePrioritiesExact(ts: Threads, ms: Mutexes, ts': Threads, ms': Mutexes)
    requires SamePriorities(ts, ms, ts', ms') && Exact(ts, ms)
    ensures Exact(ts', ms')
  {
    forall k | 0 <= k < |ms'| ensures CacheExact(ts', ms'[k]) {
      assert CacheExact(ts, ms[k]);
    }
    SameAttained(ts, ms, ts', ms', 0);
  }

  /** Error code, recursion depth and waits elsewhere are nothing to the invariants. */
  lemma RecordedInv(ts: Threads, ms: Mutexes, ts': Threads, ms': Mutexes)
    requires Inv(ts, ms) && SamePriorities(ts, ms, ts', ms')
    requires forall t :: 0 <= t < |ts| ==>
      ts'[t] == ts[t] || (ts[t].call == Idle && ts'[t] == ts[t].(error := ts'[t].error, suspended := ts'[t].suspended))
    requires forall m :: 0 <= m < |ms| ==>
      ms'[m] == ms[m] || (1 <= ms'[m].hold <= HOLD_MAX && ms[m].owner.Some?)
    ensures Inv(ts', ms')
    ensures Exact(ts, ms) ==> Exact(ts', ms')
  {
    hide Struct, QueuesOk, AllCovered, Exact;
    RecordedStruct(ts, ms, ts', ms');
    SamePrioritiesInv(ts, ms, ts', ms');
  }

  lemma RecordedStruct(ts: Threads, ms: Mutexes, ts': Threads, ms': Mutexes)
    requires Struct(ts, ms) && SamePriorities(ts, ms, ts', ms')
    requires forall t :: 0 <= t < |ts| ==>
      ts'[t] == ts[t] || (ts[t].call == Idle && ts'[t] == ts[t].(error := ts'[t].error, suspended := ts'[t].suspended))
    requires forall m :: 0 <= m < |ms| ==>
      ms'[m] == ms[m] || (1 <= ms'[m].hold <= HOLD_MAX && ms[m].owner.Some?)
    ensures Struct(ts', ms')
  {
    hide Distinct;
    forall u | 0 <= u < |ts'| ensures ThreadOk(ts', ms', u) {
      assert ThreadOk(ts, ms, u);
    }
  }

  /** `mutex->priority` read off the suspend list again. */
  function Refreshed(ts: Threads, ms: Mutexes, m: nat): (ms': Mutexes)
    requires m < |ms| && (ms[m].waiters != [] ==> ms[m].waiters[0] < |ts|)
  {
    var w := ms[m].waiters;
    ms[m := ms[m].(priority := if w != [] then ts[w[0]].cur else NO_PRIORITY)]
  }

  ghost predicate ExactBut(ts: Threads, ms: Mutexes, m: nat) {
    && (forall k :: 0 <= k < |ms| && k != m ==> CacheExact(ts, ms[k]))
    && (forall t :: 0 <= t < |ts| ==> Attained(ts, ms, t, ts[t].cur))
  }

  lemma RefreshedInv(ts: Threads, ms: Mutexes, m: nat)
    requires Inv(ts, ms) && m < |ms| && (ms[m].waiters != [] ==> ms[m].waiters[0] < |ts|)
    ensures Inv(ts, Refreshed(ts, ms, m))
    ensures SameShape(ts, ms, ts, Refreshed(ts, ms, m))
  {
    var ms' := Refreshed(ts, ms, m);
    var w := ms[m].waiters;
    assert QueueOk(ts, ms[m]);
    if w != [] {
      assert w[0] in w;
      assert Covers(ts, ms, w[0], ts[w[0]].cur) && ThreadOk(ts, ms, w[0]);
    }
    assert ms[m].priority <= ms'[m].priority <= NO_PRIORITY;
    SameShapeKeepsStruct(ts, ms, ts, ms');
    forall k | 0 <= k < |ms'| ensures QueueOk(ts, ms'[k]) {
      assert QueueOk(ts, ms[k]);
    }
    forall u | 0 <= u < |ts| ensures Covers(ts, ms', u, ts[u].cur) {
      assert Covers(ts, ms, u, ts[u].cur);
    }
  }

  lemma RefreshedCaches(ts: Threads, ms: Mutexes, m: nat)
    requires Inv(ts, ms) && m < |ms| && (ms[m].waiters != [] ==> ms[m].waiters[0] < |ts|) && ExactBut(ts, ms, m)
    ensures forall k :: 0 <= k < |ms| ==> CacheExact(ts, Refreshed(ts, ms, m)[k])
    ensures forall u :: 0 <= u < |ts| && Some(u) != ms[m].owner ==> Attained(ts, Refreshed(ts, ms, m), u, ts[u].cur)
  {
    var ms' := Refreshed(ts, ms, m);
    forall u | 0 <= u < |ts| && Some(u) != ms[m].owner ensures Attained(ts, ms', u, ts[u].cur) {
      if ts[u].cur != ts[u].init {
        assert Attained(ts, ms, u, ts[u].cur);
        var k: nat :| Donates(ms, k, u, ts[u].cur);
        assert Donates(ms', k, u, ts[u].cur);
      }
    }
  }

  /** The owner `o` of `m` needs no donation that left with a timed-out waiter. */
  ghost predicate StillDue(ts: Threads, ms: Mutexes, m: nat, o: nat)
    requires o < |ts| && m < |ms|
  {
    || ts[o].cur == ts[o].init
    || (exists k: nat :: k != m && Donates(ms, k, o, ts[o].cur))
    || (ms[m].waiters != [] && ms[m].waiters[0] < |ts| && ts[ms[m].waiters[0]].cur == ts[o].cur)
  }

  lemma RefreshedExact(ts: Threads, ms: Mutexes, m: nat)
    requires Inv(ts, ms) && m < |ms| && (ms[m].waiters != [] ==> ms[m].waiters[0] < |ts|)
    ensures Exact(ts, ms) ==> Refreshed(ts, ms, m) == ms
    ensures ms[m].owner.Some? && ms[m].owner.value < |ts| && ExactBut(ts, ms, m) ==>
      (Exact(ts, Refreshed(ts, ms, m)) <==> StillDue(ts, ms, m, ms[m].owner.value))
  {
    if Exact(ts, ms) {
      assert CacheExact(ts, ms[m]);
    }
    if ms[m].owner.Some? && ms[m].owner.value < |ts| && ExactBut(ts, ms, m) {
      RefreshedCaches(ts, ms, m);
      RefreshedAttained(ts, ms, m);
    }
  }

  lemma RefreshedAttained(ts: Threads, ms: Mutexes, m: nat)
    requires Inv(ts, ms) && m < |ms| && (ms[m].waiters != [] ==> ms[m].waiters[0] < |ts|)
    requires ms[m].owner.Some? && ms[m].owner.value < |ts|
    ensures var o := ms[m].owner.value;
      Attained(ts, Refreshed(ts, ms, m), o, ts[o].cur) <==> StillDue(ts, ms, m, o)
  {
    var ms', o := Refreshed(ts, ms, m), ms[m].owner.value;
    assert ThreadOk(ts, ms, o) && Covers(ts, ms, o, ts[o].cur);
    assert forall k: nat :: k != m ==> (Donates(ms, k, o, ts[o].cur) <==> Donates(ms', k, o, ts[o].cur));
    assert Donates(ms', m, o, ts[o].cur) <==> ms'[m].priority == ts[o].cur;
  }

  /** What a clean-up on behalf of `t` makes of the exact priorities: they are back exactly if
      `t` and the owner are equally urgent or the owner did not need the donation. */
  ghost predicate CleanUpEffect(ts: Threads, ms: Mutexes, t: nat, m: nat, ts': Threads, ms': Mutexes)
    requires t < |ts| && m < |ms|
  {
    && (Exact(ts, ms) ==> Exact(ts', ms'))
    && (ms[m].waiters != [] ==> ms[m].waiters[0] < |ts|)
    && (ms[m].owner.Some? ==> ms[m].owner.value < |ts|)
    && (ms[m].owner == None || ts[ms[m].owner.value].cur != ts[t].cur ==> ts' == ts && ms' == Refreshed(ts, ms, m))
    && (ExactBut(ts, ms, m) && ms[m].owner == None ==> Exact(ts', ms'))
    && (ExactBut(ts, ms, m) && ms[m].owner.Some? ==>
          var o := ms[m].owner.value;
          (Exact(ts', ms') <==> ts[o].cur == ts[t].cur || StillDue(ts, ms, m, o)))
  }

  /** A clean-up right after its timeout finds one of the two conditions. */
  lemma PromptCleanUp(ts: Threads, ms: Mutexes, t: nat, m: nat, rest: seq<nat>)
    requires CanExpire(ts, ms, t, m, rest) && Exact(ts, ms) && rest == Remove(ms[m].waiters, t)
    ensures ExactBut(Expired(ts, t), Dropped(ms, m, rest), m)
    ensures ms[m].owner.Some? && ms[m].owner.value < |ts|
    ensures var o := ms[m].owner.value;
      ts[o].cur == ts[t].cur || StillDue(Expired(ts, t), Dropped(ms, m, rest), m, o)
  {
    var ts', ms' := Expired(ts, t), Dropped(ms, m, rest);
    assert ThreadOk(ts, ms, t) && CacheExact(ts, ms[m]);
    forall k | 0 <= k < |ms'| && k != m ensures CacheExact(ts', ms'[k]) {
      assert CacheExact(ts, ms[k]);
    }
    SameAttained(ts, ms, ts', ms', m);
    PromptOwner(ts, ms, t, m, rest);
  }

  lemma PromptOwner(ts: Threads, ms: Mutexes, t: nat, m: nat, rest: seq<nat>)
    requires CanExpire(ts, ms, t, m, rest) && Exact(ts, ms) && rest == Remove(ms[m].waiters, t)
    requires t in ms[m].waiters && ms[m].owner.Some? && ms[m].owner.value < |ts|
    ensures var o := ms[m].owner.value;
      ts[o].cur == ts[t].cur || StillDue(Expired(ts, t), Dropped(ms, m, rest), m, o)
  {
    var ts', ms' := Expired(ts, t), Dropped(ms, m, rest);
    var o, w := ms[m].owner.value, ms[m].waiters;
    assert CacheExact(ts, ms[m]) && w[0] in w;
    if ts[o].cur != ts[o].init {
      assert Attained(ts, ms, o, ts[o].cur);
      var k: nat :| Donates(ms, k, o, ts[o].cur);
      if k == m && w[0] != t {
        assert IndexOf(w, t) > 0;
        assert rest[0] == w[0];
      } else if k != m {
        assert Donates(ms', k, o, ts'[o].cur);
      }
    }
  }

  function Returned(ts: Threads, t: nat): (ts': Threads)
    requires t < |ts|
  {
    ts[t := ts[t].(pending := None, call := Idle)]
  }

  /** A clean-up, and `t` out of its call. */
  ghost predicate ReturnEffect(ts: Threads, ms: Mutexes, t: nat, m: nat, ts': Threads, ms': Mutexes)
    requires t < |ts| && m < |ms|
  {
    exists was :: t < |was| && CleanUpEffect(ts, ms, t, m, was, ms') && ts' == Returned(was, t)
      && (Exact(was, ms') <==> Exact(ts', ms'))
  }

  lemma ReturnedInv(ts: Threads, ms: Mutexes, t: nat)
    requires Inv(ts, ms) && t < |ts| && !ts[t].suspended
    ensures Inv(Returned(ts, t), ms)
    ensures Exact(ts, ms) <==> Exact(Returned(ts, t), ms)
  {
    var ts' := Returned(ts, t);
    assert ThreadOk(ts, ms, t);
    forall u | 0 <= u < |ts'| ensures ThreadOk(ts', ms, u) {
      assert ThreadOk(ts, ms, u);
    }
    SamePrioritiesInv(ts, ms, ts', ms);
    SamePrioritiesInv(ts', ms, ts, ms);
  }

  // ---- the inheritance loop ------------------------------------------------------------

  ghost predicate CoveredBut(ts: Threads, ms: Mutexes, x: nat) {
    forall t :: 0 <= t < |ts| && t != x ==> Covers(ts, ms, t, ts[t].cur)
  }

  /** Exact once `t` is given the priority `p`. */
  ghost predicate ExactFor(ts: Threads, ms: Mutexes, t: nat, p: nat)
    requires t < |ts|
  {
    && (forall m :: 0 <= m < |ms| ==> CacheExact(ts, ms[m]))
    && (forall u :: 0 <= u < |ts| && u != t ==> Attained(ts, ms, u, ts[u].cur))
    && Attained(ts, ms, t, p)
  }

  /** Between two rounds of the inheritance loop only the queue that `th` waits in, if it
      still is to be looked at, may be out of order, and only at `th`. */
  ghost predicate Walking(ts: Threads, ms: Mutexes, th: nat, active: bool, up: bool, exact: bool)
    requires th < |ts|
  {
    && AllCovered(ts, ms)
    && (forall m :: 0 <= m < |ms| && !(active && ts[th].pending == Some(m)) ==>
          QueueOk(ts, ms[m]) && (exact ==> CacheExact(ts, ms[m])))
    && (forall m :: 0 <= m < |ms| && active && ts[th].pending == Some(m) ==>
          QueueOkBut(ts, ms[m], th) && (up ==> ms[m].priority <= ts[th].cur))
    && (exact ==> forall t :: 0 <= t < |ts| ==> Attained(ts, ms, t, ts[t].cur))
  }

  lemma PriorityChanged(ts: Threads, ms: Mutexes, t: nat, p: nat, exact: bool)
    requires t < |ts| && Struct(ts, ms) && QueuesOk(ts, ms)
    requires CoveredBut(ts, ms, t) && Covers(ts, ms, t, p)
    requires exact ==> ExactFor(ts, ms, t, p)
    ensures var ts' := ts[t := ts[t].(cur := p)];
            && SameShape(ts, ms, ts', ms) && Struct(ts', ms)
            && Walking(ts', ms, t, ts'[t].suspended, p >= ts[t].cur, exact)
  {
    var ts' := ts[t := ts[t].(cur := p)];
    SameShapeKeepsStruct(ts, ms, ts', ms);
    forall u | 0 <= u < |ts'| ensures Covers(ts', ms, u, ts'[u].cur) {
      if u != t { assert Covers(ts, ms, u, ts[u].cur); }
    }
    if exact {
      forall u | 0 <= u < |ts'| ensures Attained(ts', ms, u, ts'[u].cur) {
        if u != t { assert Attained(ts, ms, u, ts[u].cur); }
      }
    }
    forall m | 0 <= m < |ms|
      ensures !(ts[t].suspended && ts[t].pending == Some(m)) ==>
        QueueOk(ts', ms[m]) && (exact ==> CacheExact(ts', ms[m]))
      ensures ts[t].suspended && ts[t].pending == Some(m) ==>
        QueueOkBut(ts', ms[m], t) && (p >= ts[t].cur ==> ms[m].priority <= p)
    {
      QueueAfterChange(ts, ms, m, t, p, exact);
    }
  }

  lemma QueueAfterChange(ts: Threads, ms: Mutexes, m: nat, t: nat, p: nat, exact: bool)
    requires t < |ts| && m < |ms| && Struct(ts, ms) && QueueOk(ts, ms[m]) && (exact ==> CacheExact(ts, ms[m]))
    ensures var ts' := ts[t := ts[t].(cur := p)];
      && (!(ts[t].suspended && ts[t].pending == Some(m)) ==> QueueOk(ts', ms[m]) && (exact ==> CacheExact(ts', ms[m])))
      && (ts[t].suspended && ts[t].pending == Some(m) ==>
          QueueOkBut(ts', ms[m], t) && (p >= ts[t].cur ==> ms[m].priority <= p))
  {
    assert ThreadOk(ts, ms, t);
    if !(ts[t].suspended && ts[t].pending == Some(m)) {
      assert t !in ms[m].waiters;
      assert ms[m].waiters != [] ==> ms[m].waiters[0] in ms[m].waiters;
    }
  }

  lemma Requeued(ts: Threads, ms: Mutexes, ms': Mutexes, th: nat, m: nat, up: bool, exact: bool)
    requires th < |ts| && m < |ms| && |ms'| == |ms| && Struct(ts, ms)
    requires ts[th].suspended && ts[th].pending == Some(m) && Walking(ts, ms, th, true, up, exact)
    requires ms' == ms[m := ms'[m]]
    requires ms'[m] == ms[m].(priority := ms'[m].priority, waiters := ms'[m].waiters)
    requires SameWaiters(ms[m].waiters, ms'[m].waiters)
    requires QueueOk(ts, ms'[m]) && CacheExact(ts, ms'[m])
    requires ms'[m].priority <= ts[th].cur
    requires ms'[m].priority >= ms[m].priority || ms'[m].priority == ts[th].cur
    ensures SameShape(ts, ms, ts, ms') && Struct(ts, ms')
    ensures ms[m].owner.Some? && ms[m].owner.value < |ts|
    ensures QueuesOk(ts, ms') && CoveredBut(ts, ms', ms[m].owner.value)
    ensures up ==> AllCovered(ts, ms')
    ensures exact ==> forall k :: 0 <= k < |ms'| ==> CacheExact(ts, ms'[k])
    ensures exact ==> forall u :: 0 <= u < |ts| && Some(u) != ms[m].owner ==> Attained(ts, ms', u, ts[u].cur)
  {
    hide QueueOk, QueueOkBut, CacheExact, Attained, SameWaiters, ThreadOk, WaitersOk;
    RequeuedShape(ts, ms, ms', th, m);
    var o := ms[m].owner.value;
    forall u | 0 <= u < |ts| && (u != o || up) ensures Covers(ts, ms', u, ts[u].cur) {
      assert Covers(ts, ms, u, ts[u].cur);
    }
    if exact {
      RequeuedExact(ts, ms, ms', th, m);
    }
  }

  lemma RequeuedShape(ts: Threads, ms: Mutexes, ms': Mutexes, th: nat, m: nat)
    requires th < |ts| && m < |ms| && |ms'| == |ms| && Struct(ts, ms) && ts[th].suspended && ts[th].pending == Some(m)
    requires ms' == ms[m := ms'[m]]
    requires ms'[m] == ms[m].(priority := ms'[m].priority, waiters := ms'[m].waiters)
    requires SameWaiters(ms[m].waiters, ms'[m].waiters) && ms'[m].priority <= ts[th].cur && AllCovered(ts, ms)
    ensures SameShape(ts, ms, ts, ms') && Struct(ts, ms')
    ensures ms[m].owner.Some? && ms[m].owner.value < |ts|
  {
    assert ThreadOk(ts, ms, th) && Covers(ts, ms, th, ts[th].cur);
    SameShapeKeepsStruct(ts, ms, ts, ms');
  }

  /** What a round of the loop needs to know of the list that `th` waits in. */
  lemma WaiterToMove(ts: Threads, ms: Mutexes, th: nat, m: nat, up: bool, exact: bool)
    requires th < |ts| && Struct(ts, ms)
    requires ts[th].suspended && ts[th].pending == Some(m) && Walking(ts, ms, th, true, up, exact)
    ensures m < |ms| && th in ms[m].waiters && Distinct(ms[m].waiters) && QueueOkBut(ts, ms[m], th)
    ensures forall w :: w in ms[m].waiters ==> w < |ts|
  {
    assert ThreadOk(ts, ms, th);
  }

  lemma OwnerToAsk(ts: Threads, ms: Mutexes, o: nat)
    requires o < |ts| && Struct(ts, ms)
    ensures forall k :: k in ts[o].taken ==> k < |ms|
  {
    assert ThreadOk(ts, ms, o);
  }

  lemma OwnerUrgency(ts: Threads, ms: Mutexes, th: nat, o: nat, up: bool, exact: bool)
    requires th < |ts| && o < |ts| && Walking(ts, ms, th, true, up, exact)
    ensures ts[o].cur <= ts[o].init
  {
    assert Covers(ts, ms, o, ts[o].cur);
  }

  lemma AskedPriority(ts: Threads, ms: Mutexes, th: nat, o: nat, p: nat, up: bool, exact: bool)
    requires th < |ts| && o < |ts| && QueuesOk(ts, ms) && CoveredBut(ts, ms, o)
    requires Covers(ts, ms, o, p) && Attained(ts, ms, o, p)
    requires up ==> AllCovered(ts, ms)
    requires exact ==> forall k :: 0 <= k < |ms| ==> CacheExact(ts, ms[k])
    requires exact ==> forall u :: 0 <= u < |ts| && u != o ==> Attained(ts, ms, u, ts[u].cur)
    ensures exact ==> ExactFor(ts, ms, o, p)
    ensures up ==> ts[o].cur <= p
    ensures ts[o].cur == p ==> Walking(ts, ms, th, false, up, exact)
  {
    if up && p != ts[o].init {
      var k: nat :| Donates(ms, k, o, p);
      assert Covers(ts, ms, o, ts[o].cur);
    }
  }

  lemma RequeuedExact(ts: Threads, ms: Mutexes, ms': Mutexes, th: nat, m: nat)
    requires m < |ms| == |ms'| && ms' == ms[m := ms'[m]] && ms[m].owner.Some?
    requires forall t :: 0 <= t < |ts| ==> Attained(ts, ms, t, ts[t].cur)
    ensures forall u :: 0 <= u < |ts| && Some(u) != ms[m].owner ==> Attained(ts, ms', u, ts[u].cur)
  {
    forall u | 0 <= u < |ts| && Some(u) != ms[m].owner ensures Attained(ts, ms', u, ts[u].cur) {
      if ts[u].cur != ts[u].init {
        assert Attained(ts, ms, u, ts[u].cur);
        var k: nat :| Donates(ms, k, u, ts[u].cur);
        assert Donates(ms', k, u, ts[u].cur);
      }
    }
  }

  /** Moving a waiter to the place its priority calls for sorts the list. */
  lemma MovedWaiterSorts(ts: Threads, s: seq<nat>, r: seq<nat>, t: nat, n: nat)
    requires t < |ts| && t in s && Distinct(s) && SortedBut(ts, s, Some(t))
    requires r == Remove(s, t) && n <= |r| && forall i :: 0 <= i < |r| ==> r[i] < |ts|
    requires forall i :: 0 <= i < n ==> ts[r[i]].cur <= ts[t].cur
    requires n < |r| ==> ts[t].cur < ts[r[n]].cur
    ensures SameWaiters(s, InsertAt(r, n, t))
    ensures SortedBut(ts, InsertAt(r, n, t), None)
  {
    RemovedSorted(ts, s, t);
    InsertedSorted(ts, r, n, t);
    MovedSame(s, r, t, n);
  }

  lemma RemovedBelow(ts: Threads, s: seq<nat>, r: seq<nat>, t: nat)
    requires Distinct(s) && r == Remove(s, t) && forall w :: w in s ==> w < |ts|
    ensures forall i :: 0 <= i < |r| ==> r[i] < |ts|
  {
    RemoveFacts(s, t);
    assert forall i :: 0 <= i < |r| ==> r[i] in r;
  }

  /** The head of a list sorted again gives the mutex its exact priority. */
  lemma HeadAfterMove(ts: Threads, mu: Mutex, w: seq<nat>, t: nat)
    requires t < |ts| && t in mu.waiters && (forall u :: u in mu.waiters ==> u < |ts|)
    requires QueueOkBut(ts, mu, t) && SameWaiters(mu.waiters, w) && SortedBut(ts, w, None)
    ensures w != [] && w[0] < |ts|
    ensures var mu' := mu.(waiters := w, priority := ts[w[0]].cur);
      && QueueOk(ts, mu') && CacheExact(ts, mu') && mu'.priority <= ts[t].cur
      && (mu'.priority >= mu.priority || mu'.priority == ts[t].cur)
  {
    assert t in w;
    assert w[0] in w;
    forall u | u in w ensures ts[w[0]].cur <= ts[u].cur {
      var i :| 0 <= i < |w| && w[i] == u;
      assert u in mu.waiters;
    }
  }

  lemma MovedSame(s: seq<nat>, r: seq<nat>, t: nat, n: nat)
    requires t in s && Distinct(s) && r == Remove(s, t) && n <= |r|
    ensures SameWaiters(s, InsertAt(r, n, t))
  {
    RemoveFacts(s, t);
    InsertFacts(r, n, t);
  }

  lemma RemovedSorted(ts: Threads, s: seq<nat>, t: nat)
    requires t in s && Distinct(s) && SortedBut(ts, s, Some(t))
    ensures SortedBut(ts, Remove(s, t), None)
  {
    var k := IndexOf(s, t);
    CutSorted(ts, s, k);
  }

  lemma CutSorted(ts: Threads, s: seq<nat>, k: nat)
    requires k < |s| && Distinct(s) && SortedBut(ts, s, Some(s[k]))
    ensures SortedBut(ts, s[..k] + s[k + 1..], None)
  {
    var r := s[..k] + s[k + 1..];
    forall i, j | 0 <= i < j < |r| && r[i] < |ts| && r[j] < |ts| ensures ts[r[i]].cur <= ts[r[j]].cur {
      var i' := if i < k then i else i + 1;
      var j' := if j < k then j else j + 1;
      assert r[i] == s[i'] && r[j] == s[j'] && s[i'] != s[k] && s[j'] != s[k];
    }
  }

  lemma InsertedSorted(ts: Threads, r: seq<nat>, n: nat, t: nat)
    requires t < |ts| && n <= |r| && SortedBut(ts, r, None)
    requires forall i :: 0 <= i < |r| ==> r[i] < |ts|
    requires forall i :: 0 <= i < n ==> ts[r[i]].cur <= ts[t].cur
    requires n < |r| ==> ts[t].cur <= ts[r[n]].cur
    ensures SortedBut(ts, InsertAt(r, n, t), None)
  {
    var w := InsertAt(r, n, t);
    forall i, j | 0 <= i < j < |w| && w[i] < |ts| && w[j] < |ts| ensures ts[w[i]].cur <= ts[w[j]].cur {
      if i == n {
        assert ts[r[n]].cur <= ts[r[j - 1]].cur;
      }
    }
  }
}
