/** The list of threads suspended on an IPC object, served in order of arrival or by priority. */
module SuspendList {
  import opened Lists

  /** RT_IPC_FLAG_FIFO and RT_IPC_FLAG_PRIO */
  datatype Policy = Fifo | Prio

  /** All threads on the list have numbers below `n`. */
  ghost predicate Known(list: seq<nat>, n: nat) {
    forall i :: 0 <= i < |list| ==> list[i] < n
  }

  /** Sorted by priority, if that is the policy. A list is so as long as no priority changes. */
  ghost predicate InOrder(list: seq<nat>, prio: seq<nat>, policy: Policy) {
    policy == Prio ==> Known(list, |prio|) && forall i, j :: 0 <= i < j < |list| ==> prio[list[i]] <= prio[list[j]]
  }

  /** Position `n` is behind the threads that `t` must wait for and before the first other. */
  ghost predicate Place(list: seq<nat>, prio: seq<nat>, policy: Policy, t: nat, n: nat) {
    && n <= |list|
    && (policy == Fifo ==> n == |list|)
    && (policy == Prio ==>
          && t < |prio| && Known(list, |prio|)
          && (forall i :: 0 <= i < n ==> prio[list[i]] <= prio[t])
          && (n < |list| ==> prio[t] < prio[list[n]]))
  }

  /** `r` is `list` with `t` at its place. */
  ghost predicate Joined(list: seq<nat>, prio: seq<nat>, policy: Policy, t: nat, r: seq<nat>) {
    exists n :: Place(list, prio, policy, t, n) && r == InsertAt(list, n, t)
  }

  /** The loop of `rt_susp_list_enqueue`: the position behind all threads at least as urgent as `p`. */
  method FindPlace(list: seq<nat>, prio: seq<nat>, p: nat) returns (n: nat)
    requires Known(list, |prio|)
    ensures n <= |list|
    ensures forall i :: 0 <= i < n ==> prio[list[i]] <= p
    ensures n < |list| ==> p < prio[list[n]]
  {
    n := 0;
    while n < |list|
      invariant n <= |list| && forall i :: 0 <= i < n ==> prio[list[i]] <= p
    {
      if p < prio[list[n]] {
        break;
      }
      n := n + 1;
    }
  }

  /** `rt_susp_list_enqueue`: the thread comes behind all threads it must wait for. */
  method Enqueue(list: seq<nat>, prio: seq<nat>, policy: Policy, t: nat) returns (r: seq<nat>, n: nat)
    requires Known(list, |prio|) && Distinct(list) && t < |prio| && t !in list
    ensures Place(list, prio, policy, t, n) && r == InsertAt(list, n, t) && Known(r, |prio|) && Distinct(r)
    ensures forall x :: x in r <==> x in list || x == t
    ensures InOrder(list, prio, policy) ==> InOrder(r, prio, policy)
  {
    n := |list|;
    if policy == Prio {
      n := FindPlace(list, prio, prio[t]);
    }
    r := InsertAt(list, n, t);
    InsertFacts(list, n, t);
    PlaceInOrder(list, prio, policy, t, n);
  }

  lemma PlaceInOrder(list: seq<nat>, prio: seq<nat>, policy: Policy, t: nat, n: nat)
    requires Place(list, prio, policy, t, n)
    ensures InOrder(list, prio, policy) ==> InOrder(InsertAt(list, n, t), prio, policy)
  {
    var r := InsertAt(list, n, t);
    assert forall i :: 0 <= i < |r| ==> r[i] == if i < n then list[i] else if i == n then t else list[i - 1];
  }

  lemma JoinedInOrder(list: seq<nat>, prio: seq<nat>, policy: Policy, t: nat, r: seq<nat>)
    requires Joined(list, prio, policy, t, r) && InOrder(list, prio, policy)
    ensures InOrder(r, prio, policy)
  {
    hide InOrder;
    var n :| Place(list, prio, policy, t, n) && r == InsertAt(list, n, t);
    PlaceInOrder(list, prio, policy, t, n);
  }

  /** Unlinking a thread leaves the others in order. */
  lemma RemoveInOrder(list: seq<nat>, prio: seq<nat>, policy: Policy, t: nat)
    requires InOrder(list, prio, policy)
    ensures InOrder(Remove(list, t), prio, policy)
  {
    var r := Remove(list, t);
    if t in list {
      var k := IndexOf(list, t);
      assert forall i :: 0 <= i < |r| ==> r[i] == list[if i < k then i else i + 1];
    }
  }

  lemma RemoveKnown(list: seq<nat>, n: nat, t: nat)
    requires Known(list, n) && Distinct(list)
    ensures Known(Remove(list, t), n) && Distinct(Remove(list, t)) && t !in Remove(list, t)
    ensures forall x :: x in Remove(list, t) <==> x in list && x != t
  {
    RemoveFacts(list, t);
    var r := Remove(list, t);
    assert forall i :: 0 <= i < |r| ==> r[i] in r;
    assert forall x :: x in list ==> x < n;
  }
}
