/**
Who is woken: among the threads asleep in one role the most urgent, or with the FIFO policy the
one that has slept longest. A thread that is woken stays so until it runs.
*/
module Arrival {
  import opened Lists
  import opened SuspendList
  import opened Waiting

  /** `t` is woken for a message or a slot. */
  predicate Wakes(w: Waits, w': Waits, t: nat) {
    && t < |w.threads| && t < |w'.threads|
    && w.threads[t].status == Suspended && w'.threads[t].status == Woken(EOK)
  }

  predicate FallsAsleep(w: Waits, w': Waits, t: nat) {
    && t < |w.threads| && t < |w'.threads|
    && w.threads[t].status != Suspended && w'.threads[t].status == Suspended
  }

  function ListOf(w: Waits, role: Role): seq<nat> {
    if role == Receiver then w.receivers else w.senders
  }

  /** When `t` fell asleep last: the number of the step in the history `h`; before them come those
      who slept already, in the order of their list. */
  ghost function Since(h: seq<Waits>, t: nat): int
    requires h != []
  {
    var n := |h| - 1;
    if n > 0 then if FallsAsleep(h[n - 1], h[n], t) then n else Since(h[..n], t)
    else if t in h[0].receivers then IndexOf(h[0].receivers, t) - |h[0].receivers|
    else if t in h[0].senders then IndexOf(h[0].senders, t) - |h[0].senders|
    else 0
  }

  /** The threads on the list fell asleep one after the other. */
  ghost predicate ByArrival(h: seq<Waits>, list: seq<nat>)
    requires h != []
  {
    forall i, j :: 0 <= i < j < |list| ==> Since(h, list[i]) < Since(h, list[j])
  }

  ghost predicate Listed(w: Waits) {
    SideOk(w.threads, w.receivers, Receiver) && SideOk(w.threads, w.senders, Sender)
  }

  lemma SinceStart(w: Waits, role: Role)
    requires Listed(w)
    ensures ByArrival([w], ListOf(w, role))
  {
    var list := ListOf(w, role);
    forall i | 0 <= i < |list| ensures Since([w], list[i]) == i - |list| {
      assert list[i] in list;
      assert Asleep(w.threads[list[i]], role);
      assert IndexOf(list, list[i]) == i;
    }
  }

  lemma {:induction false} SinceBound(h: seq<Waits>, t: nat)
    requires h != []
    ensures Since(h, t) < |h|
  {
    var n := |h| - 1;
    if n > 0 {
      SinceBound(h[..n], t);
    }
  }

  lemma SinceStep(h: seq<Waits>, w': Waits, t: nat)
    requires h != []
    ensures Since(h + [w'], t) == if FallsAsleep(h[|h| - 1], w', t) then |h| else Since(h, t)
  {
    assert (h + [w'])[..|h|] == h;
  }

  /** The order in `r` is that in `list`. */
  ghost predicate Sublist(list: seq<nat>, r: seq<nat>) {
    forall i, j :: 0 <= i < j < |r| ==> InFront(list, r[i], r[j])
  }

  ghost predicate InFront(list: seq<nat>, x: nat, y: nat) {
    exists p, q :: 0 <= p < q < |list| && list[p] == x && list[q] == y
  }

  /** In this step threads leave the list, or one that falls asleep comes to its end. */
  ghost predicate Orderly(w: Waits, w': Waits, list: seq<nat>, r: seq<nat>) {
    Sublist(list, r) || exists t: nat :: r == list + [t] && FallsAsleep(w, w', t)
  }

  lemma ArrivalStep(h: seq<Waits>, w': Waits, role: Role, r: seq<nat>)
    requires h != [] && Listed(h[|h| - 1])
    requires ByArrival(h, ListOf(h[|h| - 1], role)) && Orderly(h[|h| - 1], w', ListOf(h[|h| - 1], role), r)
    ensures ByArrival(h + [w'], r)
  {
    hide Since;
    var w, list := h[|h| - 1], ListOf(h[|h| - 1], role);
    forall x | x in list ensures !FallsAsleep(w, w', x) {
      assert Asleep(w.threads[x], role);
    }
    forall i, j | 0 <= i < j < |r| ensures Since(h + [w'], r[i]) < Since(h + [w'], r[j]) {
      SinceStep(h, w', r[i]);
      SinceStep(h, w', r[j]);
      if Sublist(list, r) {
        assert InFront(list, r[i], r[j]);
        var p, q :| 0 <= p < q < |list| && list[p] == r[i] && list[q] == r[j];
      } else {
        SinceBound(h, r[i]);
      }
    }
  }

  /** Whoever is woken stood first. */
  ghost predicate HeadWakes(w: Waits, w': Waits) {
    forall t: nat :: Wakes(w, w', t) ==> ListOf(w, w.threads[t].role) == [t] + ListOf(w', w.threads[t].role)
  }

  /** Whoever is woken stood first, and with the FIFO policy the lists change in order. */
  ghost predicate InTurn(w: Waits, w': Waits, policy: Policy) {
    && HeadWakes(w, w')
    && (policy == Fifo ==>
          Orderly(w, w', w.receivers, w'.receivers) && Orderly(w, w', w.senders, w'.senders))
  }

  lemma InFrontAt(list: seq<nat>, p: nat, q: nat)
    requires p < q < |list|
    ensures InFront(list, list[p], list[q])
  {
  }

  lemma SublistTail(list: seq<nat>)
    ensures Sublist(list, list) && (list != [] ==> Sublist(list, list[1..]))
  {
    hide InFront;
    forall i, j | 0 <= i < j < |list| ensures InFront(list, list[i], list[j]) {
      InFrontAt(list, i, j);
    }
    if list != [] {
      forall i, j | 0 <= i < j < |list[1..]| ensures InFront(list, list[1..][i], list[1..][j]) {
        InFrontAt(list, i + 1, j + 1);
      }
    }
  }

  lemma CutAt(list: seq<nat>, k: nat, i: nat)
    requires k < |list| && i < |list| - 1
    ensures (list[..k] + list[k + 1..])[i] == list[if i < k then i else i + 1]
  {
  }

  lemma SublistRemove(list: seq<nat>, t: nat)
    ensures Sublist(list, Remove(list, t))
  {
    hide InFront;
    if t in list {
      var k := IndexOf(list, t);
      var r := list[..k] + list[k + 1..];
      forall i, j | 0 <= i < j < |r| ensures InFront(list, r[i], r[j]) {
        CutAt(list, k, i);
        CutAt(list, k, j);
        InFrontAt(list, if i < k then i else i + 1, if j < k then j else j + 1);
      }
    } else {
      SublistTail(list);
    }
  }

  lemma OrderlyTail(w: Waits, w': Waits, list: seq<nat>)
    ensures Orderly(w, w', list, list) && (list != [] ==> Orderly(w, w', list, list[1..]))
  {
    hide Sublist;
    SublistTail(list);
  }

  /** Nobody is woken and no list changes. */
  lemma SameInTurn(w: Waits, w': Waits, policy: Policy)
    requires w'.receivers == w.receivers && w'.senders == w.senders
    requires forall t: nat :: !Wakes(w, w', t)
    ensures InTurn(w, w', policy)
  {
    hide Orderly;
    OrderlyTail(w, w', w.receivers);
    OrderlyTail(w, w', w.senders);
  }

  lemma FinishInTurn(w: Waits, t: nat, policy: Policy)
    requires t < |w.threads|
    ensures InTurn(w, Finish(w, t), policy)
  {
    SameInTurn(w, Finish(w, t), policy);
  }

  /** `f` is `w` but for a thread that is not asleep. */
  lemma WakeInTurn(w: Waits, f: Waits, policy: Policy, role: Role)
    requires Listed(w) && KnownThreads(f) && f.receivers == w.receivers && f.senders == w.senders
    requires |f.threads| == |w.threads|
    requires forall t :: 0 <= t < |w.threads| && w.threads[t].status == Suspended ==> f.threads[t] == w.threads[t]
    ensures InTurn(w, WakeFirst(f, role), policy)
  {
    hide Orderly;
    var w' := WakeFirst(f, role);
    OrderlyTail(w, w', w.receivers);
    OrderlyTail(w, w', w.senders);
    var list := ListOf(w, role);
    if list != [] {
      assert list[0] in list && Asleep(w.threads[list[0]], role) && list == [list[0]] + list[1..];
    }
    forall t: nat | Wakes(w, w', t)
      ensures ListOf(w, w.threads[t].role) == [t] + ListOf(w', w.threads[t].role)
    {
      assert list != [] && t == list[0];
    }
  }

  lemma ExpireInTurn(w: Waits, t: nat, policy: Policy)
    requires t < |w.threads|
    ensures InTurn(w, Expire(w, t), policy)
  {
    hide Sublist, Remove;
    SublistRemove(w.receivers, t);
    SublistRemove(w.senders, t);
    assert forall x: nat :: !Wakes(w, Expire(w, t), x);
  }

  lemma SleepInTurn(w: Waits, w': Waits, policy: Policy, t: nat, role: Role, wait: Wait)
    requires FellAsleep(w, w', policy, t, role, wait) && w.threads[t].status != Suspended
    ensures InTurn(w, w', policy)
  {
    hide Sublist, Joined;
    OrderlyTail(w, w', w.receivers);
    OrderlyTail(w, w', w.senders);
    assert FallsAsleep(w, w', t);
    if policy == Fifo {
      JoinsLast(ListOf(w, role), w.prio, t, ListOf(w', role));
    }
    assert forall x: nat :: !Wakes(w, w', x);
  }

  lemma JoinsLast(list: seq<nat>, prio: seq<nat>, t: nat, r: seq<nat>)
    requires Joined(list, prio, Fifo, t, r)
    ensures r == list + [t]
  {
    var n :| Place(list, prio, Fifo, t, n) && r == InsertAt(list, n, t);
  }

  lemma FinishKnown(w: Waits, t: nat)
    requires KnownThreads(w) && t < |w.threads| && w.threads[t].status != Suspended
    ensures var f := Finish(w, t);
      && KnownThreads(f) && f.receivers == w.receivers && f.senders == w.senders && |f.threads| == |w.threads|
      && forall x :: 0 <= x < |w.threads| && w.threads[x].status == Suspended ==> f.threads[x] == w.threads[x]
  {
  }

  /** A call of a thread that is not asleep, whatever its outcome. */
  lemma CallInTurn(w: Waits, w': Waits, policy: Policy, t: nat, role: Role, wait: Wait, o: Outcome)
    requires CallEffect(w, w', policy, t, role, wait, o) && Listed(w) && w.threads[t].status != Suspended
    ensures InTurn(w, w', policy)
  {
    hide InTurn, WakeFirst, Finish, FellAsleep;
    match o {
      case Sleeps => SleepInTurn(w, w', policy, t, role, wait);
      case Copies => FinishInTurn(w, t, policy);
      case Returns(e) =>
        FinishInTurn(w, t, policy);
        FinishKnown(w, t);
        WakeInTurn(w, Finish(w, t), policy, Other(role));
    }
  }

  /** With sorted lists nobody that goes on sleeping in the same role is more urgent. */
  lemma MostUrgentFirst(w: Waits, w': Waits, t: nat, u: nat)
    requires InTurn(w, w', Prio) && WaitsInOrder(w, Prio) && Listed(w) && Listed(w') && Wakes(w, w', t)
    requires u < |w'.threads| && Asleep(w'.threads[u], w.threads[t].role)
    ensures t < |w.prio| && u < |w.prio| && w.prio[t] <= w.prio[u]
  {
    var role := w.threads[t].role;
    var list, rest := ListOf(w, role), ListOf(w', role);
    assert u in rest;
    var k :| 0 <= k < |rest| && rest[k] == u;
    assert list[0] == t && list[k + 1] == u;
  }

  /** With the FIFO policy nobody that goes on sleeping in the same role fell asleep earlier. */
  lemma FirstFirst(h: seq<Waits>, w': Waits, t: nat, u: nat)
    requires h != [] && InTurn(h[|h| - 1], w', Fifo) && Listed(w') && Wakes(h[|h| - 1], w', t)
    requires ByArrival(h, h[|h| - 1].receivers) && ByArrival(h, h[|h| - 1].senders)
    requires u < |w'.threads| && Asleep(w'.threads[u], h[|h| - 1].threads[t].role)
    ensures Since(h, t) < Since(h, u)
  {
    hide Since, Orderly;
    var role := h[|h| - 1].threads[t].role;
    var list, rest := ListOf(h[|h| - 1], role), ListOf(w', role);
    assert u in rest;
    var k :| 0 <= k < |rest| && rest[k] == u;
    assert list[0] == t && list[k + 1] == u;
  }

  // ---- woken threads ----------------------------------------------------------------------------

  /** A thread that is woken stays as it is until it runs. */
  predicate StaysWoken(w: Waits, w': Waits, t: nat) {
    t < |w.threads| && w.threads[t].status.Woken? ==> t < |w'.threads| && w'.threads[t] == w.threads[t]
  }

  lemma WakeLeaves(w: Waits, role: Role, t: nat)
    requires Listed(w) && KnownThreads(w)
    ensures StaysWoken(w, WakeFirst(w, role), t)
  {
    var list := ListOf(w, role);
    assert list != [] ==> list[0] in list && Asleep(w.threads[list[0]], role);
  }

  lemma CallLeaves(w: Waits, w': Waits, policy: Policy, u: nat, role: Role, wait: Wait, o: Outcome, t: nat)
    requires CallEffect(w, w', policy, u, role, wait, o) && Listed(w) && u != t
    ensures StaysWoken(w, w', t)
  {
    var list := ListOf(w, Other(role));
    assert list != [] ==> list[0] in list && Asleep(w.threads[list[0]], Other(role));
  }

  lemma TimerWakes(w: Waits, t: nat)
    requires Listed(w) && t < |w.threads|
    ensures |Expire(w, t).threads| == |w.threads| && Expire(w, t).threads[t].status == Woken(ETIMEOUT)
    ensures t !in Expire(w, t).receivers && t !in Expire(w, t).senders
  {
    hide Remove;
    RemoveFacts(w.receivers, t);
    RemoveFacts(w.senders, t);
  }
}
