/**
The nodes of a message queue: linked into the queue, linked into the free list, or held by the
one thread that copies a message in or out.
*/
module MessagePool {
  import opened Lists

  type Message = seq<bv8>

  datatype Pool = Pool(
    next: seq<Option<nat>>,    // msg->next of every node
    data: seq<Message>,        // the bytes and length of every node
    head: Option<nat>,         // msg_queue_head
    tail: Option<nat>,         // msg_queue_tail
    free: Option<nat>,         // msg_queue_free
    entry: nat)

  /** What a thread does between the two locked parts of a call. */
  datatype Phase = Outside | CopyIn(node: nat, urgent: bool) | CopyOut(node: nat, size: nat)

  datatype Place = Free | Queued | Held(thread: nat)

  predicate Holds(p: Phase, n: nat) {
    p != Outside && p.node == n
  }

  // ---- chains -----------------------------------------------------------------------------------

  function Nth(nodes: seq<nat>, i: nat): Option<nat> {
    if i < |nodes| then Some(nodes[i]) else None
  }

  function Last(nodes: seq<nat>): Option<nat> {
    if nodes == [] then None else Some(nodes[|nodes| - 1])
  }

  /** Following the links from `first` visits exactly `nodes`. */
  ghost predicate Chain(next: seq<Option<nat>>, first: Option<nat>, nodes: seq<nat>) {
    && first == Nth(nodes, 0) && Distinct(nodes)
    && (forall i :: 0 <= i < |nodes| ==> nodes[i] < |next|)
    && (forall i, j :: 0 <= i && j == i + 1 && j <= |nodes| ==> next[nodes[i]] == Nth(nodes, j))
  }

  /** Links of nodes outside the chain do not matter. */
  lemma ChainFrame(next: seq<Option<nat>>, first: Option<nat>, nodes: seq<nat>, n: nat, to: Option<nat>)
    requires Chain(next, first, nodes) && n !in nodes && n < |next|
    ensures Chain(next[n := to], first, nodes)
  {
    forall i, j | 0 <= i && j == i + 1 && j <= |nodes| ensures next[n := to][nodes[i]] == Nth(nodes, j) {
      assert nodes[i] in nodes;
    }
  }

  lemma ChainPop(next: seq<Option<nat>>, first: Option<nat>, nodes: seq<nat>)
    requires Chain(next, first, nodes) && first != None
    ensures nodes != [] && first == Some(nodes[0]) && nodes[0] < |next| && nodes[0] !in nodes[1..]
    ensures Chain(next, next[nodes[0]], nodes[1..])
  {
    var rest := nodes[1..];
    assert next[nodes[0]] == Nth(nodes, 1);
    forall i, j | 0 <= i && j == i + 1 && j <= |rest| ensures next[rest[i]] == Nth(rest, j) {
      var i', j' := i + 1, j + 1;
      assert next[nodes[i']] == Nth(nodes, j');
    }
  }

  lemma ChainPush(next: seq<Option<nat>>, first: Option<nat>, nodes: seq<nat>, n: nat)
    requires Chain(next, first, nodes) && n !in nodes && n < |next|
    ensures Chain(next[n := first], Some(n), [n] + nodes)
  {
    ChainFrame(next, first, nodes, n, first);
    var all, next' := [n] + nodes, next[n := first];
    forall i, j | 0 <= i && j == i + 1 && j <= |all| ensures next'[all[i]] == Nth(all, j) {
      if i > 0 {
        var i', j' := i - 1, j - 1;
        assert next'[nodes[i']] == Nth(nodes, j');
      }
    }
  }

  lemma ChainAppend(next: seq<Option<nat>>, first: Option<nat>, nodes: seq<nat>, n: nat)
    requires Chain(next, first, nodes) && n !in nodes && n < |next| && next[n] == None
    ensures nodes == [] ==> Chain(next, Some(n), [n])
    ensures nodes != [] ==> var l := nodes[|nodes| - 1]; l < |next| && Chain(next[l := Some(n)], first, nodes + [n])
  {
    if nodes != [] {
      var all, l := nodes + [n], nodes[|nodes| - 1];
      var next' := next[l := Some(n)];
      assert l in nodes;
      forall i, j | 0 <= i && j == i + 1 && j <= |all| ensures next'[all[i]] == Nth(all, j) {
        if i < |nodes| {
          assert next[nodes[i]] == Nth(nodes, j);
        }
      }
    }
  }

  // ---- the pool ---------------------------------------------------------------------------------

  ghost predicate Linked(p: Pool, queue: seq<nat>, free: seq<nat>) {
    && |p.data| == |p.next|
    && Chain(p.next, p.head, queue) && p.tail == Last(queue) && p.entry == |queue|
    && Chain(p.next, p.free, free)
  }

  /** `list` holds exactly the nodes at place `at`. */
  ghost predicate ListedAt(place: seq<Place>, list: seq<nat>, at: Place) {
    forall x: nat :: x in list <==> x < |place| && place[x] == at
  }

  /** A held node is held by exactly one thread. */
  ghost predicate HeldOnce(place: seq<Place>, phase: seq<Phase>) {
    && (forall t: nat :: t < |phase| && phase[t] != Outside ==>
        phase[t].node < |place| && place[phase[t].node] == Held(t))
    && (forall x: nat :: x < |place| && place[x].Held? ==>
        place[x].thread < |phase| && Holds(phase[place[x].thread], x))
  }

  /** Every node is in exactly one place. */
  ghost predicate Placed(queue: seq<nat>, free: seq<nat>, place: seq<Place>, phase: seq<Phase>) {
    ListedAt(place, queue, Queued) && ListedAt(place, free, Free) && HeldOnce(place, phase)
  }

  lemma MovedList(place: seq<Place>, list: seq<nat>, at: Place, x: nat, to: Place, list': seq<nat>)
    requires ListedAt(place, list, at) && x < |place|
    requires forall y :: y in list' <==> (y in list && y != x) || (y == x && to == at)
    ensures ListedAt(place[x := to], list', at)
  {
    forall y: nat ensures y in list' <==> y < |place| && place[x := to][y] == at {
      assert y in list <==> y < |place| && place[y] == at;
    }
  }

  /** A thread takes a node. */
  lemma Grabbed(place: seq<Place>, phase: seq<Phase>, x: nat, t: nat, ph: Phase)
    requires HeldOnce(place, phase) && x < |place| && t < |phase|
    requires !place[x].Held? && phase[t] == Outside && Holds(ph, x)
    ensures HeldOnce(place[x := Held(t)], phase[t := ph])
  {
  }

  /** A thread lets go of its node. */
  lemma LetGo(place: seq<Place>, phase: seq<Phase>, x: nat, t: nat, to: Place)
    requires HeldOnce(place, phase) && x < |place| && t < |phase| && Holds(phase[t], x) && !to.Held?
    ensures place[x] == Held(t) && HeldOnce(place[x := to], phase[t := Outside])
  {
  }

  /** The queued messages, the next to be received first. */
  ghost function Messages(data: seq<Message>, queue: seq<nat>): seq<Message> {
    seq(|queue|, i requires 0 <= i < |queue| => if queue[i] < |data| then data[queue[i]] else [])
  }

  lemma MessagesFrame(data: seq<Message>, queue: seq<nat>, n: nat, m: Message)
    requires n !in queue && n < |data|
    ensures Messages(data[n := m], queue) == Messages(data, queue)
  {
    assert forall i :: 0 <= i < |queue| ==> queue[i] in queue;
  }

  /** A node taken off the free list. */
  lemma TakeFree(p: Pool, queue: seq<nat>, free: seq<nat>)
    requires Linked(p, queue, free) && p.free != None
    ensures free != [] && p.free == Some(free[0]) && free[0] < |p.next|
    ensures Linked(p.(free := p.next[free[0]]), queue, free[1..])
  {
    ChainPop(p.next, p.free, free);
  }

  /** A node put on the free list. */
  lemma PutFree(p: Pool, queue: seq<nat>, free: seq<nat>, n: nat)
    requires Linked(p, queue, free) && n !in queue && n !in free && n < |p.next|
    ensures Linked(p.(next := p.next[n := p.free], free := Some(n)), queue, [n] + free)
  {
    ChainFrame(p.next, p.head, queue, n, p.free);
    ChainPush(p.next, p.free, free, n);
  }

  /** The first node taken off the queue. */
  lemma TakeHead(p: Pool, queue: seq<nat>, free: seq<nat>)
    requires Linked(p, queue, free) && p.entry > 0
    ensures queue != [] && p.head == Some(queue[0]) && queue[0] < |p.next|
    ensures var tail := if p.tail == p.head then None else p.tail;
      Linked(p.(head := p.next[queue[0]], tail := tail, entry := p.entry - 1), queue[1..], free)
    ensures Messages(p.data, queue) == [p.data[queue[0]]] + Messages(p.data, queue[1..])
  {
    ChainPop(p.next, p.head, queue);
  }

  /** What linking `n` behind the last node leaves. */
  function Behind(p: Pool, n: nat): (r: Pool)
    requires n < |p.next| && (p.tail == None || p.tail.value < |p.next|)
    ensures |r.next| == |p.next| && r.data == p.data
  {
    var next := p.next[n := None];
    p.(next := if p.tail == None then next else next[p.tail.value := Some(n)],
       tail := Some(n), head := if p.head == None then Some(n) else p.head)
  }

  function Before(p: Pool, n: nat): (r: Pool)
    requires n < |p.next|
    ensures |r.next| == |p.next| && r.data == p.data
  {
    p.(next := p.next[n := p.head], head := Some(n), tail := if p.tail == None then Some(n) else p.tail)
  }

  lemma TailKnown(p: Pool, queue: seq<nat>, free: seq<nat>)
    requires Linked(p, queue, free)
    ensures p.tail == None || p.tail.value < |p.next|
    ensures p.tail == None <==> queue == []
    ensures p.head == None <==> queue == []
  {
  }

  lemma LinkBehind(p: Pool, queue: seq<nat>, free: seq<nat>, n: nat)
    requires Linked(p, queue, free) && n !in queue && n !in free && n < |p.next|
    requires forall x :: x in queue ==> x !in free
    ensures p.tail == None || p.tail.value < |p.next|
    ensures Linked(Behind(p, n).(entry := p.entry + 1), queue + [n], free)
  {
    TailKnown(p, queue, free);
    ChainFrame(p.next, p.head, queue, n, None);
    ChainFrame(p.next, p.free, free, n, None);
    var next := p.next[n := None];
    ChainAppend(next, p.head, queue, n);
    if queue != [] {
      var l := queue[|queue| - 1];
      assert l in queue;
      ChainFrame(next, p.free, free, l, Some(n));
    } else {
      assert queue + [n] == [n];
    }
  }

  lemma LinkBefore(p: Pool, queue: seq<nat>, free: seq<nat>, n: nat)
    requires Linked(p, queue, free) && n !in queue && n !in free && n < |p.next|
    ensures Linked(Before(p, n).(entry := p.entry + 1), [n] + queue, free)
  {
    TailKnown(p, queue, free);
    ChainPush(p.next, p.head, queue, n);
    ChainFrame(p.next, p.free, free, n, p.head);
  }
}
