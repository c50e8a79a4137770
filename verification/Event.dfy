/**
Events: a word of flags and the threads waiting for some or all of the flags they name.
A send, a receive up to its `rt_schedule`, its return after a wakeup and a timeout are one step
each. A word of flags is the set of its bit numbers, so that bitwise or, and, and-not are `+`, `*`
and `-`.
*/
module Event {
  import opened Ledger
  import opened Lists
  import opened SuspendList

  type Flags = set<nat>

  /** RT_EVENT_FLAG_AND, RT_EVENT_FLAG_OR, RT_EVENT_FLAG_CLEAR */
  datatype Mode = Mode(all: bool, any: bool, clear: bool)

  datatype Error = EOK | ERROR | ETIMEOUT | EINTR | EINVAL

  /** Where a thread stands: outside, or past `rt_schedule` in a receive of `want`. */
  datatype Call = Idle | Receiving(want: Flags, timed: bool)

  datatype Thread = Thread(
    eventSet: Flags,    // flags asked for, then flags received
    eventInfo: Mode,
    error: Error,
    call: Call)

  // ---- conditions --------------------------------------------------------------------------

  predicate HasMode(mode: Mode) {
    mode.all || mode.any
  }

  /** The flags in `have` meet a receive of `want`; AND wins over OR. */
  predicate Meets(want: Flags, mode: Mode, have: Flags) {
    if mode.all then want * have == want else mode.any && want * have != {}
  }

  /** RT_EVENT_FLAG_AND asks for every flag named, RT_EVENT_FLAG_OR for at least one. */
  lemma MeetsMeans(want: Flags, mode: Mode, have: Flags)
    ensures mode.all ==> (Meets(want, mode, have) <==> want <= have)
    ensures !mode.all && mode.any ==> (Meets(want, mode, have) <==> exists f :: f in want && f in have)
    ensures !mode.all && !mode.any ==> !Meets(want, mode, have)
  {
    if f :| f in want && f in have {
      assert f in want * have;
    }
    if f :| f in want * have {
      assert f in want && f in have;
    }
  }

  predicate Satisfied(th: Thread, have: Flags) {
    Meets(th.eventSet, th.eventInfo, have)
  }

  /** Fewer flags never satisfy more. */
  lemma FewerFlags(want: Flags, mode: Mode, have: Flags, gone: Flags)
    requires Meets(want, mode, have - gone)
    ensures Meets(want, mode, have)
  {
    assert want * (have - gone) <= want * have <= want;
    if !mode.all {
      var b :| b in want * (have - gone);
      assert b in want * have;
    }
  }

  /** The flags a satisfied receiver gets. */
  function Received(th: Thread, have: Flags): (r: Flags)
    requires Satisfied(th, have)
    ensures r == th.eventSet * have
  {
    if th.eventInfo.all then th.eventSet else th.eventSet * have
  }

  // ---- what a send does to the waiting threads -----------------------------------------------

  /** The waiting threads `have` does not satisfy, in order. */
  function StillWaiting(ts: seq<Thread>, ws: seq<nat>, have: Flags): seq<nat>
    requires Known(ws, |ts|)
  {
    if ws == [] then [] else
      var n, w := |ws| - 1, ws[|ws| - 1];
      StillWaiting(ts, ws[..n], have) + (if Satisfied(ts[w], have) then [] else [w])
  }

  /** The threads of `ws` that `have` satisfies get their flags. */
  function Woken(ts: seq<Thread>, ws: seq<nat>, have: Flags): seq<Thread> {
    seq(|ts|, i requires 0 <= i < |ts| =>
      if i in ws && Satisfied(ts[i], have) then ts[i].(eventSet := Received(ts[i], have), error := EOK) else ts[i])
  }

  /** `th` is woken, has asked to clear what it receives, and receives `f`. */
  predicate TakesFlag(th: Thread, have: Flags, f: nat) {
    Satisfied(th, have) && th.eventInfo.clear && f in th.eventSet && f in have
  }

  /** The flags `th` takes away if `have` wakes it. */
  function Taken(th: Thread, have: Flags): (r: Flags)
    ensures forall f :: f in r <==> TakesFlag(th, have, f)
  {
    if Satisfied(th, have) && th.eventInfo.clear then Received(th, have) else {}
  }

  /** All flags taken away by the threads of `ws`. */
  function ToClear(ts: seq<Thread>, ws: seq<nat>, have: Flags): Flags
    requires Known(ws, |ts|)
  {
    if ws == [] then {} else
      ToClear(ts, ws[..|ws| - 1], have) + Taken(ts[ws[|ws| - 1]], have)
  }

  /** A flag is cleared exactly if a woken thread received it and asked to clear it. */
  lemma {:induction false} ToClearIsUnion(ts: seq<Thread>, ws: seq<nat>, have: Flags, flag: nat)
    requires Known(ws, |ts|)
    ensures flag in ToClear(ts, ws, have) <==> exists i :: 0 <= i < |ws| && TakesFlag(ts[ws[i]], have, flag)
    decreases |ws|
  {
    hide Taken, TakesFlag;
    if ws != [] {
      var n := |ws| - 1;
      var before := ws[..n];
      ToClearIsUnion(ts, before, have, flag);
      assert forall i :: 0 <= i < n ==> before[i] == ws[i];
    }
  }

  lemma {:induction false} StillWaitingMembers(ts: seq<Thread>, ws: seq<nat>, have: Flags)
    requires Known(ws, |ts|)
    ensures Known(StillWaiting(ts, ws, have), |ts|)
    ensures forall w :: w in StillWaiting(ts, ws, have) <==> w in ws && w < |ts| && !Satisfied(ts[w], have)
    decreases |ws|
  {
    hide Satisfied;
    if ws != [] {
      var n := |ws| - 1;
      StillWaitingMembers(ts, ws[..n], have);
      assert ws == ws[..n] + [ws[n]];
    }
  }

  // ---- the invariant -------------------------------------------------------------------------

  /** No suspended thread waits for flags that are there. */
  ghost predicate NobodyForgotten(ts: seq<Thread>, ws: seq<nat>, have: Flags) {
    forall w :: w in ws ==> w < |ts| && HasMode(ts[w].eventInfo) && !Satisfied(ts[w], have)
  }

  /** A thread in a receive is suspended as it asked to be, or was woken with flags that satisfy what
      it asked for, or timed out. */
  ghost predicate CallOk(th: Thread, suspended: bool) {
    match th.call
    case Idle => !suspended
    case Receiving(want, timed) =>
      && want != {} && HasMode(th.eventInfo)
      && if suspended then th.eventSet == want && th.error == EINTR
         else if th.error == EOK then Answers(th.eventSet, want, th.eventInfo)
         else th.error == ETIMEOUT
  }

  /** `got` satisfies a receive of `want`, and there is nothing else in it. */
  ghost predicate Answers(got: Flags, want: Flags, mode: Mode) {
    got != {} && got <= want && Meets(want, mode, got)
  }

  /** A receiver gets flags it asked for, all of them if it asked with AND. */
  lemma AnswersMean(got: Flags, want: Flags, mode: Mode)
    requires Answers(got, want, mode)
    ensures got != {} && got <= want && (mode.all ==> got == want)
  {
    MeetsMeans(want, mode, got);
  }

  /** No sleeper could go on: an AND receiver lacks a flag, an OR receiver all. */
  lemma WaitsRightly(ts: seq<Thread>, ws: seq<nat>, have: Flags, t: nat)
    requires NobodyForgotten(ts, ws, have) && t in ws
    ensures t < |ts| && if ts[t].eventInfo.all then !(ts[t].eventSet <= have) else ts[t].eventSet !! have
  {
    MeetsMeans(ts[t].eventSet, ts[t].eventInfo, have);
  }

  ghost predicate CallsOk(ts: seq<Thread>, ws: seq<nat>) {
    forall t :: 0 <= t < |ts| ==> CallOk(ts[t], t in ws)
  }

  /** How far a send gets: up to the first waiter without a mode. */
  function Reach(ts: seq<Thread>, ws: seq<nat>): (k: nat)
    requires Known(ws, |ts|)
    ensures k <= |ws|
    ensures k < |ws| ==> !HasMode(ts[ws[k]].eventInfo)
    ensures forall i :: 0 <= i < k ==> HasMode(ts[ws[i]].eventInfo)
  {
    if ws == [] then 0 else
      var k := Reach(ts, ws[..|ws| - 1]);
      assert forall i :: 0 <= i < |ws| - 1 ==> ws[..|ws| - 1][i] == ws[i];
      if k < |ws| - 1 || !HasMode(ts[ws[|ws| - 1]].eventInfo) then k else k + 1
  }

  lemma ReachIs(ts: seq<Thread>, ws: seq<nat>, k: nat)
    requires Known(ws, |ts|) && k <= |ws|
    requires forall i :: 0 <= i < k ==> HasMode(ts[ws[i]].eventInfo)
    requires k < |ws| ==> !HasMode(ts[ws[k]].eventInfo)
    ensures Reach(ts, ws) == k
  {
  }

  /** The first `k` of the waiters `ws` have been judged. */
  ghost predicate Progress(ts: seq<Thread>, ws: seq<nat>, k: nat, have: Flags,
                           waiting: seq<nat>, n: nat, threads: seq<Thread>, needClear: Flags) {
    && Known(ws, |ts|) && Distinct(ws) && k <= |ws| && Known(ws[..k], |ts|)
    && waiting == StillWaiting(ts, ws[..k], have) + ws[k..] && n == |StillWaiting(ts, ws[..k], have)|
    && threads == Woken(ts, ws[..k], have) && needClear == ToClear(ts, ws[..k], have)
    && forall i :: 0 <= i < k ==> HasMode(ts[ws[i]].eventInfo)
  }

  lemma ProgressStarts(ts: seq<Thread>, ws: seq<nat>, have: Flags)
    requires Known(ws, |ts|) && Distinct(ws)
    ensures Progress(ts, ws, 0, have, ws, 0, ts, {})
  {
    SendStarts(ts, ws, have);
    assert ws[0..] == ws;
  }

  lemma ProgressStep(ts: seq<Thread>, ws: seq<nat>, k: nat, have: Flags,
                     waiting: seq<nat>, n: nat, threads: seq<Thread>, needClear: Flags)
    requires Progress(ts, ws, k, have, waiting, n, threads, needClear) && n < |waiting|
    ensures k < |ws| && |threads| == |ts| && waiting[n] == ws[k] < |ts| && threads[ws[k]] == ts[ws[k]]
    ensures HasMode(ts[ws[k]].eventInfo) ==> var t := ws[k];
      if Satisfied(ts[t], have) then
        Progress(ts, ws, k + 1, have, Remove(waiting, t), n,
                 threads[t := ts[t].(eventSet := Received(ts[t], have), error := EOK)],
                 if ts[t].eventInfo.clear then needClear + Received(ts[t], have) else needClear)
      else Progress(ts, ws, k + 1, have, waiting, n + 1, threads, needClear)
  {
    hide Satisfied;
    hide StillWaiting;
    hide Woken;
    hide ToClear;
    hide Remove;
    SendStep(ts, ws, k, have);
    WakeStep(ts, ws, k, have);
  }

  lemma ProgressEnds(ts: seq<Thread>, ws: seq<nat>, k: nat, have: Flags,
                     waiting: seq<nat>, n: nat, threads: seq<Thread>, needClear: Flags)
    requires Progress(ts, ws, k, have, waiting, n, threads, needClear)
    requires n < |waiting| ==> k < |ws| && ws[k] < |ts| && !HasMode(ts[ws[k]].eventInfo)
    ensures k == Reach(ts, ws) && (k == |ws| <==> n >= |waiting|)
    ensures waiting == StillWaiting(ts, ws[..k], have) + ws[k..]
    ensures threads == Woken(ts, ws[..k], have) && needClear == ToClear(ts, ws[..k], have)
  {
    ReachIs(ts, ws, k);
  }

  lemma SendStarts(ts: seq<Thread>, ws: seq<nat>, have: Flags)
    requires Known(ws, |ts|)
    ensures Woken(ts, ws[..0], have) == ts && StillWaiting(ts, ws[..0], have) == [] && ToClear(ts, ws[..0], have) == {}
  {
  }

  lemma Prefix(ws: seq<nat>, k: nat)
    requires k < |ws|
    ensures var b := ws[..k + 1]; |b| == k + 1 && b[..k] == ws[..k] && b[k] == ws[k] && b == ws[..k] + [ws[k]]
  {
  }

  /** What judging the waiter at `k` adds to the flags taken. */
  lemma ClearStep(ts: seq<Thread>, ws: seq<nat>, k: nat, have: Flags)
    requires Known(ws, |ts|) && k < |ws|
    ensures Known(ws[..k], |ts|) && Known(ws[..k + 1], |ts|)
    ensures ToClear(ts, ws[..k + 1], have) == if Satisfied(ts[ws[k]], have) && ts[ws[k]].eventInfo.clear
      then ToClear(ts, ws[..k], have) + Received(ts[ws[k]], have) else ToClear(ts, ws[..k], have)
  {
    hide Satisfied;
    Prefix(ws, k);
  }

  /** What judging the waiter at `k` adds to the list of those left. */
  lemma LeftStep(ts: seq<Thread>, ws: seq<nat>, k: nat, have: Flags)
    requires Known(ws, |ts|) && k < |ws|
    ensures Known(ws[..k], |ts|) && Known(ws[..k + 1], |ts|)
    ensures StillWaiting(ts, ws[..k + 1], have)
      == StillWaiting(ts, ws[..k], have) + if Satisfied(ts[ws[k]], have) then [] else [ws[k]]
  {
    hide Satisfied;
    Prefix(ws, k);
  }

  /** Both, and what is left of the list itself. */
  lemma SendStep(ts: seq<Thread>, ws: seq<nat>, k: nat, have: Flags)
    requires Known(ws, |ts|) && Distinct(ws) && k < |ws|
    ensures ws[..k + 1] == ws[..k] + [ws[k]] && Known(ws[..k], |ts|) && Known(ws[..k + 1], |ts|)
    ensures ToClear(ts, ws[..k + 1], have) == if Satisfied(ts[ws[k]], have) && ts[ws[k]].eventInfo.clear
      then ToClear(ts, ws[..k], have) + Received(ts[ws[k]], have) else ToClear(ts, ws[..k], have)
    ensures var left, left' := StillWaiting(ts, ws[..k], have), StillWaiting(ts, ws[..k + 1], have);
      if Satisfied(ts[ws[k]], have)
      then left' == left && Remove(left + ws[k..], ws[k]) == left + ws[k + 1..]
      else left' == left + [ws[k]] && left + ws[k..] == left' + ws[k + 1..]
  {
    hide Satisfied, Remove, StillWaiting, ToClear;
    var left := StillWaiting(ts, ws[..k], have);
    ClearStep(ts, ws, k, have);
    LeftStep(ts, ws, k, have);
    StillWaitingMembers(ts, ws[..k], have);
    assert ws[k] !in left by { assert ws[k] !in ws[..k]; }
    assert ws[k..] == [ws[k]] + ws[k + 1..];
    assert left + ws[k..] == left + [ws[k]] + ws[k + 1..];
    RemoveMiddle(left, ws[k], ws[k + 1..]);
  }

  /** The waiter at `k` has not been judged before, and judging it touches no other thread. */
  lemma WakeStep(ts: seq<Thread>, ws: seq<nat>, k: nat, have: Flags)
    requires Known(ws, |ts|) && Distinct(ws) && k < |ws|
    ensures var t, before, after := ws[k], Woken(ts, ws[..k], have), Woken(ts, ws[..k + 1], have);
      && |before| == |ts| && before[t] == ts[t]
      && after == before[t := if !Satisfied(ts[t], have) then ts[t]
                              else ts[t].(eventSet := Received(ts[t], have), error := EOK)]
  {
    hide Satisfied;
    assert ws[..k + 1] == ws[..k] + [ws[k]];
    assert ws[k] !in ws[..k];
  }

  class EventObject {
    var flags: Flags
    var waiting: seq<nat>      // parent.suspend_thread
    var threads: seq<Thread>
    var prio: seq<nat>         // current_priority of each thread
    const policy: Policy

    ghost predicate Valid()
      reads this
    {
      && |prio| == |threads| && Known(waiting, |threads|) && Distinct(waiting)
      && NobodyForgotten(threads, waiting, flags) && CallsOk(threads, waiting)
    }

    ghost function View(): State
      reads this
    {
      State(flags, waiting, threads, prio)
    }

    ghost predicate Sorted()
      reads this
    {
      InOrder(waiting, prio, policy)
    }

    constructor (policy: Policy, prio: seq<nat>)
      ensures Valid() && flags == {} && waiting == []
      ensures this.policy == policy && this.prio == prio
    {
      this.policy, this.prio := policy, prio;
      flags, waiting := {}, [];
      threads := seq(|prio|, _ => Thread({}, Mode(false, false, false), EOK, Idle));
    }

    /** `rt_event_send`, for any waiting list. */
    method Send(set': Flags) returns (r: Error)
      requires Known(waiting, |threads|) && Distinct(waiting)
      modifies this`flags, this`waiting, this`threads
      ensures |threads| == |old(threads)| && Known(waiting, |threads|) && Distinct(waiting)
      ensures r ==
        if set' == {} then ERROR else if Reach(old(threads), old(waiting)) < |old(waiting)| then EINVAL else EOK
      ensures r == ERROR ==> flags == old(flags) && waiting == old(waiting) && threads == old(threads)
      ensures r != ERROR ==>
        var have, ts, ws := old(flags) + set', old(threads), old(waiting);
        var k := Reach(ts, ws);
        && waiting == StillWaiting(ts, ws[..k], have) + ws[k..]
        && threads == Woken(ts, ws[..k], have)
        && flags == if r == EOK then have - ToClear(ts, ws, have) else have
      ensures old(Valid()) ==> r != EINVAL && Valid()
      ensures old(Sorted()) ==> Sorted()
    {
      hide StillWaiting, Woken, ToClear, Known, Distinct, Reach, NobodyForgotten, CallsOk, InOrder;
      ghost var ts, ws := threads, waiting;
      if set' == {} {
        return ERROR;
      }
      flags := flags + set';
      assert waiting[..|waiting|] == waiting;
      var needClear;
      r, needClear := WakeAll();
      if old(Valid()) {
        SendKeeps(ts, ws, old(flags), flags);
        SendAnswers(ts, ws, flags);
      }
      if old(Sorted()) {
        SendInOrder(ts, ws, Reach(ts, ws), flags, prio, policy);
      }
      if r == EOK {
        flags := flags - needClear;
      }
    }

    /** `rt_event_recv` by thread `t`, up to the point where it returns or sleeps. */
    method Recv(t: nat, want: Flags, mode: Mode, timeout: int)
      returns (r: Error, recved: Flags, sleeps: bool, ghost pos: nat)
      requires Valid() && t < |threads| && threads[t].call == Idle && HasMode(mode)
      modifies this`flags, this`waiting, this`threads
      ensures Valid() && |threads| == |old(threads)| && (old(Sorted()) ==> Sorted())
      ensures want == {} ==>
        r == ERROR && !sleeps && flags == old(flags) && waiting == old(waiting) && threads == old(threads)
      ensures want != {} ==> threads == old(threads)[t := threads[t]]
      ensures want != {} && Meets(want, mode, old(flags)) ==>
        && r == EOK && !sleeps && recved == want * old(flags) && recved != {}
        && threads[t] == Thread(recved, mode, EOK, Idle) && Answers(recved, want, mode) && waiting == old(waiting)
        && flags == if mode.clear then old(flags) - recved else old(flags)
      ensures want != {} && !Meets(want, mode, old(flags)) ==>
        && flags == old(flags) && sleeps == (timeout != 0)
        && (timeout == 0 ==> r == ETIMEOUT && waiting == old(waiting))
        && (timeout == 0 ==> threads[t] == old(threads)[t].(error := ETIMEOUT))
        && (sleeps ==> threads[t] == Thread(want, mode, EINTR, Receiving(want, timeout > 0)))
        && (sleeps ==> Place(old(waiting), prio, policy, t, pos) && waiting == InsertAt(old(waiting), pos, t))
      ensures want != {} && mode.all ==> (r == EOK && !sleeps <==> want <= old(flags))
      ensures want != {} && mode.all && r == EOK && !sleeps ==> recved == want
      ensures want != {} && !mode.all ==> (r == EOK && !sleeps <==> exists f :: f in want && f in old(flags))
    {
      hide InOrder;
      MeetsMeans(want, mode, flags);
      r, recved, sleeps, pos := ERROR, {}, false, 0;
      if want == {} {
        return;
      }
      threads := threads[t := threads[t].(error := EINTR)];
      var status := false;
      if mode.all {
        status := flags * want == want;
      } else if mode.any {
        status := flags * want != {};
      }
      assert flags * want == want * flags;
      if status {
        recved := flags * want;
        threads := threads[t := threads[t].(error := EOK, eventSet := flags * want, eventInfo := mode)];
        assert want * flags != {} by { assert mode.all ==> want * flags == want; }
        if mode.clear {
          FewerKeep(threads, waiting, flags, want);
          assert flags - want == flags - want * flags;
          flags := flags - want;
        }
        return EOK, recved, false, 0;
      } else if timeout == 0 {
        threads := threads[t := threads[t].(error := ETIMEOUT)];
        return ETIMEOUT, {}, false, 0;
      }
      threads := threads[t := threads[t].(eventSet := want, eventInfo := mode, call := Receiving(want, timeout > 0))];
      var n;
      waiting, n := Enqueue(waiting, prio, policy, t);
      return EOK, {}, true, n;
    }

    /** The code of `rt_event_recv` behind `rt_schedule`: the receiver was woken with flags that
        satisfy what it asked for, or it timed out. */
    method Resume(t: nat) returns (r: Error, recved: Flags)
      requires Valid() && t < |threads| && t !in waiting && threads[t].call.Receiving?
      modifies this`threads
      ensures Valid() && threads == old(threads)[t := old(threads)[t].(call := Idle)]
      ensures var th := old(threads)[t];
        && r == th.error
        && if r == EOK then recved == th.eventSet && Answers(recved, th.call.want, th.eventInfo)
           else r == ETIMEOUT && recved == {}
      ensures var th := old(threads)[t];
        r == EOK ==> recved != {} && recved <= th.call.want && (th.eventInfo.all ==> recved == th.call.want)
    {
      assert CallOk(threads[t], false);
      if threads[t].error == EOK {
        AnswersMean(threads[t].eventSet, threads[t].call.want, threads[t].eventInfo);
      }
      r, recved := threads[t].error, {};
      if r == EOK {
        recved := threads[t].eventSet;
      }
      threads := threads[t := threads[t].(call := Idle)];
    }

    /** `_thread_timeout` of a thread suspended on the event. */
    method Timeout(t: nat)
      requires Valid() && t in waiting && t < |threads| && threads[t].call.Receiving? && threads[t].call.timed
      modifies this`waiting, this`threads
      ensures Valid() && waiting == Remove(old(waiting), t) && (old(Sorted()) ==> Sorted())
      ensures threads == old(threads)[t := old(threads)[t].(error := ETIMEOUT)]
    {
      hide Remove, InOrder, Known, Distinct;
      RemoveKnown(waiting, |threads|, t);
      if Sorted() {
        RemoveInOrder(waiting, prio, policy, t);
      }
      waiting := Remove(waiting, t);
      threads := threads[t := threads[t].(error := ETIMEOUT)];
    }

    /** `rt_sched_thread_change_priority`: a suspended thread stays where it is in the list. */
    method ChangePriority(t: nat, p: nat)
      requires Valid() && t < |prio|
      modifies this`prio
      ensures Valid() && prio == old(prio)[t := p]
    {
      prio := prio[t := p];
    }

    /** The walk over the suspended threads. */
    method WakeAll() returns (r: Error, needClear: Flags)
      requires Known(waiting, |threads|) && Distinct(waiting)
      modifies this`waiting, this`threads
      ensures |threads| == |old(threads)| && Known(waiting, |threads|) && Distinct(waiting)
      ensures r == if Reach(old(threads), old(waiting)) < |old(waiting)| then EINVAL else EOK
      ensures var ts, ws := old(threads), old(waiting);
        var done := ws[..Reach(ts, ws)];
        && waiting == StillWaiting(ts, done, flags) + ws[|done|..]
        && threads == Woken(ts, done, flags) && needClear == ToClear(ts, done, flags)
    {
      hide Progress;
      hide StillWaiting;
      hide Woken;
      hide ToClear;
      hide Satisfied;
      hide Received;
      hide HasMode;
      hide Reach;
      hide Remove;
      hide Known;
      hide Distinct;
      ghost var ts, ws, k := threads, waiting, 0;
      var n: nat := 0;
      needClear := {};
      ProgressStarts(ts, ws, flags);
      while n < |waiting|
        invariant |threads| == |ts| && Known(waiting, |threads|) && Distinct(waiting) && k <= |ws|
        invariant Progress(ts, ws, k, flags, waiting, n, threads, needClear)
        decreases |ws| - k
      {
        var t := waiting[n];
        ProgressStep(ts, ws, k, flags, waiting, n, threads, needClear);
        var status;
        status, needClear := WakeOne(t, needClear);
        if status == EINVAL {
          ProgressEnds(ts, ws, k, flags, waiting, n, threads, needClear);
          return EINVAL, needClear;
        }
        if status == ERROR {
          n := n + 1;
        }
        k := k + 1;
      }
      ProgressEnds(ts, ws, k, flags, waiting, n, threads, needClear);
      return EOK, needClear;
    }

    /** One turn of the walk: the waiter `t` is woken if it is satisfied. */
    method WakeOne(t: nat, clear: Flags) returns (status: Error, needClear: Flags)
      requires Known(waiting, |threads|) && Distinct(waiting) && t < |threads|
      modifies this`waiting, this`threads
      ensures |threads| == |old(threads)| && Known(waiting, |threads|) && Distinct(waiting)
      ensures var th := old(threads)[t];
        status == if !HasMode(th.eventInfo) then EINVAL else if Satisfied(th, flags) then EOK else ERROR
      ensures status != EOK ==> waiting == old(waiting) && threads == old(threads) && needClear == clear
      ensures status == EOK ==>
        var th := old(threads)[t];
        && waiting == Remove(old(waiting), t)
        && threads == old(threads)[t := th.(eventSet := Received(th, flags), error := EOK)]
        && needClear == if th.eventInfo.clear then clear + Received(th, flags) else clear
    {
      hide Known;
      hide Distinct;
      hide Satisfied;
      hide Received;
      hide Remove;
      needClear := clear;
      status := Judge(t);
      if status == EOK {
        if threads[t].eventInfo.clear {
          needClear := needClear + threads[t].eventSet;
        }
        RemoveKnown(waiting, |threads|, t);
        waiting := Remove(waiting, t);
        threads := threads[t := threads[t].(error := EOK)];
      }
    }

    /** Whether the waiter `t` is satisfied; an OR waiter keeps what it received. */
    method Judge(t: nat) returns (status: Error)
      requires t < |threads|
      modifies this`threads
      ensures var th := old(threads)[t];
        if !HasMode(th.eventInfo) then status == EINVAL && threads == old(threads)
        else if Satisfied(th, flags)
        then status == EOK && threads == old(threads)[t := th.(eventSet := Received(th, flags))]
        else status == ERROR && threads == old(threads)
      ensures var th := old(threads)[t];
        && (th.eventInfo.all ==> (status == EOK <==> th.eventSet <= flags) && threads[t] == th)
        && (!th.eventInfo.all && th.eventInfo.any ==> (status == EOK <==> exists f :: f in th.eventSet && f in flags))
    {
      MeetsMeans(threads[t].eventSet, threads[t].eventInfo, flags);
      status := ERROR;
      if threads[t].eventInfo.all {
        if threads[t].eventSet * flags == threads[t].eventSet {
          status := EOK;
        }
      } else if threads[t].eventInfo.any {
        if threads[t].eventSet * flags != {} {
          threads := threads[t := threads[t].(eventSet := threads[t].eventSet * flags)];
          status := EOK;
        }
      } else {
        return EINVAL;
      }
    }
  }

  /** After a send nobody waits for flags that are there. */
  lemma SendKeeps(ts: seq<Thread>, ws: seq<nat>, before: Flags, have: Flags)
    requires Known(ws, |ts|) && Distinct(ws) && NobodyForgotten(ts, ws, before)
    ensures Reach(ts, ws) == |ws| && ws[..|ws|] == ws
    ensures StillWaiting(ts, ws, have) + ws[|ws|..] == StillWaiting(ts, ws, have)
    ensures NobodyForgotten(Woken(ts, ws, have), StillWaiting(ts, ws, have), have - ToClear(ts, ws, have))
  {
    hide Satisfied;
    ReachIs(ts, ws, |ws|);
    StillWaitingMembers(ts, ws, have);
    forall w | w in StillWaiting(ts, ws, have)
      ensures !Satisfied(Woken(ts, ws, have)[w], have - ToClear(ts, ws, have))
    {
      FewerFlagsThread(ts[w], have, ToClear(ts, ws, have));
    }
  }

  lemma FewerFlagsThread(th: Thread, have: Flags, gone: Flags)
    requires !Satisfied(th, have)
    ensures !Satisfied(th, have - gone)
  {
    if Satisfied(th, have - gone) {
      FewerFlags(th.eventSet, th.eventInfo, have, gone);
    }
  }

  lemma FewerKeep(ts: seq<Thread>, ws: seq<nat>, have: Flags, gone: Flags)
    requires NobodyForgotten(ts, ws, have)
    ensures NobodyForgotten(ts, ws, have - gone)
  {
    forall w | w in ws ensures !Satisfied(ts[w], have - gone) {
      FewerFlagsThread(ts[w], have, gone);
    }
  }

  /** A thread that a send wakes gets an answer; the others stand as before. */
  lemma SendAnswers(ts: seq<Thread>, ws: seq<nat>, have: Flags)
    requires Known(ws, |ts|) && CallsOk(ts, ws)
    ensures CallsOk(Woken(ts, ws, have), StillWaiting(ts, ws, have))
  {
    hide Satisfied, Received, Answers, StillWaiting;
    StillWaitingMembers(ts, ws, have);
    var ts', ws' := Woken(ts, ws, have), StillWaiting(ts, ws, have);
    forall t | 0 <= t < |ts'| ensures CallOk(ts'[t], t in ws') {
      assert CallOk(ts[t], t in ws);
      if t in ws && Satisfied(ts[t], have) {
        ReceivedAnswers(ts[t], have);
      }
    }
  }

  lemma ReceivedAnswers(th: Thread, have: Flags)
    requires CallOk(th, true) && Satisfied(th, have)
    ensures th.call.Receiving? && Answers(Received(th, have), th.call.want, th.eventInfo)
  {
    var want, got := th.eventSet, Received(th, have);
    assert want * got == got;
  }

  /** A send leaves the waiters it does not wake in their order. */
  lemma {:induction false} StillInOrder(ts: seq<Thread>, ws: seq<nat>, have: Flags, rest: seq<nat>, prio: seq<nat>,
                                        policy: Policy)
    requires Known(ws, |ts|) && InOrder(ws + rest, prio, policy)
    ensures InOrder(StillWaiting(ts, ws, have) + rest, prio, policy)
    decreases |ws|
  {
    hide Satisfied, InOrder;
    if ws == [] {
      assert ws + rest == rest == StillWaiting(ts, ws, have) + rest;
    } else {
      var n, w := |ws| - 1, ws[|ws| - 1];
      if Satisfied(ts[w], have) {
        assert ws[..n] + [w] + rest == ws + rest;
        LessInOrder(ws[..n], w, rest, prio, policy);
        StillInOrder(ts, ws[..n], have, rest, prio, policy);
        assert StillWaiting(ts, ws, have) == StillWaiting(ts, ws[..n], have);
      } else {
        assert ws[..n] + ([w] + rest) == ws + rest;
        StillInOrder(ts, ws[..n], have, [w] + rest, prio, policy);
        assert StillWaiting(ts, ws[..n], have) + ([w] + rest) == StillWaiting(ts, ws, have) + rest;
      }
    }
  }

  lemma LessInOrder(a: seq<nat>, w: nat, b: seq<nat>, prio: seq<nat>, policy: Policy)
    requires InOrder(a + [w] + b, prio, policy)
    ensures InOrder(a + b, prio, policy)
  {
    var r, s := a + b, a + [w] + b;
    assert forall i :: 0 <= i < |r| ==> r[i] == s[if i < |a| then i else i + 1];
  }

  lemma SendInOrder(ts: seq<Thread>, ws: seq<nat>, k: nat, have: Flags, prio: seq<nat>, policy: Policy)
    requires Known(ws, |ts|) && k <= |ws| && InOrder(ws, prio, policy)
    ensures Known(ws[..k], |ts|) && InOrder(StillWaiting(ts, ws[..k], have) + ws[k..], prio, policy)
  {
    hide InOrder, StillWaiting;
    assert ws[..k] + ws[k..] == ws;
    StillInOrder(ts, ws[..k], have, ws[k..], prio, policy);
  }

  // ---- every run -----------------------------------------------------------------------------

  datatype Op =
    | SendOp(set': Flags)
    | RecvOp(t: nat, want: Flags, mode: Mode, timeout: int)
    | ResumeOp(t: nat)
    | TimeoutOp(t: nat)
    | PriorityOp(t: nat, p: nat)

  datatype State = State(flags: Flags, waiting: seq<nat>, threads: seq<Thread>, prio: seq<nat>)

  /** What a step gives back: nothing if it cannot happen, and flags from a receive. */
  datatype Result = Skipped | Done | Answer(error: Error, recved: Flags) | Sleeps

  type Record = Entry<State, Op, Result>

  /** The step can happen: the thread is where the operation takes it up. */
  predicate Enabled(op: Op, s: State) {
    match op
    case SendOp(_) => true
    case RecvOp(t, _, mode, _) => t < |s.threads| && s.threads[t].call == Idle && HasMode(mode)
    case ResumeOp(t) => t < |s.threads| && t !in s.waiting && s.threads[t].call.Receiving?
    case TimeoutOp(t) =>
      t < |s.threads| && t in s.waiting && s.threads[t].call.Receiving? && s.threads[t].call.timed
    case PriorityOp(t, _) => t < |s.prio|
  }

  /** What each step does and answers. */
  ghost predicate Steps(policy: Policy, e: Record) {
    var s, s' := e.before, e.after;
    if !Enabled(e.op, s) then e.result == Skipped && s' == s else
    match e.op
    case SendOp(set') =>
      if set' == {} then e.result == Answer(ERROR, {}) && s' == s
      else
        && e.result == Answer(EOK, {}) && Known(s.waiting, |s.threads|)
        && var have := s.flags + set';
           s' == State(have - ToClear(s.threads, s.waiting, have), StillWaiting(s.threads, s.waiting, have),
                       Woken(s.threads, s.waiting, have), s.prio)
    case RecvOp(t, want, mode, timeout) =>
      if want == {} then e.result == Answer(ERROR, {}) && s' == s
      else if Meets(want, mode, s.flags) then
        var got := want * s.flags;
        && e.result == Answer(EOK, got) && Answers(got, want, mode)
        && s' == s.(
          flags := if mode.clear then s.flags - got else s.flags,
          threads := s.threads[t := Thread(got, mode, EOK, Idle)])
      else if timeout == 0 then
        e.result == Answer(ETIMEOUT, {}) && s' == s.(threads := s.threads[t := s.threads[t].(error := ETIMEOUT)])
      else
        && e.result == Sleeps && Joined(s.waiting, s.prio, policy, t, s'.waiting)
        && s' == s.(
          waiting := s'.waiting,
          threads := s.threads[t := Thread(want, mode, EINTR, Receiving(want, timeout > 0))])
    case ResumeOp(t) =>
      var th := s.threads[t];
      && s' == s.(threads := s.threads[t := th.(call := Idle)])
      && if th.error == EOK
         then e.result == Answer(EOK, th.eventSet) && Answers(th.eventSet, th.call.want, th.eventInfo)
         else e.result == Answer(ETIMEOUT, {})
    case TimeoutOp(t) =>
      && e.result == Done
      && s' == s.(
        waiting := Remove(s.waiting, t),
        threads := s.threads[t := s.threads[t].(error := ETIMEOUT)])
    case PriorityOp(t, p) =>
      e.result == Done && s' == s.(prio := s.prio[t := p])
  }

  /** Whatever a receive that succeeds was called with, at once or after a sleep, it gives back flags
      asked for, and all of them if it was called with AND. */
  lemma ReceiverGets(policy: Policy, e: Record, t: nat)
    requires Steps(policy, e) && e.result.Answer? && e.result.error == EOK && t < |e.before.threads|
    ensures e.op.RecvOp? ==>
      && e.result.recved != {} && e.result.recved <= e.op.want && e.result.recved <= e.before.flags
      && (e.op.mode.all ==> e.result.recved == e.op.want)
    ensures e.op == ResumeOp(t) ==>
      && e.before.threads[t].call.Receiving?
      && e.result.recved != {} && e.result.recved <= e.before.threads[t].call.want
      && (e.before.threads[t].eventInfo.all ==> e.result.recved == e.before.threads[t].call.want)
  {
    hide Meets, StillWaiting, Woken, ToClear;
    if e.op.RecvOp? {
      AnswersMean(e.result.recved, e.op.want, e.op.mode);
    } else if e.op == ResumeOp(t) {
      var th := e.before.threads[t];
      AnswersMean(th.eventSet, th.call.want, th.eventInfo);
    }
  }

  /** No thread sleeps on flags that are there, and every woken thread has an answer. */
  ghost predicate Sound(s: State) {
    && Known(s.waiting, |s.threads|) && Distinct(s.waiting)
    && NobodyForgotten(s.threads, s.waiting, s.flags) && CallsOk(s.threads, s.waiting)
  }

  ghost predicate SoundStep(policy: Policy, e: Record) {
    Steps(policy, e) && Sound(e.before) && Sound(e.after)
  }

  /** A waiter that a send takes off the list has its flags and no error. */
  lemma SendWakes(policy: Policy, e: Record, t: nat)
    requires SoundStep(policy, e) && e.op.SendOp? && t in e.before.waiting && t !in e.after.waiting
    ensures t < |e.before.threads| == |e.after.threads| && e.before.threads[t].call.Receiving?
    ensures var th, have := e.before.threads[t], e.before.flags + e.op.set';
      && e.after.threads[t] == th.(eventSet := th.eventSet * have, error := EOK)
      && th.eventSet * have != {} && (th.eventInfo.all ==> th.eventSet <= have)
  {
    hide NobodyForgotten, StillWaiting, ToClear, Satisfied;
    var th, have := e.before.threads[t], e.before.flags + e.op.set';
    assert CallOk(th, true);
    StillWaitingMembers(e.before.threads, e.before.waiting, have);
    MeetsMeans(th.eventSet, th.eventInfo, have);
    assert Satisfied(th, have);
    SatisfiedMeans(th, have);
  }

  /** A send leaves exactly the flags that were there or are sent and that no thread it wakes has both
      received and asked to clear. */
  lemma SendLeaves(policy: Policy, e: Record, f: nat)
    requires SoundStep(policy, e) && e.op.SendOp? && e.op.set' != {}
    ensures f in e.after.flags <==>
      && (f in e.before.flags || f in e.op.set')
      && !exists i :: 0 <= i < |e.before.waiting| && Cleared(e, e.before.waiting[i], f)
  {
    hide NobodyForgotten, CallsOk, StillWaiting, ToClear, Satisfied, Woken;
    var ts, ws, have := e.before.threads, e.before.waiting, e.before.flags + e.op.set';
    ToClearIsUnion(ts, ws, have, f);
    StillWaitingMembers(ts, ws, have);
    forall i | 0 <= i < |ws| && f in have ensures TakesFlag(ts[ws[i]], have, f) <==> Cleared(e, ws[i], f) {
      assert ws[i] in ws;
    }
  }

  /** `t` is woken by the step and clears `f`. */
  predicate Cleared(e: Record, t: nat, f: nat) {
    && t !in e.after.waiting && t < |e.before.threads|
    && e.before.threads[t].eventInfo.clear && f in e.before.threads[t].eventSet
  }

  lemma SatisfiedMeans(th: Thread, have: Flags)
    requires Satisfied(th, have) && th.eventSet != {}
    ensures th.eventSet * have != {} && (th.eventInfo.all ==> th.eventSet <= have)
  {
    MeetsMeans(th.eventSet, th.eventInfo, have);
  }

  /** A thread in a receive that is not on the list stays as it is until it runs. */
  lemma StepLeaves(policy: Policy, e: Record, t: nat)
    requires SoundStep(policy, e) && e.op != ResumeOp(t)
    requires t < |e.before.threads| && t !in e.before.waiting && e.before.threads[t].call.Receiving?
    ensures t < |e.after.threads| && e.after.threads[t] == e.before.threads[t] && t !in e.after.waiting
  {
    hide NobodyForgotten, CallsOk, StillWaiting, ToClear, Meets, Answers, Remove, InOrder;
    if e.op.SendOp? && e.op.set' != {} {
      StillWaitingMembers(e.before.threads, e.before.waiting, e.before.flags + e.op.set');
    } else if e.op.TimeoutOp? && Enabled(e.op, e.before) {
      RemoveFacts(e.before.waiting, e.op.t);
    } else if e.op.RecvOp? && e.result == Sleeps {
      var n :| Place(e.before.waiting, e.before.prio, policy, e.op.t, n)
        && e.after.waiting == InsertAt(e.before.waiting, n, e.op.t);
      InsertFacts(e.before.waiting, n, e.op.t);
    }
  }

  ghost predicate IsRun(policy: Policy, trace: seq<Record>, ops: seq<Op>, start: State, end: State) {
    Recorded(trace, ops, start, end) && forall i :: 0 <= i < |trace| ==> SoundStep(policy, trace[i])
  }

  lemma {:induction false} StillOut(policy: Policy, trace: seq<Record>, ops: seq<Op>, start: State, end: State,
                                    i: nat, j: nat, t: nat)
    requires IsRun(policy, trace, ops, start, end) && i < j < |trace|
    requires t < |trace[i].after.threads| && t !in trace[i].after.waiting && trace[i].after.threads[t].call.Receiving?
    requires forall k :: i < k < j ==> trace[k].op != ResumeOp(t)
    ensures t < |trace[j].before.threads| && t !in trace[j].before.waiting
    ensures trace[j].before.threads[t] == trace[i].after.threads[t]
    decreases j
  {
    hide SoundStep;
    assert trace[j].before == trace[j - 1].after;
    if j > i + 1 {
      StillOut(policy, trace, ops, start, end, i, j - 1, t);
      StepLeaves(policy, trace[j - 1], t);
    }
  }

  /** In any run a thread that a send woke gets the flags it asked for that were there then, all of
      them if it asked with AND, whatever happens before it runs again. */
  lemma WokenAnswers(policy: Policy, trace: seq<Record>, ops: seq<Op>, start: State, end: State, i: nat, j: nat, t: nat)
    requires IsRun(policy, trace, ops, start, end) && i < j < |trace|
    requires trace[i].op.SendOp? && t in trace[i].before.waiting && t !in trace[i].after.waiting
    requires trace[j].op == ResumeOp(t) && forall k :: i < k < j ==> trace[k].op != ResumeOp(t)
    ensures t < |trace[i].before.threads|
    ensures var th := trace[i].before.threads[t];
      && trace[j].result == Answer(EOK, th.eventSet * (trace[i].before.flags + trace[i].op.set'))
      && trace[j].result.recved != {} && (th.eventInfo.all ==> trace[j].result.recved == th.eventSet)
  {
    hide Sound;
    assert SoundStep(policy, trace[i]) && SoundStep(policy, trace[j]);
    SendWakes(policy, trace[i], t);
    StillOut(policy, trace, ops, start, end, i, j, t);
  }

  /** One that timed out gets the timeout. */
  lemma TimeoutAnswers(policy: Policy, trace: seq<Record>, ops: seq<Op>, start: State, end: State,
                       i: nat, j: nat, t: nat)
    requires IsRun(policy, trace, ops, start, end) && i < j < |trace|
    requires trace[i].op == TimeoutOp(t) && trace[i].result != Skipped
    requires trace[j].op == ResumeOp(t) && forall k :: i < k < j ==> trace[k].op != ResumeOp(t)
    ensures trace[j].result == Answer(ETIMEOUT, {}) && trace[j].after.flags == trace[j].before.flags
  {
    hide NobodyForgotten, CallsOk, Remove;
    assert SoundStep(policy, trace[i]) && SoundStep(policy, trace[j]);
    RemoveFacts(trace[i].before.waiting, t);
    StillOut(policy, trace, ops, start, end, i, j, t);
  }

  /** One step; a step that cannot happen does nothing. */
  method Step(event: EventObject, op: Op) returns (result: Result)
    requires event.Valid()
    modifies event
    ensures event.Valid() && Steps(event.policy, Entry(op, old(event.View()), result, event.View()))
    ensures old(event.Sorted()) && !op.PriorityOp? ==> event.Sorted()
  {
    hide InOrder, NobodyForgotten, CallsOk, Meets, Answers, StillWaiting, Woken, ToClear, Remove, Place;
    result := Skipped;
    match op {
      case SendOp(set') =>
        assert event.waiting[..|event.waiting|] == event.waiting;
        var r := event.Send(set');
        result := Answer(r, {});
      case RecvOp(t, want, mode, timeout) =>
        if t < |event.threads| && event.threads[t].call == Idle && HasMode(mode) {
          var r, recved, sleeps, _ := event.Recv(t, want, mode, timeout);
          result := if sleeps then Sleeps else Answer(r, if r == EOK then recved else {});
        }
      case ResumeOp(t) =>
        if t < |event.threads| && t !in event.waiting && event.threads[t].call.Receiving? {
          var r, recved := event.Resume(t);
          result := Answer(r, recved);
        }
      case TimeoutOp(t) =>
        if t < |event.threads| && t in event.waiting
           && event.threads[t].call.Receiving? && event.threads[t].call.timed {
          event.Timeout(t);
          result := Done;
        }
      case PriorityOp(t, p) =>
        if t < |event.prio| {
          event.ChangePriority(t, p);
          result := Done;
        }
    }
  }

  /** Any sequence of sends, receives, wakeups and timeouts is a run of `Steps`. After it no thread
      sleeps on flags that are there, and every thread that was woken has flags that satisfy what
      it asked for. If no priority changed, the waiting list is in order. */
  method Run(event: EventObject, ops: seq<Op>) returns (results: seq<Result>, ghost trace: seq<Record>)
    requires event.Valid()
    modifies event
    ensures event.Valid() && IsRun(event.policy, trace, ops, old(event.View()), event.View()) && |results| == |ops|
    ensures forall i :: 0 <= i < |trace| ==> trace[i].result == results[i]
    ensures old(event.Sorted()) && (forall i :: 0 <= i < |ops| ==> !ops[i].PriorityOp?) ==> event.Sorted()
  {
    hide InOrder, NobodyForgotten, CallsOk, Steps, Recorded;
    results, trace := [], [];
    ghost var start := event.View();
    NothingRecorded<State, Op, Result>(ops, start);
    for i := 0 to |ops|
      invariant event.Valid() && IsRun(event.policy, trace, ops[..i], start, event.View()) && |results| == |trace| == i
      invariant forall k :: 0 <= k < i ==> trace[k].result == results[k]
      invariant old(event.Sorted()) && (forall k :: 0 <= k < i ==> !ops[k].PriorityOp?) ==> event.Sorted()
    {
      ghost var s := event.View();
      var result := Step(event, ops[i]);
      ghost var e := Entry(ops[i], s, result, event.View());
      OneMoreEntry(trace, ops, start, s, i, e);
      results, trace := results + [result], trace + [e];
    }
    assert ops[..|ops|] == ops;
  }
}
