/** What has gone into a queue, what has come out and what is left, and the record of a run. */
module Ledger {

  /** One step of a run: the operation, its result and the states around it. */
  datatype Entry<S, O, R> = Entry(op: O, before: S, result: R, after: S)

  /** `trace` has one entry for every operation; each starts where the one before it ended, and the
      last ends in `end`. */
  ghost predicate Recorded<S, O, R>(trace: seq<Entry<S, O, R>>, ops: seq<O>, start: S, end: S) {
    && |trace| == |ops|
    && (forall i :: 0 <= i < |ops| ==> trace[i].op == ops[i])
    && (trace == [] ==> end == start)
    && (trace != [] ==> trace[0].before == start && trace[|trace| - 1].after == end)
    && forall i, j :: 0 <= i && j == i + 1 && j < |trace| ==> trace[j].before == trace[i].after
  }

  lemma OneMoreEntry<S, O, R>(trace: seq<Entry<S, O, R>>, ops: seq<O>, start: S, end: S, i: nat, e: Entry<S, O, R>)
    requires i < |ops| && Recorded(trace, ops[..i], start, end) && e.op == ops[i] && e.before == end
    ensures Recorded(trace + [e], ops[..i + 1], start, e.after)
  {
    assert ops[..i + 1] == ops[..i] + [ops[i]];
  }

  lemma OneEntryLess<S, O, R>(trace: seq<Entry<S, O, R>>, ops: seq<O>, start: S, end: S)
    requires Recorded(trace, ops, start, end) && trace != []
    ensures var n := |trace| - 1;
      && |ops| == n + 1 && trace[n].op == ops[n] && trace[n].after == end
      && Recorded(trace[..n], ops[..n], start, trace[n].before)
  {
    var n := |trace| - 1;
    if n > 0 {
      assert trace[..n][n - 1] == trace[n - 1] && trace[n].before == trace[n - 1].after;
    }
  }

  lemma NothingRecorded<S, O, R>(ops: seq<O>, start: S)
    ensures Recorded<S, O, R>([], ops[..0], start, start)
  {
  }

  /** What the entries of a trace contribute, in order. */
  ghost function Gathered<E, T>(part: E -> seq<T>, trace: seq<E>): seq<T> {
    if trace == [] then [] else Gathered(part, trace[..|trace| - 1]) + part(trace[|trace| - 1])
  }

  lemma LastPart<E, T>(part: E -> seq<T>, trace: seq<E>)
    requires trace != []
    ensures var n := |trace| - 1; Gathered(part, trace) == Gathered(part, trace[..n]) + part(trace[n])
  {
  }

  lemma NoPart<E, T>(part: E -> seq<T>)
    ensures Gathered(part, []) == []
  {
  }

  /** Everything in `before` or put in since has been taken out once or is still there. */
  ghost predicate Conserved<T>(before: seq<T>, sent: seq<T>, received: seq<T>, now: seq<T>) {
    multiset(received) + multiset(now) == multiset(before) + multiset(sent)
  }

  lemma StepConserves<T>(before: seq<T>, sent: seq<T>, received: seq<T>, c: seq<T>, s: seq<T>, r: seq<T>, c': seq<T>)
    requires Conserved(before, sent, received, c) && (r + c' == c + s || (r == [] && c' == s + c))
    ensures Conserved(before, sent + s, received + r, c')
    ensures r + c' == c + s && received + c == before + sent ==> (received + r) + c' == before + (sent + s)
  {
    assert multiset(r) + multiset(c') == multiset(c) + multiset(s) by {
      assert r + c' == c + s ==> multiset(r + c') == multiset(c + s);
    }
    assert multiset(received + r) + multiset(c') == multiset(received) + (multiset(r) + multiset(c'));
    assert multiset(before) + multiset(sent + s) == (multiset(before) + multiset(sent)) + multiset(s);
    if received + c == before + sent && r + c' == c + s {
      assert (received + r) + c' == received + (r + c') == (received + c) + s == before + (sent + s);
    }
  }

  lemma NothingYet<T>(before: seq<T>)
    ensures Conserved(before, [], [], before) && [] + before == before + []
  {
  }
}
