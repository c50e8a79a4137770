/** List and option helpers shared by the kernel models. */
module Lists {

  datatype Option<+T> = None | Some(value: T)

  ghost predicate Distinct<T>(s: seq<T>) {
    forall i, j :: 0 <= i < j < |s| ==> s[i] != s[j]
  }

  /** Index of the first occurrence of `x`. */
  function IndexOf<T(==)>(s: seq<T>, x: T): (i: nat)
    requires x in s
    ensures i < |s| && s[i] == x && x !in s[..i]
  {
    if s[0] == x then 0 else
      assert x in s[1..];
      var k := IndexOf(s[1..], x);
      assert s[..1 + k] == [s[0]] + s[1..][..k];
      1 + k
  }

  /** `rt_list_remove`: unlinks the node `x`; a node on no list is left alone. */
  function Remove<T(==)>(s: seq<T>, x: T): seq<T> {
    if x in s then var i := IndexOf(s, x); s[..i] + s[i + 1..] else s
  }

  lemma RemoveFacts<T>(s: seq<T>, x: T)
    requires Distinct(s)
    ensures Distinct(Remove(s, x))
    ensures forall y :: y in Remove(s, x) <==> y in s && y != x
    ensures |Remove(s, x)| == if x in s then |s| - 1 else |s|
  {
    if x in s {
      CutOut(s, IndexOf(s, x));
    }
  }

  lemma CutOut<T>(s: seq<T>, i: nat)
    requires Distinct(s) && i < |s|
    ensures var r := s[..i] + s[i + 1..];
      Distinct(r) && |r| == |s| - 1 && forall y :: y in r <==> y in s && y != s[i]
  {
    var r := s[..i] + s[i + 1..];
    assert forall j :: 0 <= j < |r| ==> r[j] == s[if j < i then j else j + 1];
    forall y | y in s && y != s[i] ensures y in r {
      var k :| 0 <= k < |s| && s[k] == y;
      assert r[if k < i then k else k - 1] == y;
    }
  }

  lemma RemoveMiddle<T>(a: seq<T>, x: T, b: seq<T>)
    requires x !in a
    ensures Remove(a + [x] + b, x) == a + b
  {
    var s := a + [x] + b;
    assert s[|a|] == x;
    var i := IndexOf(s, x);
    forall j | 0 <= j < |a| ensures s[j] != x {
      assert s[j] == a[j] && a[j] in a;
    }
    forall j | 0 <= j < i ensures s[j] != x {
      assert s[j] == s[..i][j] && s[..i][j] in s[..i];
    }
    assert s[..|a|] == a && s[|a| + 1..] == b;
  }

  /** `rt_list_insert_before` the node at position `n`. */
  function InsertAt<T>(s: seq<T>, n: nat, x: T): seq<T>
    requires n <= |s|
  {
    s[..n] + [x] + s[n..]
  }

  lemma InsertFacts<T>(s: seq<T>, n: nat, x: T)
    requires n <= |s|
    ensures |InsertAt(s, n, x)| == |s| + 1
    ensures forall y :: y in InsertAt(s, n, x) <==> y in s || y == x
    ensures Distinct(s) && x !in s ==> Distinct(InsertAt(s, n, x))
  {
    var r := InsertAt(s, n, x);
    forall y | y in s ensures y in r {
      var k :| 0 <= k < |s| && s[k] == y;
      assert y == r[if k < n then k else k + 1];
    }
    assert x == r[n];
  }

  /** The next of a ring that goes round. */
  lemma Rotate(ring: seq<nat>, i: nat)
    requires i < |ring|
    ensures (ring[i..] + ring[..i])[0] == ring[i] && ring[..i + 1] == ring[..i] + [ring[i]]
    ensures (ring[i..] + ring[..i])[1..] + [ring[i]] == ring[i + 1..] + ring[..i + 1]
  {
  }

  /** The first of a list is taken out after another has come to its end. */
  lemma RotateList(list: seq<nat>, to: nat, from: nat)
    requires list != [] && list[0] == to
    ensures Remove(list + [from], to) == list[1..] + [from]
  {
    hide Remove;
    RemoveMiddle([], to, list[1..] + [from]);
    assert [] + [to] + (list[1..] + [from]) == list + [from];
    assert [] + (list[1..] + [from]) == list[1..] + [from];
  }

  /** Distinct numbers below `n` are at most `n` many. */
  lemma {:induction false} Pigeonhole(s: seq<nat>, n: nat)
    requires Distinct(s) && forall i :: 0 <= i < |s| ==> s[i] < n
    ensures |s| <= n
    decreases n
  {
    if s == [] {
      return;
    }
    assert s[0] < n;
    if k :| 0 <= k < |s| && s[k] == n - 1 {
      var r := s[..k] + s[k + 1..];
      assert forall i :: 0 <= i < |r| ==> r[i] == s[if i < k then i else i + 1] && r[i] != s[k];
      Pigeonhole(r, n - 1);
    } else {
      Pigeonhole(s, n - 1);
    }
  }
}
