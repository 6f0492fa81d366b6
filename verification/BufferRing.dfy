/**
 The doubly linked ring of kernel/bio.c: buffers 0 .. n-1 are array slots and n is the list
 head; `next` and `prev` hold slot numbers. `order` lists the buffers from most to least
 recently used.
 */
module BufferRing {

  ghost predicate Slots(n: nat, order: seq<int>) {
    forall k :: 0 <= k < |order| ==> 0 <= order[k] < n
  }

  /** The forward links visit `order` and come back to the head. */
  ghost predicate Forward(next: seq<int>, n: nat, order: seq<int>) {
    && |next| == n + 1
    && next[n] == (if order == [] then n else order[0])
    && Slots(n, order)
    && forall k {:trigger next[order[k]]} :: 0 <= k < |order| ==> next[order[k]] == After(order, k, n)
  }

  ghost predicate Backward(prev: seq<int>, n: nat, order: seq<int>) {
    && |prev| == n + 1
    && prev[n] == (if order == [] then n else order[|order| - 1])
    && Slots(n, order)
    && forall k {:trigger prev[order[k]]} :: 0 <= k < |order| ==> prev[order[k]] == Before(order, k, n)
  }

  function After(order: seq<int>, k: int, n: nat): int
    requires 0 <= k < |order|
  {
    if k + 1 < |order| then order[k + 1] else n
  }

  function Before(order: seq<int>, k: int, n: nat): int
    requires 0 <= k < |order|
  {
    if k > 0 then order[k - 1] else n
  }

  ghost predicate NoRepeats(order: seq<int>) {
    forall i, j :: 0 <= i < j < |order| ==> order[i] != order[j]
  }

  ghost predicate Ring(next: seq<int>, prev: seq<int>, n: nat, order: seq<int>) {
    Forward(next, n, order) && Backward(prev, n, order) && NoRepeats(order)
  }

  /** Take buffer order[k] out of the ring. */
  function Without(order: seq<int>, k: int): seq<int>
    requires 0 <= k < |order|
  {
    order[..k] + order[k + 1..]
  }

  lemma WithoutAt(order: seq<int>, k: int)
    requires 0 <= k < |order|
    ensures
      var r := Without(order, k);
      |r| == |order| - 1 && forall j :: 0 <= j < |r| ==> r[j] == order[if j < k then j else j + 1]
  {
  }

  lemma UnlinkForward(next: seq<int>, n: nat, order: seq<int>, k: int)
    requires Forward(next, n, order) && NoRepeats(order) && 0 <= k < |order|
    ensures Forward(next[Before(order, k, n) := next[order[k]]], n, Without(order, k))
  {
    var r := Without(order, k);
    var next' := next[Before(order, k, n) := next[order[k]]];
    forall i | 0 <= i < |r| ensures next'[r[i]] == After(r, i, n) {
      var o := if i < k then i else i + 1;
      assert r[i] == order[o];
      assert next[order[o]] == After(order, o, n);
    }
  }

  lemma UnlinkBackwardAt(prev: seq<int>, n: nat, order: seq<int>, r: seq<int>, k: int, i: int)
    requires Backward(prev, n, order) && NoRepeats(order) && 0 <= k < |order|
    requires |r| == |order| - 1 && 0 <= i < |r|
    requires forall j :: 0 <= j < |r| ==> r[j] == order[if j < k then j else j + 1]
    ensures 0 <= r[i] < n && prev[After(order, k, n) := prev[order[k]]][r[i]] == Before(r, i, n)
  {
    var o := if i < k then i else i + 1;
    assert prev[order[o]] == Before(order, o, n);
    if o < k {
      assert order[o] != After(order, k, n);
    } else if o > k + 1 {
      assert order[k + 1] != order[o];
    }
  }

  lemma UnlinkBackward(prev: seq<int>, n: nat, order: seq<int>, k: int)
    requires Backward(prev, n, order) && NoRepeats(order) && 0 <= k < |order|
    ensures Backward(prev[After(order, k, n) := prev[order[k]]], n, Without(order, k))
  {
    hide NoRepeats, Without;
    var r := Without(order, k);
    WithoutAt(order, k);
    var prev' := prev[After(order, k, n) := prev[order[k]]];
    forall i | 0 <= i < |r| ensures prev'[r[i]] == Before(r, i, n) {
      UnlinkBackwardAt(prev, n, order, r, k, i);
    }
    if k == |order| - 1 {
      assert prev'[n] == prev[order[k]] == Before(order, k, n);
    } else {
      assert order[k + 1] < n;
    }
  }

  lemma PushForward(next: seq<int>, n: nat, order: seq<int>, b: int)
    requires Forward(next, n, order) && 0 <= b < n && b !in order
    ensures Forward(next[b := next[n]][n := b], n, [b] + order)
  {
    var r := [b] + order;
    var next' := next[b := next[n]][n := b];
    forall i | 0 <= i < |r| ensures next'[r[i]] == After(r, i, n) {
      if i > 0 {
        assert r[i] == order[i - 1];
        assert next[order[i - 1]] == After(order, i - 1, n);
      }
    }
  }

  lemma PushBackward(next: seq<int>, prev: seq<int>, n: nat, order: seq<int>, b: int)
    requires Forward(next, n, order) && Backward(prev, n, order) && NoRepeats(order) && 0 <= b < n && b !in order
    ensures Backward(prev[b := n][next[n] := b], n, [b] + order)
  {
    var r := [b] + order;
    var prev' := prev[b := n][next[n] := b];
    forall i | 0 <= i < |r| ensures prev'[r[i]] == Before(r, i, n) {
      if i > 0 {
        assert r[i] == order[i - 1];
        assert prev[order[i - 1]] == Before(order, i - 1, n);
      }
    }
  }

  lemma WithoutSound(order: seq<int>, k: int)
    requires NoRepeats(order) && 0 <= k < |order|
    ensures NoRepeats(Without(order, k)) && order[k] !in Without(order, k)
    ensures forall b :: b in order <==> b == order[k] || b in Without(order, k)
  {
    var r := Without(order, k);
    forall b | b in order && b != order[k] ensures b in r {
      var i :| 0 <= i < |order| && order[i] == b;
      assert r[if i < k then i else i - 1] == b;
    }
    forall i | 0 <= i < |r| ensures r[i] == order[if i < k then i else i + 1] {
    }
  }

  /** binit's step: push a buffer that is not in the ring at its front. */
  lemma PushRing(next: seq<int>, prev: seq<int>, n: nat, order: seq<int>, b: int)
    requires Ring(next, prev, n, order) && 0 <= b < n && b !in order
    ensures 0 <= next[n] <= n && Ring(next[b := next[n]][n := b], prev[b := n][next[n] := b], n, [b] + order)
  {
    PushForward(next, n, order, b);
    PushBackward(next, prev, n, order, b);
  }

  /** brelse's six link assignments move buffer order[k] to the front. */
  lemma MoveToFront(next: seq<int>, prev: seq<int>, n: nat, order: seq<int>, k: int)
    requires Ring(next, prev, n, order) && 0 <= k < |order|
    ensures
      var b := order[k];
      && 0 <= prev[b] <= n && 0 <= next[b] <= n
      && var next1 := next[prev[b] := next[b]];
      var prev1 := prev[next[b] := prev[b]];
      && 0 <= next1[n] <= n
      && Ring(next1[b := next1[n]][n := b], prev1[b := n][next1[n] := b], n, [b] + Without(order, k))
  {
    var b := order[k];
    UnlinkForward(next, n, order, k);
    UnlinkBackward(prev, n, order, k);
    WithoutSound(order, k);
    PushRing(next[prev[b] := next[b]], prev[next[b] := prev[b]], n, Without(order, k), b);
  }
}
