/**
 The K&R allocator's free list as a value: blocks in address order, starting with the
 static header `base`, and what free, malloc and morecore of user/umalloc.c do to it.
 Addresses and sizes are in units of one Header (16 bytes).
 */
module FreeList {

  datatype Block = Block(addr: int, size: int) {
    function End(): int { addr + size }
  }

  /** Live allocations: header address to size in units, header included. */
  type Live = map<int, int>

  function Succ(k: int, n: int): int {
    if k + 1 < n then k + 1 else 0
  }

  /** Steps along the circular list of length n from index j to index k. */
  function Dist(j: int, k: int, n: int): int {
    if j <= k then k - j else k - j + n
  }

  predicate Apart(a: int, n: int, b: int, m: int) {
    a + n <= b || b + m <= a
  }

  /** Address-ordered and coalesced: a gap between every two free blocks. */
  ghost predicate Ordered(fl: seq<Block>) {
    forall i, j :: 0 <= i < j < |fl| ==> fl[i].End() < fl[j].addr
  }

  ghost predicate WellFormed(base: int, top: int, fl: seq<Block>, live: Live) {
    && |fl| >= 1 && fl[0] == Block(base, 0) && base < top
    && (forall i :: 1 <= i < |fl| ==> fl[i].size > 0)
    && (forall i :: 0 <= i < |fl| ==> fl[i].End() <= top)
    && Ordered(fl)
    && (forall a :: a in live ==> live[a] >= 1 && base < a && a + live[a] <= top)
    && (forall a, b :: a in live && b in live && a != b ==> Apart(a, live[a], b, live[b]))
    && (forall i, a :: 0 <= i < |fl| && a in live ==> Apart(fl[i].addr, fl[i].size, a, live[a]))
  }

  // ---- totals

  function FreeTotal(fl: seq<Block>): int
    decreases |fl|
  {
    if fl == [] then 0 else FreeTotal(fl[..|fl| - 1]) + fl[|fl| - 1].size
  }

  ghost function LiveTotal(live: Live): int {
    SizeOf(live, live.Keys)
  }

  ghost function SizeOf(live: Live, keys: set<int>): int
    requires keys <= live.Keys
  {
    if exists a :: a in keys then
      var a :| a in keys;
      live[a] + SizeOf(live, keys - {a})
    else 0
  }

  lemma {:induction false} FreeTotalConcat(xs: seq<Block>, ys: seq<Block>)
    ensures FreeTotal(xs + ys) == FreeTotal(xs) + FreeTotal(ys)
    decreases |ys|
  {
    if ys == [] {
      assert xs + ys == xs;
    } else {
      assert (xs + ys)[..|xs + ys| - 1] == xs + ys[..|ys| - 1];
      FreeTotalConcat(xs, ys[..|ys| - 1]);
    }
  }

  lemma {:induction false} SizeOfSplit(live: Live, keys: set<int>, a: int)
    requires keys <= live.Keys && a in keys
    ensures SizeOf(live, keys) == live[a] + SizeOf(live, keys - {a})
    decreases |keys|
  {
    var first :| first in keys && SizeOf(live, keys) == live[first] + SizeOf(live, keys - {first});
    if first != a {
      SizeOfSplit(live, keys - {first}, a);
      SizeOfSplit(live, keys - {a}, first);
      assert keys - {first} - {a} == keys - {a} - {first};
    }
  }

  lemma {:induction false} SizeOfAgree(live: Live, other: Live, keys: set<int>)
    requires keys <= live.Keys && keys <= other.Keys
    requires forall a :: a in keys ==> live[a] == other[a]
    ensures SizeOf(live, keys) == SizeOf(other, keys)
    decreases |keys|
  {
    if a :| a in keys {
      SizeOfSplit(live, keys, a);
      SizeOfSplit(other, keys, a);
      SizeOfAgree(live, other, keys - {a});
    }
  }

  lemma LiveTotalAdd(live: Live, a: int, n: int)
    requires a !in live
    ensures LiveTotal(live[a := n]) == LiveTotal(live) + n
  {
    var more := live[a := n];
    SizeOfSplit(more, more.Keys, a);
    assert more.Keys - {a} == live.Keys;
    SizeOfAgree(more, live, live.Keys);
  }

  lemma LiveTotalRemove(live: Live, a: int)
    requires a in live
    ensures LiveTotal(live - {a}) == LiveTotal(live) - live[a]
  {
    assert (live - {a})[a := live[a]] == live;
    LiveTotalAdd(live - {a}, a, live[a]);
  }

  // ---- free

  /** The last free block below bp, where free stops. */
  ghost function Below(fl: seq<Block>, bp: int): (t: int)
    requires |fl| >= 1 && fl[0].addr < bp
    ensures 0 <= t < |fl| && fl[t].addr < bp
    ensures t + 1 < |fl| ==> bp <= fl[t + 1].addr
    decreases |fl|
  {
    var n := |fl|;
    if n > 1 && fl[n - 1].addr >= bp then Below(fl[..n - 1], bp) else n - 1
  }

  predicate JoinsUp(fl: seq<Block>, t: int, b: Block)
    requires 0 <= t < |fl|
  {
    t + 1 < |fl| && b.End() == fl[t + 1].addr
  }

  predicate JoinsDown(fl: seq<Block>, t: int, b: Block)
    requires 0 <= t < |fl|
  {
    fl[t].End() == b.addr
  }

  /** How far later blocks move towards the front when `b` is inserted after index t. */
  function Shift(fl: seq<Block>, t: int, b: Block): int
    requires 0 <= t < |fl|
  {
    (if JoinsDown(fl, t, b) then 0 else -1) + (if JoinsUp(fl, t, b) then 1 else 0)
  }

  /** Insert `b` after index t, merged with the free blocks it touches. */
  function Insert(fl: seq<Block>, t: int, b: Block): (r: seq<Block>)
    requires 0 <= t < |fl|
    ensures |r| == |fl| - Shift(fl, t, b)
  {
    var up := JoinsUp(fl, t, b);
    var b' := if up then Block(b.addr, b.size + fl[t + 1].size) else b;
    var rest := if up then fl[t + 2..] else fl[t + 1..];
    if JoinsDown(fl, t, b)
    then fl[..t] + [Block(fl[t].addr, fl[t].size + b'.size)] + rest
    else fl[..t + 1] + [b'] + rest
  }

  /** The index of the block of Insert(fl, t, b) that contains `b`. */
  function InsertedAt(fl: seq<Block>, t: int, b: Block): int
    requires 0 <= t < |fl|
  {
    if JoinsDown(fl, t, b) then t else t + 1
  }

  lemma {:induction false} InsertTotal(fl: seq<Block>, t: int, b: Block)
    requires 0 <= t < |fl|
    ensures FreeTotal(Insert(fl, t, b)) == FreeTotal(fl) + b.size
  {
    var down := JoinsDown(fl, t, b);
    var up := JoinsUp(fl, t, b);
    var front := if down then fl[..t] else fl[..t + 1];
    var rest := if up then fl[t + 2..] else fl[t + 1..];
    var mid := if down then fl[t..t + 1] else [];
    var next := if up then fl[t + 1..t + 2] else [];
    assert fl == front + mid + next + rest;
    FreeTotalConcat(front + mid + next, rest);
    FreeTotalConcat(front + mid, next);
    FreeTotalConcat(front, mid);
    var x := Insert(fl, t, b)[InsertedAt(fl, t, b)];
    assert Insert(fl, t, b) == front + [x] + rest;
    FreeTotalConcat(front + [x], rest);
    FreeTotalConcat(front, [x]);
    assert [x][..0] == [];
    assert mid[..0] == [] && next[..0] == [];
  }

  /** Where each block of Insert comes from. */
  lemma InsertAt(fl: seq<Block>, t: int, b: Block, k: int)
    requires 0 <= t < |fl| && 0 <= k < |Insert(fl, t, b)|
    ensures
      var q := InsertedAt(fl, t, b);
      var x := Insert(fl, t, b)[k];
      var shift := Shift(fl, t, b);
      && (k < q ==> k <= t && x == fl[k])
      && (k == q ==> x == Merged(fl, t, b))
      && (k > q ==> t < k + shift < |fl| && x == fl[k + shift])
      && (k > q && JoinsUp(fl, t, b) ==> k + shift > t + 1)
  {
  }

  /** `b` with the free blocks it touches. */
  function Merged(fl: seq<Block>, t: int, b: Block): (r: Block)
    requires 0 <= t < |fl|
    ensures r.addr == if JoinsDown(fl, t, b) then fl[t].addr else b.addr
    ensures r.End() == if JoinsUp(fl, t, b) then fl[t + 1].End() else b.End()
  {
    var n := b.size + if JoinsUp(fl, t, b) then fl[t + 1].size else 0;
    if JoinsDown(fl, t, b) then Block(fl[t].addr, fl[t].size + n) else Block(b.addr, n)
  }

  /** `r` is the list with `b` inserted after index t, block by block. */
  ghost predicate Inserted(fl: seq<Block>, t: int, b: Block, r: seq<Block>)
    requires 0 <= t < |fl|
  {
    var q := InsertedAt(fl, t, b);
    && |r| == |fl| - Shift(fl, t, b) && q < |r|
    && (forall k :: 0 <= k < q ==> r[k] == fl[k])
    && r[q] == Merged(fl, t, b)
    && (forall k :: q < k < |r| ==> r[k] == fl[k + Shift(fl, t, b)])
  }

  lemma InsertInserts(fl: seq<Block>, t: int, b: Block)
    requires 0 <= t < |fl|
    ensures Inserted(fl, t, b, Insert(fl, t, b))
  {
  }

  lemma InsertOrdered(fl: seq<Block>, t: int, b: Block)
    requires 0 <= t < |fl| && Ordered(fl)
    requires forall i :: 0 <= i < |fl| ==> fl[i].size >= 0
    requires fl[t].End() <= b.addr && (t + 1 < |fl| ==> b.End() <= fl[t + 1].addr)
    ensures Ordered(Insert(fl, t, b))
  {
    var r := Insert(fl, t, b);
    forall i, j | 0 <= i < j < |r| ensures r[i].End() < r[j].addr {
      InsertAt(fl, t, b, i);
      InsertAt(fl, t, b, j);
    }
  }

  lemma InsertApart(fl: seq<Block>, t: int, b: Block, k: int, a: int, n: int)
    requires 0 <= t < |fl| && 0 <= k < |Insert(fl, t, b)| && n >= 1
    requires forall i :: 0 <= i < |fl| ==> Apart(fl[i].addr, fl[i].size, a, n)
    requires Apart(b.addr, b.size, a, n)
    ensures var x := Insert(fl, t, b)[k]; Apart(x.addr, x.size, a, n)
  {
    InsertAt(fl, t, b, k);
    if k == InsertedAt(fl, t, b) {
      assert Apart(fl[t].addr, fl[t].size, a, n);
      if JoinsUp(fl, t, b) {
        assert Apart(fl[t + 1].addr, fl[t + 1].size, a, n);
      }
    }
  }

  lemma InsertBounds(base: int, top: int, fl: seq<Block>, live: Live, bp: int, k: int)
    requires WellFormed(base, top, fl, live) && bp in live
    requires 0 <= k < |Insert(fl, Below(fl, bp), Block(bp, live[bp]))|
    ensures
      var x := Insert(fl, Below(fl, bp), Block(bp, live[bp]))[k];
      && (k == 0 ==> x == Block(base, 0)) && (k > 0 ==> x.size > 0) && x.End() <= top
  {
    var t, b := Below(fl, bp), Block(bp, live[bp]);
    BelowFits(base, top, fl, live, bp);
    InsertAt(fl, t, b, k);
  }

  /** A live block lies wholly between the free blocks around it, and never touches base. */
  lemma BelowFits(base: int, top: int, fl: seq<Block>, live: Live, bp: int)
    requires WellFormed(base, top, fl, live) && bp in live
    ensures
      var t := Below(fl, bp);
      && fl[t].End() <= bp && (t + 1 < |fl| ==> bp + live[bp] <= fl[t + 1].addr)
      && (fl[t].End() == bp ==> t > 0)
  {
    var t := Below(fl, bp);
    assert Apart(fl[t].addr, fl[t].size, bp, live[bp]);
    if t + 1 < |fl| {
      assert Apart(fl[t + 1].addr, fl[t + 1].size, bp, live[bp]);
    }
  }

  /** Freeing a live block keeps the heap well formed and leaves every other block alone. */
  lemma InsertWellFormed(base: int, top: int, fl: seq<Block>, live: Live, bp: int)
    requires WellFormed(base, top, fl, live) && bp in live
    ensures WellFormed(base, top, Insert(fl, Below(fl, bp), Block(bp, live[bp])), live - {bp})
  {
    var t, b := Below(fl, bp), Block(bp, live[bp]);
    var r := Insert(fl, t, b);
    BelowFits(base, top, fl, live, bp);
    InsertOrdered(fl, t, b);
    forall k | 0 <= k < |r|
      ensures k == 0 ==> r[k] == Block(base, 0)
      ensures k > 0 ==> r[k].size > 0
      ensures r[k].End() <= top
    {
      InsertBounds(base, top, fl, live, bp, k);
    }
    forall k, a | 0 <= k < |r| && a in live - {bp} ensures Apart(r[k].addr, r[k].size, a, live[a]) {
      InsertApart(fl, t, b, k, a, live[a]);
    }
  }

  // ---- malloc and morecore

  /** Take n units off the end of free block j, or all of it. */
  function Carve(fl: seq<Block>, j: int, n: int): seq<Block>
    requires 0 <= j < |fl|
  {
    if fl[j].size == n then fl[..j] + fl[j + 1..] else fl[j := Block(fl[j].addr, fl[j].size - n)]
  }

  function CarvedAddr(fl: seq<Block>, j: int, n: int): int
    requires 0 <= j < |fl|
  {
    fl[j].End() - n
  }

  lemma {:induction false} CarveTotal(fl: seq<Block>, j: int, n: int)
    requires 0 <= j < |fl|
    ensures FreeTotal(Carve(fl, j, n)) == FreeTotal(fl) - n
  {
    assert fl == fl[..j] + [fl[j]] + fl[j + 1..];
    FreeTotalConcat(fl[..j] + [fl[j]], fl[j + 1..]);
    FreeTotalConcat(fl[..j], [fl[j]]);
    assert [fl[j]][..0] == [];
    if fl[j].size == n {
      FreeTotalConcat(fl[..j], fl[j + 1..]);
    } else {
      var x := Block(fl[j].addr, fl[j].size - n);
      assert Carve(fl, j, n) == fl[..j] + [x] + fl[j + 1..];
      FreeTotalConcat(fl[..j] + [x], fl[j + 1..]);
      FreeTotalConcat(fl[..j], [x]);
      assert [x][..0] == [];
    }
  }

  lemma CarveAt(fl: seq<Block>, j: int, n: int, k: int)
    requires 0 <= j < |fl| && 0 <= k < |Carve(fl, j, n)|
    ensures
      var x := Carve(fl, j, n)[k];
      && (k < j ==> x == fl[k])
      && (k >= j && fl[j].size == n ==> k + 1 < |fl| && x == fl[k + 1])
      && (k > j && fl[j].size != n ==> x == fl[k])
      && (k == j && fl[j].size != n ==> x == Block(fl[j].addr, fl[j].size - n))
  {
  }

  lemma CarveOrdered(fl: seq<Block>, j: int, n: int)
    requires 0 <= j < |fl| && Ordered(fl) && 1 <= n <= fl[j].size
    ensures Ordered(Carve(fl, j, n))
  {
    var r := Carve(fl, j, n);
    forall i, k | 0 <= i < k < |r| ensures r[i].End() < r[k].addr {
      CarveAt(fl, j, n, i);
      CarveAt(fl, j, n, k);
    }
  }

  /** Allocating from a free block that is large enough keeps the heap well formed. */
  lemma CarveWellFormed(base: int, top: int, fl: seq<Block>, live: Live, j: int, n: int)
    requires WellFormed(base, top, fl, live) && 0 <= j < |fl| && 1 <= n <= fl[j].size
    ensures CarvedAddr(fl, j, n) !in live
    ensures WellFormed(base, top, Carve(fl, j, n), live[CarvedAddr(fl, j, n) := n])
  {
    var q := CarvedAddr(fl, j, n);
    var r := Carve(fl, j, n);
    assert j > 0;
    CarveOrdered(fl, j, n);
    forall a | a in live ensures Apart(a, live[a], q, n) && a != q {
      assert Apart(fl[j].addr, fl[j].size, a, live[a]);
    }
    forall k | 0 <= k < |r|
      ensures Apart(r[k].addr, r[k].size, q, n)
      ensures r[k].End() <= top && (k == 0 ==> r[k] == fl[0]) && (k > 0 ==> r[k].size > 0)
      ensures forall a :: a in live ==> Apart(r[k].addr, r[k].size, a, live[a])
    {
      CarveApart(base, top, fl, live, j, n, k);
    }
  }

  lemma CarveApart(base: int, top: int, fl: seq<Block>, live: Live, j: int, n: int, k: int)
    requires WellFormed(base, top, fl, live) && 0 < j < |fl| && 1 <= n <= fl[j].size
    requires 0 <= k < |Carve(fl, j, n)|
    ensures
      var x, q := Carve(fl, j, n)[k], CarvedAddr(fl, j, n);
      && Apart(x.addr, x.size, q, n)
      && x.End() <= top && (k == 0 ==> x == fl[0]) && (k > 0 ==> x.size > 0)
      && forall a :: a in live ==> Apart(x.addr, x.size, a, live[a])
  {
    var x := Carve(fl, j, n)[k];
    CarveAt(fl, j, n, k);
    forall a | a in live ensures Apart(x.addr, x.size, a, live[a]) {
      assert Apart(fl[j].addr, fl[j].size, a, live[a]);
    }
  }

  /** A fresh region from sbrk, not yet freed into the list, is one more live block. */
  lemma GrowWellFormed(base: int, top: int, fl: seq<Block>, live: Live, p: int, n: int)
    requires WellFormed(base, top, fl, live) && top <= p && n >= 1
    ensures p !in live && WellFormed(base, p + n, fl, live[p := n])
  {
  }

  // ---- which units are free

  ghost predicate FreeAt(fl: seq<Block>, u: int) {
    exists k :: 0 <= k < |fl| && fl[k].addr <= u < fl[k].End()
  }

  ghost predicate Within(b: Block, u: int) { b.addr <= u < b.End() }

  lemma FreeAtIntro(fl: seq<Block>, k: int, u: int)
    requires 0 <= k < |fl| && Within(fl[k], u)
    ensures FreeAt(fl, u)
  {
  }

  /** After freeing, a unit is free if it was or is one of those freed. */
  lemma InsertUnits(fl: seq<Block>, t: int, b: Block, u: int)
    requires 0 <= t < |fl| && b.size >= 0 && forall k :: 0 <= k < |fl| ==> fl[k].size >= 0
    ensures FreeAt(Insert(fl, t, b), u) <==> FreeAt(fl, u) || Within(b, u)
  {
    hide FreeAt;
    var r, q, sh := Insert(fl, t, b), InsertedAt(fl, t, b), Shift(fl, t, b);
    InsertInserts(fl, t, b);
    if FreeAt(r, u) {
      var k := FreeIndex(r, u);
      if k < q {
        FreeAtIntro(fl, k, u);
      } else if k > q {
        FreeAtIntro(fl, k + sh, u);
      } else {
        MergedUnits(fl, t, b, u);
        if JoinsDown(fl, t, b) && Within(fl[t], u) { FreeAtIntro(fl, t, u); }
        if JoinsUp(fl, t, b) && Within(fl[t + 1], u) { FreeAtIntro(fl, t + 1, u); }
      }
    }
    if FreeAt(fl, u) || Within(b, u) {
      MergedUnits(fl, t, b, u);
      if Within(r[q], u) {
        FreeAtIntro(r, q, u);
      } else {
        var k := FreeIndex(fl, u);
        if k < q {
          FreeAtIntro(r, k, u);
        } else {
          FreeAtIntro(r, k - sh, u);
        }
      }
    }
  }

  lemma FreeIndex(fl: seq<Block>, u: int) returns (k: int)
    requires FreeAt(fl, u)
    ensures 0 <= k < |fl| && Within(fl[k], u)
  {
    k :| 0 <= k < |fl| && fl[k].addr <= u < fl[k].End();
  }

  lemma MergedUnits(fl: seq<Block>, t: int, b: Block, u: int)
    requires 0 <= t < |fl| && b.size >= 0 && forall k :: 0 <= k < |fl| ==> fl[k].size >= 0
    ensures Within(Merged(fl, t, b), u) <==>
              || Within(b, u) || (JoinsDown(fl, t, b) && Within(fl[t], u))
              || (JoinsUp(fl, t, b) && Within(fl[t + 1], u))
  {
  }

  /** After an allocation, a unit is free if it was and is not one of those taken. */
  lemma CarveUnits(fl: seq<Block>, j: int, n: int, u: int)
    requires Ordered(fl) && 0 <= j < |fl| && 0 < n <= fl[j].size && forall k :: 0 <= k < |fl| ==> fl[k].size >= 0
    ensures FreeAt(Carve(fl, j, n), u) <==> FreeAt(fl, u) && !Within(Block(CarvedAddr(fl, j, n), n), u)
  {
    hide FreeAt;
    var r, gone := Carve(fl, j, n), if fl[j].size == n then 1 else 0;
    if FreeAt(r, u) {
      var k := FreeIndex(r, u);
      var l := if k < j then k else k + gone;
      assert l != j ==> Within(fl[l], u);
      FreeAtIntro(fl, l, u);
    }
    if FreeAt(fl, u) {
      var l := FreeIndex(fl, u);
      if l != j {
        FreeAtIntro(r, if l < j then l else l - gone, u);
      } else if !Within(Block(CarvedAddr(fl, j, n), n), u) {
        FreeAtIntro(r, j, u);
      }
    }
  }
}
