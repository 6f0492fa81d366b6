/**
 user/umalloc.c as code: a circular list of headers in memory, walked and spliced in place.
 `ptr` and `size` are the two header words by header address; an address is a count of
 Header units, and null is 0. `fl`, `live` and `got` record what the memory stands for.
 */
module Umalloc {
  import opened FreeList

  /** sizeof(Header), and morecore's smallest request in units */
  const HEADER_BYTES: int := 16
  const MIN_CORE: int := 4096
  const UINT_MAX: int := 0xFFFF_FFFF
  const INT_MAX: int := 0x7FFF_FFFF
  // the largest request whose units, in bytes, fit an int
  const MAX_REQUEST: int := INT_MAX - 31

  /** A header word in memory. */
  function At(m: map<int, int>, a: int): int {
    if a in m then m[a] else 0
  }

  /** A count of bytes passed as an int. */
  function AsInt(n: int): int {
    (n + INT_MAX + 1) % (UINT_MAX + 1) - INT_MAX - 1
  }

  /** What became of morecore's call of sbrk. */
  datatype Core = Refused | Obtained | Short(at: int)

  function NUnits(nbytes: int): int {
    (nbytes + HEADER_BYTES - 1) / HEADER_BYTES + 1
  }

  /** A header and just enough units for the bytes asked for. */
  lemma UnitsEnough(nbytes: int)
    ensures nbytes <= (NUnits(nbytes) - 1) * HEADER_BYTES < nbytes + HEADER_BYTES
  {
  }

  /** The headers of the free list, linked in a circle. */
  ghost predicate Linked(ptr: map<int, int>, size: map<int, int>, fl: seq<Block>) {
    forall k :: 0 <= k < |fl| ==> LinkedAt(ptr, size, fl, k)
  }

  ghost predicate Headers(size: map<int, int>, live: Live) {
    forall a :: a in live ==> At(size, a) == live[a]
  }

  /** The header of free block k says what it should. */
  ghost predicate LinkedAt(ptr: map<int, int>, size: map<int, int>, fl: seq<Block>, k: int)
    requires 0 <= k < |fl|
  {
    At(ptr, fl[k].addr) == fl[Succ(k, |fl|)].addr && At(size, fl[k].addr) == fl[k].size
  }

  lemma AddrsDiffer(fl: seq<Block>, i: int, j: int)
    requires Ordered(fl) && forall k :: 0 <= k < |fl| ==> fl[k].size >= 0
    requires 0 <= i < |fl| && 0 <= j < |fl| && i != j
    ensures fl[i].addr != fl[j].addr
    ensures i < j ==> fl[i].End() < fl[j].addr
    ensures j < i ==> fl[j].End() < fl[i].addr
  {
  }

  /** free's loop stops at header k exactly when k is the last free block below bp. */
  ghost predicate Stops(fl: seq<Block>, bp: int, k: int)
    requires 0 <= k < |fl|
  {
    var p, next := fl[k].addr, fl[Succ(k, |fl|)].addr;
    (bp > p && bp < next) || (p >= next && (bp > p || bp < next))
  }

  lemma StopsBelow(base: int, top: int, fl: seq<Block>, live: Live, bp: int, k: int)
    requires WellFormed(base, top, fl, live) && bp in live && 0 <= k < |fl|
    ensures Stops(fl, bp, k) <==> k == Below(fl, bp)
  {
    var t := Below(fl, bp);
    BelowFits(base, top, fl, live, bp);
    if k < t {
      assert fl[k].End() < fl[t].addr;
      if k + 1 < t {
        assert fl[k + 1].End() < fl[t].addr;
      }
    } else if t < k {
      assert t + 1 < k ==> fl[t + 1].End() < fl[k].addr;
    }
  }

  // ---- what free writes into the headers

  function FreedPtr(ptr: map<int, int>, fl: seq<Block>, t: int, b: Block): map<int, int>
    requires 0 <= t < |fl|
  {
    var p := fl[t].addr;
    var after := if JoinsUp(fl, t, b) then At(ptr, fl[t + 1].addr) else At(ptr, p);
    ptr[b.addr := after][p := if JoinsDown(fl, t, b) then after else b.addr]
  }

  function FreedSize(size: map<int, int>, fl: seq<Block>, t: int, b: Block): map<int, int>
    requires 0 <= t < |fl|
  {
    var n := b.size + if JoinsUp(fl, t, b) then fl[t + 1].size else 0;
    var size' := size[b.addr := n];
    if JoinsDown(fl, t, b) then size'[fl[t].addr := fl[t].size + n] else size'
  }

  ghost predicate CanFree(ptr: map<int, int>, size: map<int, int>, fl: seq<Block>, t: int, b: Block) {
    && Linked(ptr, size, fl) && 0 <= t < |fl| && Ordered(fl)
    && forall i :: 0 <= i < |fl| ==> fl[i].size >= 0 && fl[i].addr != b.addr
  }

  lemma FreedLinkedBefore(ptr: map<int, int>, size: map<int, int>, fl: seq<Block>, t: int,
          b: Block, r: seq<Block>, k: int)
    requires CanFree(ptr, size, fl, t, b) && Inserted(fl, t, b, r)
    requires 0 <= k < InsertedAt(fl, t, b)
    ensures LinkedAt(FreedPtr(ptr, fl, t, b), FreedSize(size, fl, t, b), r, k)
  {
    assert LinkedAt(ptr, size, fl, k);
    if k != t {
      AddrsDiffer(fl, k, t);
    }
  }

  lemma FreedLinkedHere(ptr: map<int, int>, size: map<int, int>, fl: seq<Block>, t: int, b: Block,
          r: seq<Block>)
    requires CanFree(ptr, size, fl, t, b) && Inserted(fl, t, b, r)
    requires JoinsDown(fl, t, b) ==> t > 0
    ensures LinkedAt(FreedPtr(ptr, fl, t, b), FreedSize(size, fl, t, b), r, InsertedAt(fl, t, b))
  {
    assert LinkedAt(ptr, size, fl, t);
    assert t + 1 < |fl| ==> LinkedAt(ptr, size, fl, t + 1);
  }

  lemma FreedLinkedAfter(ptr: map<int, int>, size: map<int, int>, fl: seq<Block>, t: int, b: Block,
          r: seq<Block>, k: int)
    requires CanFree(ptr, size, fl, t, b) && Inserted(fl, t, b, r)
    requires JoinsDown(fl, t, b) ==> t > 0
    requires InsertedAt(fl, t, b) < k < |r|
    ensures LinkedAt(FreedPtr(ptr, fl, t, b), FreedSize(size, fl, t, b), r, k)
  {
    hide Merged, Ordered;
    var i := k + Shift(fl, t, b);
    assert r[k] == fl[i] && i > t;
    assert r[Succ(k, |r|)].addr == fl[Succ(i, |fl|)].addr;
    assert LinkedAt(ptr, size, fl, i);
    AddrsDiffer(fl, i, t);
  }

  /** free's header writes link exactly the list with the block inserted. */
  lemma FreedLinked(ptr: map<int, int>, size: map<int, int>, fl: seq<Block>, t: int, b: Block)
    requires CanFree(ptr, size, fl, t, b) && (JoinsDown(fl, t, b) ==> t > 0)
    ensures Linked(FreedPtr(ptr, fl, t, b), FreedSize(size, fl, t, b), Insert(fl, t, b))
  {
    var r, q := Insert(fl, t, b), InsertedAt(fl, t, b);
    InsertInserts(fl, t, b);
    forall k | 0 <= k < |r| ensures LinkedAt(FreedPtr(ptr, fl, t, b), FreedSize(size, fl, t, b), r, k) {
      if k < q {
        FreedLinkedBefore(ptr, size, fl, t, b, r, k);
      } else if k == q {
        FreedLinkedHere(ptr, size, fl, t, b, r);
      } else {
        FreedLinkedAfter(ptr, size, fl, t, b, r, k);
      }
    }
  }

  // ---- what malloc writes into the headers

  /** The header writes of malloc when block j is large enough. */
  function CarvedPtr(ptr: map<int, int>, fl: seq<Block>, j: int, n: int): map<int, int>
    requires 0 < j < |fl|
  {
    if fl[j].size == n then ptr[fl[j - 1].addr := At(ptr, fl[j].addr)] else ptr
  }

  function CarvedSize(size: map<int, int>, fl: seq<Block>, j: int, n: int): map<int, int>
    requires 0 < j < |fl|
  {
    if fl[j].size == n then size
    else size[fl[j].addr := fl[j].size - n][CarvedAddr(fl, j, n) := n]
  }

  ghost predicate CanCarve(ptr: map<int, int>, size: map<int, int>, fl: seq<Block>, j: int, n: int) {
    && Linked(ptr, size, fl) && 0 < j < |fl| && Ordered(fl) && 1 <= n <= fl[j].size
    && forall i :: 0 <= i < |fl| ==> fl[i].size >= 0
  }

  lemma TakenLinkedAt(ptr: map<int, int>, size: map<int, int>, fl: seq<Block>, j: int,
          r: seq<Block>, k: int)
    requires 0 < j < |fl| && CanCarve(ptr, size, fl, j, fl[j].size)
    requires |r| == |fl| - 1 && forall i :: 0 <= i < |r| ==> r[i] == fl[if i < j then i else i + 1]
    requires 0 <= k < |r|
    ensures LinkedAt(CarvedPtr(ptr, fl, j, fl[j].size), size, r, k)
  {
    var i := if k < j then k else k + 1;
    assert LinkedAt(ptr, size, fl, i);
    assert LinkedAt(ptr, size, fl, j);
    if i != j - 1 {
      AddrsDiffer(fl, i, j - 1);
    }
  }

  lemma ShrunkLinkedAt(ptr: map<int, int>, size: map<int, int>, fl: seq<Block>, j: int, n: int,
          k: int)
    requires CanCarve(ptr, size, fl, j, n) && n < fl[j].size && 0 <= k < |fl|
    ensures
      var r := fl[j := Block(fl[j].addr, fl[j].size - n)];
      LinkedAt(ptr, CarvedSize(size, fl, j, n), r, k)
  {
    assert LinkedAt(ptr, size, fl, k);
    if k != j {
      AddrsDiffer(fl, k, j);
    }
  }

  /** malloc's header writes link exactly the list with the units taken out. */
  lemma CarvedLinked(ptr: map<int, int>, size: map<int, int>, fl: seq<Block>, j: int, n: int)
    requires CanCarve(ptr, size, fl, j, n)
    ensures Linked(CarvedPtr(ptr, fl, j, n), CarvedSize(size, fl, j, n), Carve(fl, j, n))
  {
    var r := Carve(fl, j, n);
    forall k | 0 <= k < |r| ensures LinkedAt(CarvedPtr(ptr, fl, j, n), CarvedSize(size, fl, j, n), r, k) {
      if fl[j].size == n {
        TakenLinkedAt(ptr, size, fl, j, r, k);
      } else {
        ShrunkLinkedAt(ptr, size, fl, j, n, k);
      }
    }
  }

  // ---- the heap object

  /** The two header words, by address, and the list, allocations and units they stand for. */
  datatype Memory = Memory(ptr: map<int, int>, size: map<int, int>)

  datatype Meaning = Meaning(fl: seq<Block>, cur: int, live: Live, got: int)

  /** The heap invariant once malloc has set up the list. */
  ghost predicate Sound(base: int, top: int, m: Memory, freep: int, v: Meaning) {
    && 0 < base && WellFormed(base, top, v.fl, v.live)
    && Linked(m.ptr, m.size, v.fl) && Headers(m.size, v.live)
    && 0 <= v.cur < |v.fl| && freep == v.fl[v.cur].addr
    && FreeTotal(v.fl) + LiveTotal(v.live) == v.got
  }

  lemma LiveNotFree(base: int, top: int, fl: seq<Block>, live: Live, a: int, k: int)
    requires WellFormed(base, top, fl, live) && a in live && 0 <= k < |fl|
    ensures fl[k].addr != a
  {
    assert Apart(fl[k].addr, fl[k].size, a, live[a]);
  }

  lemma SoundTop(base: int, top: int, m: Memory, freep: int, v: Meaning)
    requires Sound(base, top, m, freep, v)
    ensures 0 < base < top && |v.fl| >= 1
  {
  }

  // free

  /** Where free puts the block at bp. */
  ghost function Target(v: Meaning, bp: int): int {
    if |v.fl| >= 1 && v.fl[0].addr < bp then Below(v.fl, bp) else 0
  }

  ghost function FreedMeaning(v: Meaning, bp: int): Meaning
    requires bp in v.live && 0 <= Target(v, bp) < |v.fl|
  {
    var t := Target(v, bp);
    Meaning(Insert(v.fl, t, Block(bp, v.live[bp])), t, v.live - {bp}, v.got)
  }

  ghost function FreedMemory(m: Memory, v: Meaning, bp: int): Memory
    requires bp in v.live && 0 <= Target(v, bp) < |v.fl|
  {
    var t, b := Target(v, bp), Block(bp, v.live[bp]);
    Memory(FreedPtr(m.ptr, v.fl, t, b), FreedSize(m.size, v.fl, t, b))
  }

  /** Freeing a live block keeps the heap sound: the list, the live blocks and the total. */
  lemma FreeSound(base: int, top: int, m: Memory, freep: int, v: Meaning, bp: int)
    requires Sound(base, top, m, freep, v) && bp in v.live
    ensures 0 <= Target(v, bp) < |v.fl|
    ensures Sound(base, top, FreedMemory(m, v, bp), v.fl[Target(v, bp)].addr, FreedMeaning(v, bp))
  {
    var t := Target(v, bp);
    var b := Block(bp, v.live[bp]);
    InsertWellFormed(base, top, v.fl, v.live, bp);
    forall i | 0 <= i < |v.fl| ensures v.fl[i].addr != bp {
      LiveNotFree(base, top, v.fl, v.live, bp, i);
    }
    BelowFits(base, top, v.fl, v.live, bp);
    FreedLinked(m.ptr, m.size, v.fl, t, b);
    forall a | a in v.live - {bp} ensures At(FreedSize(m.size, v.fl, t, b), a) == v.live[a] {
      LiveNotFree(base, top, v.fl, v.live, a, t);
    }
    InsertTotal(v.fl, t, b);
    LiveTotalRemove(v.live, bp);
    InsertInserts(v.fl, t, b);
  }

  /** What free's header writes rely on at the place its search found. */
  ghost predicate CanSplice(m: Memory, fl: seq<Block>, t: int, p: int, b: Block) {
    && 0 <= t < |fl| && p == fl[t].addr && b.addr in m.size && At(m.size, b.addr) == b.size && b.addr != p
    && LinkedAt(m.ptr, m.size, fl, t)
    && (t + 1 < |fl| ==> LinkedAt(m.ptr, m.size, fl, t + 1) && fl[t + 1].addr != b.addr)
    && (t + 1 == |fl| ==> b.End() != At(m.ptr, p))
  }

  lemma SpliceReady(base: int, top: int, m: Memory, freep: int, v: Meaning, bp: int)
    requires Sound(base, top, m, freep, v) && bp in v.live
    ensures 0 <= Target(v, bp) < |v.fl| && v.fl[Target(v, bp)].addr != 0
    ensures CanSplice(m, v.fl, Target(v, bp), v.fl[Target(v, bp)].addr, Block(bp, v.live[bp]))
  {
    var t := Target(v, bp);
    LiveNotFree(base, top, v.fl, v.live, bp, t);
    if t + 1 < |v.fl| {
      LiveNotFree(base, top, v.fl, v.live, bp, t + 1);
    }
    if t > 0 {
      assert v.fl[0].End() < v.fl[t].addr;
    }
  }

  // morecore

  /** Some free block has at least n units. */
  ghost predicate HasRoom(fl: seq<Block>, n: int) {
    exists k :: 0 <= k < |fl| && fl[k].size >= n
  }

  /** A region just obtained from sbrk joins the heap as a live block. */
  lemma GrowSound(base: int, top: int, m: Memory, freep: int, v: Meaning, p: int, n: int)
    requires Sound(base, top, m, freep, v) && top <= p && n >= 1
    ensures p !in v.live
    ensures Sound(base, p + n, m.(size := m.size[p := n]), freep, v.(live := v.live[p := n], got := v.got + n))
  {
    GrowWellFormed(base, top, v.fl, v.live, p, n);
    LiveTotalAdd(v.live, p, n);
    var size := m.size[p := n];
    forall k | 0 <= k < |v.fl| ensures LinkedAt(m.ptr, size, v.fl, k) {
      assert LinkedAt(m.ptr, m.size, v.fl, k);
      LiveNotFree(base, p + n, v.fl, v.live[p := n], p, k);
    }
  }

  lemma FreedHasRoom(base: int, top: int, m: Memory, freep: int, v: Meaning, bp: int, n: int)
    requires Sound(base, top, m, freep, v) && bp in v.live && v.live[bp] >= n
    ensures 0 <= Target(v, bp) < |v.fl| && HasRoom(FreedMeaning(v, bp).fl, n)
  {
    var t, b := Target(v, bp), Block(bp, v.live[bp]);
    InsertInserts(v.fl, t, b);
    assert Insert(v.fl, t, b)[InsertedAt(v.fl, t, b)].size >= n;
  }

  // malloc

  function CarvedMeaning(v: Meaning, j: int, n: int): Meaning
    requires 0 < j < |v.fl|
  {
    Meaning(Carve(v.fl, j, n), j - 1, v.live[CarvedAddr(v.fl, j, n) := n], v.got)
  }

  function CarvedMemory(m: Memory, v: Meaning, j: int, n: int): Memory
    requires 0 < j < |v.fl|
  {
    Memory(CarvedPtr(m.ptr, v.fl, j, n), CarvedSize(m.size, v.fl, j, n))
  }

  lemma CarvedHeaders(base: int, top: int, size: map<int, int>, fl: seq<Block>, live: Live, j: int,
          n: int)
    requires WellFormed(base, top, fl, live) && 0 < j < |fl| && 1 <= n <= fl[j].size
    requires Headers(size, live) && At(size, fl[j].addr) == fl[j].size
    ensures Headers(CarvedSize(size, fl, j, n), live[CarvedAddr(fl, j, n) := n])
  {
    forall a | a in live ensures a != fl[j].addr {
      LiveNotFree(base, top, fl, live, a, j);
    }
  }

  lemma CarvePlace(base: int, top: int, fl: seq<Block>, live: Live, j: int, n: int)
    requires 0 < base && WellFormed(base, top, fl, live) && 0 <= j < |fl| && 1 <= n <= fl[j].size
    ensures j > 0 && CarvedAddr(fl, j, n) > 0 && fl[j - 1].addr > 0
    ensures Ordered(fl) && forall k :: 0 <= k < |fl| ==> fl[k].size >= 0
  {
    if j > 0 {
      assert fl[0].End() < fl[j].addr;
      assert j > 1 ==> fl[0].End() < fl[j - 1].addr;
    }
  }

  /** Allocating from free block j keeps the heap sound. */
  lemma CarveSound(base: int, top: int, m: Memory, freep: int, v: Meaning, j: int, n: int)
    requires Sound(base, top, m, freep, v) && 0 <= j < |v.fl| && 1 <= n <= v.fl[j].size
    ensures j > 0 && CarvedAddr(v.fl, j, n) !in v.live && CarvedAddr(v.fl, j, n) > 0
    ensures v.fl[j - 1].addr != 0
    ensures Sound(base, top, CarvedMemory(m, v, j, n), v.fl[j - 1].addr, CarvedMeaning(v, j, n))
  {
    hide WellFormed, Headers, FreeTotal, LiveTotal, Ordered;
    var q := CarvedAddr(v.fl, j, n);
    CarvePlace(base, top, v.fl, v.live, j, n);
    CarveWellFormed(base, top, v.fl, v.live, j, n);
    assert LinkedAt(m.ptr, m.size, v.fl, j);
    CarvedHeaders(base, top, m.size, v.fl, v.live, j, n);
    CarvedLinked(m.ptr, m.size, v.fl, j, n);
    CarveTotal(v.fl, j, n);
    LiveTotalAdd(v.live, q, n);
    CarveAt(v.fl, j, n, j - 1);
  }

  /** The list malloc starts from: base alone, linked to itself. */
  lemma InitSound(base: int, top: int, m: Memory)
    requires 0 < base < top
    ensures Sound(base, top, Memory(m.ptr[base := base], m.size[base := 0]), base,
            Meaning([Block(base, 0)], 0, map[], 0))
  {
    var fl := [Block(base, 0)];
    assert fl[..0] == [];
  }

  class Heap {
    const base: int
    var m: Memory
    var freep: int
    /** Everything below `top` is taken; sbrk hands out addresses from here up. */
    var top: int
    ghost var v: Meaning

    ghost predicate Valid()
      reads this
    {
      if freep == 0 then 0 < base < top && v == Meaning([], 0, map[], 0)
      else Sound(base, top, m, freep, v)
    }

    /** Before the first call: no list yet, and base below all memory sbrk can return. */
    constructor (base: int, top: int)
      requires 0 < base < top
      ensures Valid() && this.base == base && freep == 0 && v == Meaning([], 0, map[], 0)
    {
      this.base, this.top := base, top;
      m, freep := Memory(map[], map[]), 0;
      v := Meaning([], 0, map[], 0);
    }

    /** free's search, a walk round the circle from freep that always ends. */
    method FindBelow(bp: int) returns (p: int)
      requires Valid() && freep != 0 && bp in v.live
      ensures 0 <= Target(v, bp) < |v.fl| && p == v.fl[Target(v, bp)].addr
    {
      p := freep;
      ghost var fl, k, t := v.fl, v.cur, Below(v.fl, bp);
      hide WellFormed, Headers, Below;
      StopsBelow(base, top, fl, v.live, bp, k);
      assert LinkedAt(m.ptr, m.size, fl, k);
      while !(bp > p && bp < At(m.ptr, p))
        invariant 0 <= k < |fl| && p == fl[k].addr && At(m.ptr, p) == fl[Succ(k, |fl|)].addr
        invariant Stops(fl, bp, k) <==> k == t
        decreases Dist(k, t, |fl|)
      {
        if p >= At(m.ptr, p) && (bp > p || bp < At(m.ptr, p)) {
          break;
        }
        p := At(m.ptr, p);
        k := Succ(k, |fl|);
        assert LinkedAt(m.ptr, m.size, fl, k);
        StopsBelow(base, top, fl, v.live, bp, k);
      }
    }

    /** free's header writes: join bp with the block above and the block below it. */
    method Splice(p: int, bp: int, ghost t: int, ghost b: Block)
      requires b.addr == bp && CanSplice(m, v.fl, t, p, b)
      modifies `m
      ensures m == Memory(FreedPtr(old(m.ptr), v.fl, t, b), FreedSize(old(m.size), v.fl, t, b))
    {
      var ptr, size := m.ptr, m.size;
      var next := At(ptr, p);
      if bp + At(size, bp) == next {
        size := size[bp := At(size, bp) + At(size, next)];
        ptr := ptr[bp := At(ptr, next)];
      } else {
        ptr := ptr[bp := next];
      }
      if p + At(size, p) == bp {
        size := size[p := At(size, p) + At(size, bp)];
        ptr := ptr[p := At(ptr, bp)];
      } else {
        ptr := ptr[p := bp];
      }
      m := Memory(ptr, size);
    }

    /** free(ap): the block goes back to the list, merged with its free neighbours. */
    method Free(ap: int)
      requires Valid() && freep != 0 && ap - 1 in v.live
      modifies `m, `freep, `v
      ensures Valid() && freep != 0
      ensures 0 <= Target(old(v), ap - 1) < |old(v).fl| && v == FreedMeaning(old(v), ap - 1)
      ensures Freed(old(v).fl, v.fl, Block(ap - 1, old(v).live[ap - 1]))
    {
      hide Sound, Target, CanSplice, Freed;
      var bp := ap - 1;
      FreeSound(base, top, m, freep, v, bp);
      SpliceReady(base, top, m, freep, v, bp);
      var p := FindBelow(bp);
      Splice(p, bp, Target(v, bp), Block(bp, v.live[bp]));
      freep := p;
      FreedIs(base, top, m, old(freep), v, bp, old(m));
      v := FreedMeaning(v, bp);
    }

    /**
     sbrk: null, or the end of the process's memory so far, `gap` above what was handed out
     here. A growth moves the end up by n bytes and can be refused, for lack of memory;
     anything else is granted, moves it down, or leaves it where it is when the process has
     less to give up.
     */
    method Sbrk(n: int, refuse: bool, gap: nat) returns (p: int)
      requires n % HEADER_BYTES == 0 && 0 < top
      modifies `top
      ensures p == 0 <==> 0 < n && refuse
      ensures p == 0 ==> top == old(top)
      ensures p != 0 ==> p == old(top) + gap
      ensures p != 0 && 0 < n ==> top == p + n / HEADER_BYTES
      ensures p != 0 && n <= 0 ==> top == if p + n / HEADER_BYTES < 0 then p else p + n / HEADER_BYTES
    {
      if 0 < n && refuse {
        p := 0;
      } else {
        p := top + gap;
        top := if n <= 0 && p + n / HEADER_BYTES < 0 then p else p + n / HEADER_BYTES;
      }
    }

    /**
     morecore: extend the heap by at least nu units and free them into the list. The number
     of bytes becomes sbrk's int; where it does not fit, sbrk returns a place, at, and the
     header written there claims more than the process has.
     */
    method Morecore(nu: int, refuse: bool, gap: nat) returns (core: Core)
      requires Valid() && freep != 0 && 1 <= nu <= NUnits(UINT_MAX)
      modifies `m, `freep, `top, `v
      ensures !core.Short? ==> Valid() && freep != 0 && v.live == old(v).live
      ensures core.Refused? ==> v == old(v)
      ensures core.Obtained? ==>
                v.got == old(v).got + (if nu < MIN_CORE then MIN_CORE else nu) && HasRoom(v.fl, nu)
      ensures core.Obtained? ==> Freed(old(v).fl, v.fl, Fresh(old(top), gap, nu))
      ensures core.Short? ==> v == old(v) && 0 < core.at && top < core.at + nu
      ensures !core.Refused? ==> (core.Short? <==> nu * HEADER_BYTES > INT_MAX)
      ensures core.Refused? <==> refuse && AsInt(nu * HEADER_BYTES) > 0
    {
      var n := if nu < MIN_CORE then MIN_CORE else nu;
      hide Sound, Target, HasRoom, FreedMemory, Freed;
      SoundTop(base, top, m, freep, v);
      BytesAsked(n);
      var hp := Sbrk(AsInt(n * HEADER_BYTES), refuse, gap);
      if hp == 0 {
        return Refused;
      }
      if AsInt(n * HEADER_BYTES) != n * HEADER_BYTES {
        return Short(hp);
      }
      GrowSound(base, old(top), m, freep, v, hp, n);
      m := m.(size := m.size[hp := n]);
      v := v.(live := v.live[hp := n], got := v.got + n);
      FreedHasRoom(base, top, m, freep, v, hp, nu);
      Free(hp + 1);
      assert v.live == old(v).live;
      core := Obtained;
    }

    /**
     One lap of malloc's search, from the block after freep round to freep itself: the
     first block with n units, if any block has them.
     */
    method Lap(n: int) returns (found: bool, prevp: int, p: int, ghost j: int)
      requires Valid() && freep != 0 && n >= 1
      ensures found <==> HasRoom(v.fl, n)
      ensures found ==> 0 < j < |v.fl| && v.fl[j].size >= n && p == v.fl[j].addr && prevp == v.fl[j - 1].addr
      ensures found ==> forall k :: 0 <= k < |v.fl| && Lapped(v, k) < Lapped(v, j) ==> v.fl[k].size < n
    {
      hide WellFormed, Headers, FreeTotal, LiveTotal;
      prevp, j := freep, Succ(v.cur, |v.fl|);
      assert LinkedAt(m.ptr, m.size, v.fl, v.cur);
      p := At(m.ptr, prevp);
      while true
        invariant 0 <= j < |v.fl| && p == v.fl[j].addr
        invariant prevp == v.fl[if j > 0 then j - 1 else |v.fl| - 1].addr
        invariant forall k :: 0 <= k < |v.fl| && Lapped(v, k) < Lapped(v, j) ==> v.fl[k].size < n
        decreases Dist(j, v.cur, |v.fl|)
      {
        assert LinkedAt(m.ptr, m.size, v.fl, j);
        if At(m.size, p) >= n {
          CarvePlace(base, top, v.fl, v.live, j, n);
          return true, prevp, p, j;
        }
        if p == freep {
          CurrentIndex(base, top, v.fl, v.live, j, v.cur);
          return false, prevp, p, j;
        }
        prevp := p;
        p := At(m.ptr, p);
        j := Succ(j, |v.fl|);
      }
    }

    /** malloc's header writes: unlink the block, or take n units off its end. */
    method Take(prevp: int, p: int, n: int, ghost j: int) returns (q: int)
      requires Valid() && freep != 0 && 0 < j < |v.fl| && 1 <= n <= v.fl[j].size
      requires p == v.fl[j].addr && prevp == v.fl[j - 1].addr
      modifies `m
      ensures q == CarvedAddr(v.fl, j, n) && m == CarvedMemory(old(m), v, j, n)
    {
      hide WellFormed, Headers, FreeTotal, LiveTotal;
      assert LinkedAt(m.ptr, m.size, v.fl, j);
      if At(m.size, p) == n {
        m := m.(ptr := m.ptr[prevp := At(m.ptr, p)]);
        q := p;
      } else {
        m := m.(size := m.size[p := At(m.size, p) - n]);
        q := p + At(m.size, p);
        m := m.(size := m.size[q := n]);
      }
    }

    /**
     malloc: a block of NUnits(nbytes) units, its nbytes the caller's alone, or null exactly
     when no free block is large enough and sbrk refuses. The units are taken from the free
     ones, the first block of the lap that has them. After a successful morecore the next lap
     finds a block, except that it cannot be one the process has when the bytes
     do not fit sbrk's int: then, and only then, the block would be Short, and starts at r.
     */
    method Malloc(nbytes: int, refuse: bool, gap: nat) returns (r: int, core: Core)
      requires Valid() && 0 <= nbytes <= UINT_MAX
      modifies `m, `freep, `top, `v
      ensures !core.Short? ==> Valid() && freep != 0
      ensures core.Refused? <==> r == 0
      ensures r == 0 ==> v.live == old(v).live && v.got == old(v).got && !HasRoom(v.fl, NUnits(nbytes))
      ensures core.Obtained? ==> r - 1 !in old(v).live && v.live == old(v).live[r - 1 := NUnits(nbytes)]
      ensures core.Obtained? ==> OwnBytes(top, v, r, nbytes)
      ensures core.Obtained? ==>
                var room := old(freep) != 0 && HasRoom(old(v).fl, NUnits(nbytes));
                Taken(old(v).fl, v.fl, if room then Block(0, 0) else Fresh(old(top), gap, NUnits(nbytes)),
                      Block(r - 1, NUnits(nbytes)))
      ensures core.Short? ==> r == core.at + 1 && top < core.at + NUnits(nbytes)
      ensures old(freep) != 0 && HasRoom(old(v).fl, NUnits(nbytes)) ==> core.Obtained? && v.got == old(v).got
      ensures r != 0 && !(old(freep) != 0 && HasRoom(old(v).fl, NUnits(nbytes))) ==>
                (core.Short? <==> nbytes > MAX_REQUEST)
      ensures r == 0 <==>
                && !(old(freep) != 0 && HasRoom(old(v).fl, NUnits(nbytes))) && refuse
                && (nbytes <= MAX_REQUEST || nbytes > UINT_MAX - HEADER_BYTES + 1)
    {
      hide NUnits, AsInt, Sound, HasRoom, Carve, CarvedMemory, CarvedAddr, Freed, Taken, OwnBytes, Fresh, FreeAt;
      RequestBound(nbytes);
      var n := NUnits(nbytes);
      if freep == 0 {
        InitSound(base, top, m);
        m := Memory(m.ptr[base := base], m.size[base := 0]);
        freep := base;
        v := Meaning([Block(base, 0)], 0, map[], 0);
        EmptyRoom(base, n);
      }
      ghost var v1 := v;
      TakenStart(old(v).fl, v1.fl, base);
      var found, prevp, p;
      ghost var j;
      FreedNone(v1.fl);
      found, prevp, p, j := Lap(n);
      if !found {
        core := Morecore(n, refuse, gap);
        if core.Refused? {
          return 0, core;
        }
        if core.Short? {
          return core.at + 1, core;
        }
        found, prevp, p, j := Lap(n);
        assert found;
      }
      ghost var region := if old(freep) != 0 && HasRoom(old(v).fl, n) then Block(0, 0) else Fresh(old(top), gap, n);
      TakenIs(base, top, old(v).fl, v1.fl, v, j, n, region, m, freep);
      CarveSound(base, top, m, freep, v, j, n);
      var q := Take(prevp, p, n, j);
      freep := prevp;
      v := CarvedMeaning(v, j, n);
      r, core := q + 1, Obtained;
      OwnBytesIs(base, top, m, freep, v, r, nbytes);
    }
  }

  // ---- which units and bytes a call concerns

  /** The units of b are free now, and otherwise those that were. */
  ghost predicate Freed(fl: seq<Block>, fl': seq<Block>, b: Block) {
    forall u :: FreeAt(fl', u) <==> FreeAt(fl, u) || Within(b, u)
  }

  /** The units free now are those that were and those of `region`, without those of b, which were among them. */
  ghost predicate Taken(fl: seq<Block>, fl': seq<Block>, region: Block, b: Block) {
    && (forall u :: FreeAt(fl', u) <==> (FreeAt(fl, u) || Within(region, u)) && !Within(b, u))
    && forall u :: Within(b, u) ==> FreeAt(fl, u) || Within(region, u)
  }

  /** The region morecore obtains. */
  function Fresh(top: int, gap: nat, nu: int): Block {
    Block(top + gap, if nu < MIN_CORE then MIN_CORE else nu)
  }

  /** The nbytes at r lie in the block of r, below the end of memory, and in no other block, live or free. */
  ghost predicate OwnBytes(top: int, v: Meaning, r: int, nbytes: int) {
    && r - 1 in v.live && HEADER_BYTES * r + nbytes <= HEADER_BYTES * (r - 1 + v.live[r - 1]) <= HEADER_BYTES * top
    && (forall a :: a in v.live && a != r - 1 ==>
          HEADER_BYTES * r + nbytes <= HEADER_BYTES * a || HEADER_BYTES * (a + v.live[a]) <= HEADER_BYTES * (r - 1))
    && forall u :: FreeAt(v.fl, u) ==> HEADER_BYTES * r + nbytes <= HEADER_BYTES * u || u < r - 1
  }

  lemma FreedIs(base: int, top: int, m': Memory, freep: int, v: Meaning, bp: int, m: Memory)
    requires Sound(base, top, m, freep, v) && bp in v.live && 0 <= Target(v, bp) < |v.fl|
    ensures Freed(v.fl, FreedMeaning(v, bp).fl, Block(bp, v.live[bp]))
  {
    hide FreeAt, Below, Ordered;
    forall u ensures FreeAt(FreedMeaning(v, bp).fl, u) <==> FreeAt(v.fl, u) || Within(Block(bp, v.live[bp]), u) {
      InsertUnits(v.fl, Target(v, bp), Block(bp, v.live[bp]), u);
    }
  }

  lemma EmptyRoom(base: int, n: int)
    requires n >= 1
    ensures !HasRoom([Block(base, 0)], n)
  {
  }

  lemma TakenStart(fl: seq<Block>, fl1: seq<Block>, base: int)
    requires fl1 == fl || (fl == [] && fl1 == [Block(base, 0)])
    ensures forall u :: FreeAt(fl1, u) <==> FreeAt(fl, u)
  {
  }

  lemma TakenIs(base: int, top: int, fl: seq<Block>, fl1: seq<Block>, v: Meaning, j: int, n: int, region: Block,
          m: Memory, freep: int)
    requires Sound(base, top, m, freep, v) && 0 < j < |v.fl| && 1 <= n <= v.fl[j].size
    requires forall u :: FreeAt(fl1, u) <==> FreeAt(fl, u)
    requires Freed(fl1, v.fl, region)
    ensures Taken(fl, CarvedMeaning(v, j, n).fl, region, Block(CarvedAddr(v.fl, j, n), n))
  {
    hide FreeAt, Carve;
    var b := Block(CarvedAddr(v.fl, j, n), n);
    SoundSizes(base, top, m, freep, v);
    forall u ensures FreeAt(Carve(v.fl, j, n), u) <==> FreeAt(v.fl, u) && !Within(b, u) {
      CarveUnits(v.fl, j, n, u);
    }
    forall u | Within(b, u) ensures FreeAt(v.fl, u) {
      FreeAtIntro(v.fl, j, u);
    }
  }

  lemma SoundSizes(base: int, top: int, m: Memory, freep: int, v: Meaning)
    requires Sound(base, top, m, freep, v)
    ensures Ordered(v.fl) && forall k :: 0 <= k < |v.fl| ==> v.fl[k].size >= 0
  {
  }

  lemma FreedNone(fl: seq<Block>)
    ensures Freed(fl, fl, Block(0, 0))
  {
    hide FreeAt;
  }

  lemma OwnBytesIs(base: int, top: int, m: Memory, freep: int, v: Meaning, r: int, nbytes: int)
    requires Sound(base, top, m, freep, v) && 0 <= nbytes && r - 1 in v.live && v.live[r - 1] == NUnits(nbytes)
    ensures OwnBytes(top, v, r, nbytes)
  {
    hide NUnits, Ordered, FreeTotal, LiveTotal;
    UnitsEnough(nbytes);
    forall u | FreeAt(v.fl, u) ensures HEADER_BYTES * r + nbytes <= HEADER_BYTES * u || u < r - 1 {
      var k := FreeIndex(v.fl, u);
      assert Apart(v.fl[k].addr, v.fl[k].size, r - 1, v.live[r - 1]);
    }
  }

  lemma BytesAsked(n: int)
    requires 1 <= n <= NUnits(UINT_MAX)
    ensures AsInt(n * HEADER_BYTES) % HEADER_BYTES == 0 && AsInt(n * HEADER_BYTES) <= n * HEADER_BYTES
    ensures AsInt(n * HEADER_BYTES) == n * HEADER_BYTES <==> n * HEADER_BYTES <= INT_MAX
  {
  }

  /** The requests malloc can serve with region memory, and what it asks sbrk for otherwise. */
  lemma RequestBound(nbytes: int)
    requires 0 <= nbytes <= UINT_MAX
    ensures 1 <= NUnits(nbytes) <= NUnits(UINT_MAX)
    ensures NUnits(nbytes) * HEADER_BYTES <= INT_MAX <==> nbytes <= MAX_REQUEST
    ensures AsInt(NUnits(nbytes) * HEADER_BYTES) > 0 <==>
              nbytes <= MAX_REQUEST || nbytes > UINT_MAX - HEADER_BYTES + 1
  {
  }

  /** How many blocks malloc's lap looks at before block k. */
  function Lapped(v: Meaning, k: int): int {
    Dist(Succ(v.cur, |v.fl|), k, |v.fl|)
  }

  lemma CurrentIndex(base: int, top: int, fl: seq<Block>, live: Live, j: int, k: int)
    requires WellFormed(base, top, fl, live) && 0 <= j < |fl| && 0 <= k < |fl| && fl[j].addr == fl[k].addr
    ensures j == k
  {
    if j != k {
      AddrsDiffer(fl, j, k);
    }
  }
}
