/**
 The page allocator of kernel/kalloc.c. Free pages form a linked list threaded through their
 own first words; together with the pages in use they make up the allocatable range.
 */
module PhysPages {
  import opened PageTable

  /** PHYSTOP as a page number; the range starts at the page `first` after the kernel. */
  const STOP: int := 0x8_8000
  const KERNBASE: int := 0x8_0000

  const FREED: nat := 0x0101_0101_0101_0101
  const TAKEN: nat := 0x0505_0505_0505_0505

  /** Physical pages, and the head of the free list, 0 if it is empty. */
  datatype Ram = Ram(first: int, mem: Mem, head: nat)

  function Filled(w: nat): (page: Page)
    ensures |page| == ENTRIES && forall i :: 0 <= i < |page| ==> page[i] == w
  {
    seq(ENTRIES, i => w)
  }

  function Fill(mem: Mem, p: int, page: Page): Mem { mem[p := page] }

  /** kalloc's effect when a page is free: the head leaves the list and is filled with junk. */
  function Taken(s: Ram): Ram
    requires s.head in s.mem && |s.mem[s.head]| == ENTRIES
  {
    Ram(s.first, Fill(s.mem, s.head, Filled(TAKEN)), s.mem[s.head][0])
  }

  function FreedPage(next: nat): (page: Page)
    ensures |page| == ENTRIES && page[0] == next
  {
    var page: Page := Filled(FREED)[0 := next];
    page
  }

  /** kfree's effect: junk, with the old head in the first word. */
  function Freed(s: Ram, p: nat): Ram {
    Ram(s.first, Fill(s.mem, p, FreedPage(s.head)), p)
  }

  /** The list from `head` visits exactly these pages. */
  ghost predicate Chain(mem: Mem, head: nat, free: seq<int>)
    decreases |free|
  {
    if free == [] then head == 0
    else head == free[0] && head != 0 && head in mem && |mem[head]| == ENTRIES && Chain(mem, mem[head][0], free[1..])
  }

  lemma {:induction false} ChainFrame(mem: Mem, mem': Mem, head: nat, free: seq<int>)
    requires Chain(mem, head, free) && forall p :: p in free ==> p in mem' && p in mem && mem'[p] == mem[p]
    ensures Chain(mem', head, free)
    decreases |free|
  {
    if free != [] {
      ChainFrame(mem, mem', mem[head][0], free[1..]);
    }
  }

  ghost predicate Distinct(free: seq<int>) {
    forall i, j :: 0 <= i < j < |free| ==> free[i] != free[j]
  }

  /** Every page of the range is on the free list or in use, never both. */
  ghost predicate Heap(s: Ram, free: seq<int>, own: Owner) {
    && KERNBASE < s.first <= STOP
    && (forall p :: p in s.mem <==> s.first <= p < STOP)
    && (forall p :: p in s.mem ==> |s.mem[p]| == ENTRIES)
    && Chain(s.mem, s.head, free) && Distinct(free)
    && (forall p :: p in free ==> p in s.mem && p !in own)
    && (forall p :: p in own ==> p in s.mem)
    && (forall p :: p in s.mem ==> p in own || p in free)
  }

  lemma HeapTake(s: Ram, free: seq<int>, own: Owner)
    requires Heap(s, free, own) && s.head != 0
    ensures free != [] && s.head == free[0] && s.head in s.mem && |s.mem[s.head]| == ENTRIES && s.head !in own
    ensures Heap(Taken(s), free[1..], own[s.head := Held])
  {
    var p := s.head;
    assert p in free;
    assert forall q :: q in free[1..] ==> q in free && q != p;
    ChainFrame(s.mem, Taken(s).mem, s.mem[p][0], free[1..]);
    assert forall q :: q in free ==> q == p || q in free[1..];
  }

  lemma HeapGive(s: Ram, free: seq<int>, own: Owner, p: nat)
    requires Heap(s, free, own) && p in own
    ensures Heap(Freed(s, p), [p] + free, own - {p})
  {
    var mem' := Freed(s, p).mem;
    ChainFrame(s.mem, mem', s.head, free);
    assert ([p] + free)[1..] == free;
    assert p in [p] + free;
    assert forall q :: q in free ==> q in [p] + free;
  }

  lemma HeapWrite(s: Ram, free: seq<int>, own: Owner, p: int, page: Page)
    requires Heap(s, free, own) && p in own && |page| == ENTRIES
    ensures Heap(s.(mem := Fill(s.mem, p, page)), free, own)
  {
    ChainFrame(s.mem, Fill(s.mem, p, page), s.head, free);
  }

  lemma HeapRelabel(s: Ram, free: seq<int>, own: Owner, p: int, u: Use)
    requires Heap(s, free, own) && p in own
    ensures Heap(s, free, own[p := u])
  {
  }

  /** The free list as a set is what is not in use, so equal uses mean equal free sets. */
  lemma FreeIsTheRest(s: Ram, free: seq<int>, own: Owner, p: int)
    requires Heap(s, free, own)
    ensures p in free <==> s.first <= p < STOP && p !in own
  {
  }
}
