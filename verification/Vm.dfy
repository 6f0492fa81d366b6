/**
 Virtual memory, kernel/vm.c with kernel/kalloc.c: page tables built and torn down in place.
 */
module Vm {
  import opened PageTable
  import opened PhysPages
  import opened AddressSpace
  import opened UserSpace
  import opened VmSteps
  import opened PageBudget

  class Memory {
    var ram: Ram
    ghost var free: seq<int>
    ghost var own: Owner

    // ---- kalloc.c

    /** kinit: every page from the end of the kernel to PHYSTOP is put on the free list */
    constructor (first: nat, mem: Mem)
      requires KERNBASE < first <= STOP && forall p :: p in mem <==> first <= p < STOP
      requires forall p :: p in mem ==> |mem[p]| == ENTRIES
      ensures Sound(ram, free, own) && own == map[] && ram.first == first
    {
      ram := Ram(first, mem, 0);
      free := [];
      own := AllHeld(mem);
      new;
      hide *;
      var p := first;
      InitStart(ram, own, mem);
      while p < STOP
        invariant first <= p && Initialising(ram, free, own, first, p)
      {
        InitNext(ram, free, own, first, p);
        Kfree(p);
        p := p + 1;
      }
      InitDone(ram, free, own, first, p);
    }

    /** 0 when no page is free */
    method Kalloc() returns (p: nat)
      requires Sound(ram, free, own)
      modifies this
      ensures p == old(ram.head)
      ensures p == 0 ==> ram == old(ram) && free == old(free) && own == old(own)
      ensures p != 0 ==>
        && p in old(ram.mem) && |old(ram.mem)[p]| == ENTRIES && p !in old(own) && old(free) != []
        && ram == Taken(old(ram)) && free == old(free)[1..] && own == old(own)[p := Held]
        && Sound(ram, free, own)
    {
      hide *;
      p := ram.head;
      if p != 0 {
        TakeSound(ram, free, own);
        TakenIs(ram);
        ram := Ram(ram.first, ram.mem[p := Filled(TAKEN)], ram.mem[p][0]);
        free := free[1..];
        own := own[p := Held];
      }
    }

    method Kfree(p: nat)
      requires p in ram.mem
      modifies this
      ensures ram == Freed(old(ram), p) && free == [p] + old(free) && own == old(own) - {p}
    {
      hide *;
      FreedIs(ram, p);
      var page := Filled(FREED);
      ram := ram.(mem := ram.mem[p := page]);
      page := FreedPage(ram.head);
      ram := ram.(mem := ram.mem[p := page], head := p);
      free := [p] + free;
      own := own - {p};
    }

    // ---- walking

    /** One level of walk: the page below entry i, made if it is missing and alloc is set. */
    method Descend(r: int, ghost path: Path, table: int, i: int, alloc: bool) returns (next: int)
      requires Descending(ram, free, own, r, path, i) && table == At(ram.mem, r, path)
      modifies this
      ensures Sound(ram, free, own) && IsRoot(own, r) && Grown(old(ram), old(own), ram, own, r)
      ensures next == At(ram.mem, r, Child(path, i))
      ensures !alloc ==> ram == old(ram) && free == old(free) && own == old(own)
      ensures alloc && next == 0 ==> ram.head == 0
      ensures Tables(own, r) <= Tables(old(own), r) + {Child(path, i)}
    {
      hide *;
      DescendReady(ram, free, own, r, path, i);
      GrownSame(ram, own, r);
      var w := ram.mem[table][i];
      if Valid(w) {
        next := Ppn(w);
      } else {
        if !alloc {
          return 0;
        }
        if ram.head != 0 {
          GrowSteps(ram, free, own, r, path, i);
        }
        next := Kalloc();
        if next == 0 {
          return;
        }
        ram := ram.(mem := ram.mem[next := Filled(0)]);
        ram := ram.(mem := Store(ram.mem, table, i, Mk(next, PTE_V)));
        own := own[next := Table(r, Child(path, i))];
        DescendTables(old(own), next, r, Child(path, i));
        assert own == old(own)[next := Table(r, Child(path, i))];
      }
    }

    /** walk: the table page that holds the entry for v, 0 if it is not there */
    method Walk(r: int, v: int, alloc: bool) returns (table: int)
      requires Sound(ram, free, own) && IsRoot(own, r) && 0 <= v < MAXVPN
      modifies this
      ensures Sound(ram, free, own) && IsRoot(own, r) && Grown(old(ram), old(own), ram, own, r)
      ensures table == At(ram.mem, r, LowOf(v))
      ensures !alloc ==> ram == old(ram) && free == old(free) && own == old(own)
      ensures alloc && table == 0 ==> ram.head == 0
      ensures Tables(own, r) <= Tables(old(own), r) + PathsOf(v, 1)
    {
      hide *;
      table := r;
      var level := 2;
      WalkStart(ram, free, own, r, v);
      while level > 0
        invariant 0 <= level <= 2 && Walking(ram, free, own, r, v, level, table)
        invariant Grown(old(ram), old(own), ram, own, r)
        invariant !alloc ==> ram == old(ram) && free == old(free) && own == old(own)
        invariant Tables(own, r) <= Tables(old(own), r) + PathsOf(v, 1)
      {
        ChildPath(v, level);
        WalkDown(ram, free, own, r, v, level, table);
        ghost var ram1, own1 := ram, own;
        var next := Descend(r, PathAt(v, level), table, PxAt(v, level), alloc);
        GrownTwice(old(ram), old(own), ram1, own1, ram, own, r);
        WalkNext(ram, free, own, r, v, level, next);
        if next == 0 {
          return 0;
        }
        table := next;
        level := level - 1;
      }
      WalkEnd(ram, free, own, r, v, table);
    }

    /** The page a user address is in, or 0. */
    method Walkaddr(r: int, va: nat) returns (pa: nat)
      requires Sound(ram, free, own) && IsRoot(own, r)
      modifies this
      ensures ram == old(ram) && free == old(free) && own == old(own)
      ensures
        var m := Mapping(ram.mem, r);
        pa == if va < MAXVPN * 4096 && va / 4096 in m && UserBit(m[va / 4096]) then Ppn(m[va / 4096]) else 0
    {
      hide *;
      WalkaddrCases(ram, free, own, r, va);
      if va >= MAXVPN * 4096 {
        return 0;
      }
      var v := va / 4096;
      var table := Walk(r, v, false);
      if table == 0 {
        return 0;
      }
      var w := ram.mem[table][Px0(v)];
      if !Valid(w) || !UserBit(w) {
        return 0;
      }
      pa := Ppn(w);
    }

    // ---- mapping and unmapping

    /** The body of mappages' loop: false when a table page cannot be had. */
    method MapPage(r: int, v: int, p: nat, perm: nat) returns (ok: bool)
      requires Sound(ram, free, own) && IsRoot(own, r) && 0 <= v < MAXVPN && perm < 1024 && Readable(perm)
      requires !Valid(Lookup(ram.mem, r, v)) && Mappable(own, v, p)
      modifies this
      ensures Sound(ram, free, own) && IsRoot(own, r)
      ensures MapRange(old(ram), old(own), ram, own, r, v, p, OrValid(perm), if ok then 1 else 0)
      ensures !ok ==> ram.head == 0 && At(ram.mem, r, LowOf(v)) == 0
      ensures Tables(own, r) <= Tables(old(own), r) + PathsOf(v, 1)
    {
      hide *;
      var table := Walk(r, v, true);
      ghost var ram1 := ram;
      MapReady(old(ram), old(own), ram, free, own, r, v, p, perm);
      if table == 0 {
        return false;
      }
      ram := ram.(mem := Store(ram.mem, table, Px0(v), Mk(p, OrValid(perm))));
      GrownKeeps(old(ram), old(own), ram1, own, r);
      ClaimedTables(own, old(own), r, v, p);
      own := Claimed(own, r, v, p);
      ok := true;
    }

    /** mappages; `done` pages are mapped when it stops */
    method Mappages(r: int, va: nat, size: nat, pa: nat, perm: nat) returns (ok: bool, ghost done: nat)
      requires Sound(ram, free, own) && IsRoot(own, r) && 0 < size && va + size <= MAXVPN * 4096
      requires perm < 1024 && Readable(perm)
      requires Unmapped(ram.mem, r, va / 4096, PagesIn(va, size))
      requires MappableRange(own, va / 4096, pa, PagesIn(va, size))
      modifies this
      ensures Sound(ram, free, own) && IsRoot(own, r)
      ensures MapRange(old(ram), old(own), ram, own, r, va / 4096, pa, OrValid(perm), done)
      ensures done <= PagesIn(va, size) && (ok <==> done == PagesIn(va, size))
      ensures !ok ==> ram.head == 0 && At(ram.mem, r, LowOf(va / 4096 + done)) == 0
      ensures Tables(own, r) <= Tables(old(own), r) + PathsOf(va / 4096, PagesIn(va, size))
      ensures Mapping(ram.mem, r) == old(Mapping(ram.mem, r)) + RangeMap(va / 4096, pa, OrValid(perm), done)
      ensures forall x :: IsRoot(old(own), x) && x != r ==> Mapping(ram.mem, x) == old(Mapping(ram.mem, x))
    {
      hide *;
      var v, last := va / 4096, (va + size - 1) / 4096;
      MapBusyStart(ram, free, own, r, va, size, pa, perm);
      var k := 0;
      while true
        invariant k >= 0 && MapBusy(old(ram), old(own), ram, free, own, r, v, pa, perm, k, last)
        invariant Tables(own, r) <= Tables(old(own), r) + PathsOf(va / 4096, PagesIn(va, size))
        decreases last - v - k
      {
        done := k;
        MapBusyReady(old(ram), old(own), ram, free, own, r, v, pa, perm, k, last);
        PathsBusy(old(ram), old(own), ram, free, own, r, va, size, pa, perm, k);
        ghost var ram1, free1, own1 := ram, free, own;
        ok := MapPage(r, v + k, pa + k, perm);
        if !ok {
          MapBusyStuck(old(ram), old(own), ram1, free1, own1, ram, own, r, v, pa, perm, k, last);
          MapsTo(old(ram), old(own), ram, own, r, v, pa, perm, done);
          return;
        }
        done := k + 1;
        MapBusyNext(old(ram), old(own), ram1, free1, own1, ram, free, own, r, v, pa, perm, k, last);
        if v + k == last {
          MapsTo(old(ram), old(own), ram, own, r, v, pa, perm, done);
          return;
        }
        k := k + 1;
      }
    }

    /** One iteration of uvmunmap. Its panics are the preconditions here. */
    method UnmapPage(r: int, v: int, doFree: bool)
      requires Sound(ram, free, own) && IsRoot(own, r) && 0 <= v < MAXVPN && Valid(Lookup(ram.mem, r, v))
      requires (doFree ==> v < TRAPFRAME)
      modifies this
      ensures Sound(ram, free, own) && IsRoot(own, r) && UnmapRange(old(ram), old(own), ram, own, r, v, 1, doFree)
      ensures ram.head == 0 ==> !doFree && old(ram.head) == 0
    {
      hide *;
      UnmapReady(ram, free, own, r, v, doFree);
      var table := Walk(r, v, false);
      var w := ram.mem[table][Px0(v)];
      assert Flags(w) != PTE_V;
      ghost var own1 := Unclaimed(own, Ppn(w), v, doFree);
      if doFree {
        Kfree(Ppn(w));
      }
      ram := ram.(mem := Store(ram.mem, table, Px0(v), 0));
      own := own1;
    }

    method Uvmunmap(r: int, v: int, npages: nat, doFree: bool)
      requires Sound(ram, free, own) && IsRoot(own, r) && 0 <= v && v + npages <= (if doFree then TRAPFRAME else MAXVPN)
      requires Mapped(ram.mem, r, v, npages)
      modifies this
      ensures Sound(ram, free, own) && IsRoot(own, r) && UnmapRange(old(ram), old(own), ram, own, r, v, npages, doFree)
      ensures forall x :: IsRoot(old(own), x) ==>
        Mapping(ram.mem, x) == if x == r then RemoveRange(old(Mapping(ram.mem, x)), v, npages)
            else old(Mapping(ram.mem, x))
    {
      hide *;
      UnmapBusyStart(ram, free, own, r, v, npages, doFree);
      var k := 0;
      while k < npages
        invariant 0 <= k <= npages && UnmapBusy(old(ram), old(own), ram, free, own, r, v, npages, doFree, k)
      {
        UnmapBusyReady(old(ram), old(own), ram, free, own, r, v, npages, doFree, k);
        ghost var ram1, free1, own1 := ram, free, own;
        UnmapPage(r, v + k, doFree);
        UnmapBusyNext(old(ram), old(own), ram1, free1, own1, ram, free, own, r, v, npages, doFree, k);
        k := k + 1;
      }
      UnmapBusyDone(old(ram), old(own), ram, free, own, r, v, npages, doFree);
      UnmapsTo(old(ram), old(own), ram, own, r, v, npages, doFree);
    }

    // ---- user memory

    /** A page with these contents mapped at v of r, or nothing but table pages if memory is out. */
    method AddPage(r: int, v: int, page: Page, perm: nat) returns (ok: bool)
      requires Sound(ram, free, own) && IsRoot(own, r) && 0 <= v < TRAPFRAME && !Valid(Lookup(ram.mem, r, v))
      requires perm < 1024 && Readable(perm) && |page| == ENTRIES
      modifies this
      ensures Sound(ram, free, own) && IsRoot(own, r)
      ensures ok ==> Added(old(ram), old(own), ram, own, r, v, [Image(page, OrValid(perm))])
      ensures ok ==> Paid(old(free), old(own), free, own, r, v, 1)
      ensures !ok ==> Grown(old(ram), old(own), ram, own, r) && |old(free)| < Need(old(own), r, v, 1)
    {
      hide *;
      GrownSame(ram, own, r);
      NeedSome(ram, free, own, r, v);
      var mem := Kalloc();
      if mem == 0 {
        return false;
      }
      TakenInHand(old(ram), old(free), old(own), r, v, mem, page);
      ram := ram.(mem := ram.mem[mem := page]);
      ghost var ram1, own1 := ram, own;
      ghost var done;
      VpnOrder();
      OnePage(own, v, mem);
      ok, done := Mappages(r, v * 4096, 4096, mem, perm);
      OrValidParts(perm);
      if ok {
        AddOne(old(ram), old(own), ram1, own1, ram, own, r, v, mem, Image(page, OrValid(perm)));
        AddPaid(old(ram), old(free), old(own), ram1, own1, ram, free, own, r, v, mem, Image(page, OrValid(perm)));
      } else {
        AddOut(old(ram), old(free), old(own), ram1, own1, ram, free, own, r, v, mem, page, OrValid(perm));
        AddFailed(old(ram), old(own), ram1, own1, ram, free, own, r, v, mem, page, OrValid(perm));
        Kfree(mem);
      }
    }

    method Uvmdealloc(r: int, oldsz: nat, newsz: nat) returns (sz: nat)
      requires Sound(ram, free, own) && IsRoot(own, r)
      requires newsz < oldsz ==> PgUp(oldsz) <= TRAPFRAME && Mapped(ram.mem, r, PgUp(newsz), PgUp(oldsz) - PgUp(newsz))
      modifies this
      ensures Sound(ram, free, own) && IsRoot(own, r)
      ensures newsz >= oldsz ==> sz == oldsz && ram == old(ram) && free == old(free) && own == old(own)
      ensures newsz < oldsz ==> sz == newsz
      ensures newsz < oldsz ==>
                UnmapRange(old(ram), old(own), ram, own, r, PgUp(newsz), PgUp(oldsz) - PgUp(newsz), true)
    {
      hide *;
      if newsz >= oldsz {
        return oldsz;
      }
      PgUpOrder(newsz, oldsz);
      UnmapRangeNone(ram, own, r, PgUp(newsz), true);
      if PgUp(newsz) < PgUp(oldsz) {
        Uvmunmap(r, PgUp(newsz), PgUp(oldsz) - PgUp(newsz), true);
      }
      sz := newsz;
    }

    /** ok says which of the two the result stands for, since newsz may be 0 */
    method Uvmalloc(r: int, oldsz: nat, newsz: nat, ghost tf: bool, ghost tr: bool) returns (sz: nat, ghost ok: bool)
      requires Sound(ram, free, own) && IsRoot(own, r) && Space(ram.mem, r, PgUp(oldsz), tf, tr)
      modifies this
      ensures Sound(ram, free, own) && IsRoot(own, r)
      ensures newsz < oldsz ==> sz == oldsz && ram == old(ram) && free == old(free) && own == old(own)
      ensures newsz >= oldsz ==> sz == if ok then newsz else 0
      ensures newsz >= oldsz ==> PgUp(newsz) >= PgUp(oldsz)
      ensures newsz >= oldsz && ok ==>
        && Added(old(ram), old(own), ram, own, r, PgUp(oldsz), Zeros(PgUp(newsz) - PgUp(oldsz)))
        && Space(ram.mem, r, PgUp(newsz), tf, tr)
      ensures newsz >= oldsz && ok ==>
                Paid(old(free), old(own), free, own, r, PgUp(oldsz), PgUp(newsz) - PgUp(oldsz))
      ensures newsz >= oldsz && !ok ==>
                && Grown(old(ram), old(own), ram, own, r)
                && |old(free)| < Need(old(own), r, PgUp(oldsz), PgUp(newsz) - PgUp(oldsz))
    {
      hide *;
      ok := false;
      if newsz < oldsz {
        return oldsz, true;
      }
      PgUpOrder(oldsz, newsz);
      var v := PgUp(oldsz);
      var a := v;
      AddingStart(ram, free, own, r, v, tf, tr);
      PaidNone(free, own, r, v);
      ZerosNone();
      while a * 4096 < newsz
        invariant v <= a && (a == v || a <= PgUp(newsz))
        invariant Adding(old(ram), old(free), old(own), ram, free, own, r, v, Zeros(a - v), tf, tr)
        invariant Paid(old(free), old(own), free, own, r, v, a - v)
        decreases newsz - a * 4096
      {
        ghost var imgs := Zeros(a - v);
        AddingReady(old(ram), old(free), old(own), ram, free, own, r, v, imgs, tf, tr);
        ghost var ram1, free1, own1 := ram, free, own;
        ZeroPage();
        var added := AddPage(r, a, Filled(0), USER_RWX);
        PgUpNext(a, newsz);
        if !added {
          PaidStuck(old(free), old(own), free1, own1, r, v, a - v, PgUp(newsz) - v);
          AddingStuck(old(ram), old(free), old(own), ram1, free1, own1, ram, free, own, r, v, imgs, tf, tr);
          AddingReady(old(ram), old(free), old(own), ram, free, own, r, v, imgs, tf, tr);
          PgUpAligned(a);
          PgUpAligned(v);
          ghost var ram2, free2, own2 := ram, free, own;
          if a == v {
            UnmapRangeNone(ram, own, r, v, true);
          }
          var back := Uvmdealloc(r, a * 4096, v * 4096);
          AddingUndone(old(ram), old(free), old(own), ram2, free2, own2, ram, own, r, v, imgs, tf, tr);
          return 0, false;
        }
        AddingNext(old(ram), old(free), old(own), ram1, free1, own1, ram, free, own, r, v, imgs, ZeroImage(), tf, tr);
        ZerosNext(a - v);
        PaidNext(old(free), old(own), free1, own1, free, own, r, v, a - v);
        a := a + 1;
      }
      PgUpReached(oldsz, a, newsz);
      AddingReady(old(ram), old(free), old(own), ram, free, own, r, v, Zeros(a - v), tf, tr);
      AddingDone(old(ram), old(free), old(own), ram, free, own, r, v, Zeros(a - v), tf, tr);
      sz, ok := newsz, true;
    }

    /** Every page of x below sz copied to r, flags and contents; or nothing but table pages of r. */
    method Uvmcopy(x: int, r: int, sz: nat, ghost tf: bool, ghost tr: bool) returns (ok: bool)
      requires Sound(ram, free, own) && IsRoot(own, x) && IsRoot(own, r) && x != r
      requires PgUp(sz) <= TRAPFRAME && Mapped(ram.mem, x, 0, PgUp(sz)) && Space(ram.mem, r, 0, tf, tr)
      modifies this
      ensures Sound(ram, free, own) && IsRoot(own, r)
      ensures ok ==>
        && Added(old(ram), old(own), ram, own, r, 0, Images(old(ram.mem), x, PgUp(sz)))
        && Space(ram.mem, r, PgUp(sz), tf, tr)
      ensures ok ==> Paid(old(free), old(own), free, own, r, 0, PgUp(sz))
      ensures !ok ==> Grown(old(ram), old(own), ram, own, r) && |old(free)| < Need(old(own), r, 0, PgUp(sz))
    {
      hide *;
      PaidNone(free, own, r, 0);
      var i := 0;
      ghost var mem0 := ram.mem;
      AddingStart(ram, free, own, r, 0, tf, tr);
      ImagesNone(mem0, x);
      PgUpReached(0, 0, 0);
      while i * 4096 < sz
        invariant 0 <= i <= PgUp(sz)
        invariant Adding(old(ram), old(free), old(own), ram, free, own, r, 0, Images(mem0, x, i), tf, tr)
        invariant Paid(old(free), old(own), free, own, r, 0, i)
        decreases sz - i * 4096
      {
        ghost var imgs := Images(mem0, x, i);
        PgUpNext(i, sz);
        AddingReady(old(ram), old(free), old(own), ram, free, own, r, 0, imgs, tf, tr);
        CopyReady(old(ram), old(free), old(own), ram, free, own, r, x, i, PgUp(sz), imgs, tf, tr);
        var table := Walk(x, i, false);
        var w := ram.mem[table][Px0(i)];
        assert Valid(w);
        ghost var ram1, free1, own1 := ram, free, own;
        var added := AddPage(r, i, ram.mem[Ppn(w)], Flags(w));
        if !added {
          PaidStuck(old(free), old(own), free1, own1, r, 0, i, PgUp(sz));
          AddingStuck(old(ram), old(free), old(own), ram1, free1, own1, ram, free, own, r, 0, imgs, tf, tr);
          AddingReady(old(ram), old(free), old(own), ram, free, own, r, 0, imgs, tf, tr);
          ghost var ram2, free2, own2 := ram, free, own;
          Uvmunmap(r, 0, i, true);
          AddingUndone(old(ram), old(free), old(own), ram2, free2, own2, ram, own, r, 0, imgs, tf, tr);
          return false;
        }
        AddingNext(old(ram), old(free), old(own), ram1, free1, own1, ram, free, own, r, 0, imgs, ImageOf(mem0, x, i),
          tf, tr);
        ImagesNext(mem0, x, i);
        PaidNext(old(free), old(own), free1, own1, free, own, r, 0, i);
        i := i + 1;
      }
      PgUpReached(0, i, sz);
      AddingReady(old(ram), old(free), old(own), ram, free, own, r, 0, Images(mem0, x, i), tf, tr);
      AddingDone(old(ram), old(free), old(own), ram, free, own, r, 0, Images(mem0, x, i), tf, tr);
      ok := true;
    }

    // ---- whole page tables

    /**
     freewalk on the table page p at `path` of r, as the tree was in mem0. Nothing is mapped any
     more, so its panic on a leaf is shown unreachable.
     */
    method Freewalk(p: nat, ghost r: int, ghost path: Path, ghost mem0: Mem, ghost own0: Owner)
      requires Tree(mem0, own0) && Bare(mem0, r) && IsRoot(own0, r) && Proper(path) && TableAt(own0, p, r, path)
      requires Heap(ram, free, own) && Intact(ram.mem, mem0, own, Below(own0, r, path))
      modifies this
      ensures Heap(ram, free, own) && own == old(own) - Below(own0, r, path)
      ensures ram.first == old(ram.first) && OutsideKept(old(ram.mem), ram.mem, Below(own0, r, path))
      decreases Height(path)
    {
      hide *;
      var i := 0;
      FreewalkStart(ram, free, own, mem0, own0, r, path, p);
      while i < 512
        invariant 0 <= i <= 512
        invariant Freeing(old(ram), old(own), ram, free, own, mem0, own0, r, path, p, i)
      {
        FreewalkEntry(old(ram), old(own), ram, free, own, mem0, own0, r, path, p, i);
        var pte := ram.mem[p][i];
        if Valid(pte) && !Readable(pte) && !Writable(pte) && !Executable(pte) {
          ghost var ram1, own1 := ram, own;
          Freewalk(Ppn(pte), r, Child(path, i), mem0, own0);
          FreewalkChild(old(ram), old(own), ram1, own1, ram, free, own, mem0, own0, r, path, p, i);
          ram := ram.(mem := Store(ram.mem, p, i, 0));
        } else {
          assert !Valid(pte);
        }
        i := i + 1;
      }
      FreewalkEnd(old(ram), old(own), ram, free, own, mem0, own0, r, path, p);
      Kfree(p);
    }

    /** 0 if out of memory; the new table maps nothing */
    method Uvmcreate() returns (r: nat)
      requires Sound(ram, free, own)
      modifies this
      ensures Sound(ram, free, own)
      ensures r == 0 ==> ram == old(ram) && free == old(free) && own == old(own)
      ensures r == 0 <==> old(free) == []
      ensures r != 0 ==> Tables(own, r) <= {Top}
      ensures r != 0 ==>
                IsRoot(own, r) && r !in old(own) && Space(ram.mem, r, 0, false, false)
                && Apart(old(ram), old(own), ram, own, r)
    {
      hide *;
      HeadIsFree(ram, free, own);
      NewTables(ram, free, own, ram.head);
      r := Kalloc();
      if r == 0 {
        return;
      }
      CreatedSound(old(ram), old(free), old(own), r);
      ram := ram.(mem := ram.mem[r := Filled(0)]);
      own := own[r := Table(r, Top)];
      assert own == old(own)[r := Table(r, Top)];
    }

    /** All pages of r, mapped or holding its tables, are free again; the rest is untouched. */
    method Uvmfree(r: nat, sz: nat)
      requires Sound(ram, free, own) && IsRoot(own, r) && Space(ram.mem, r, PgUp(sz), false, false)
      modifies this
      ensures Sound(ram, free, own) && own == Without(old(own), r) && Apart(old(ram), old(own), ram, own, r)
    {
      hide *;
      UvmfreeStart(ram, free, own, r, sz);
      if sz > 0 {
        Uvmunmap(r, 0, PgUp(sz), true);
      }
      ghost var ram1, free1, own1 := ram, free, own;
      UvmfreeMiddle(old(ram), old(own), ram, free, own, r, PgUp(sz));
      Freewalk(r, r, Top, ram.mem, own);
      UvmfreeEnd(old(ram), old(own), ram1, free1, own1, ram, free, own, r);
    }

    /** The guard page below the stack: still mapped, but not for the user. */
    method Uvmclear(r: int, v: int)
      requires Sound(ram, free, own) && IsRoot(own, r) && 0 <= v < TRAPFRAME && Valid(Lookup(ram.mem, r, v))
      modifies this
      ensures Sound(ram, free, own) && own == old(own) && free == old(free) && ram.first == old(ram.first)
      ensures !UserBit(Lookup(ram.mem, r, v)) && Ppn(Lookup(ram.mem, r, v)) == old(Ppn(Lookup(ram.mem, r, v)))
      ensures OneLookup(old(ram.mem), ram.mem, own, r, v, Lookup(ram.mem, r, v)) && Valid(Lookup(ram.mem, r, v))
      ensures Apart(old(ram), own, ram, own, r) && SameData(old(ram), own, ram, own, r)
    {
      hide *;
      VpnOrder();
      ClearSound(ram, free, own, r, v);
      var table := Walk(r, v, false);
      ram := ram.(mem := Store(ram.mem, table, Px0(v), ClearUser(ram.mem[table][Px0(v)])));
    }

    // ---- proc.c

    /** The empty address space of a process: its two fixed pages and nothing else. */
    method ProcPagetable(trapframe: nat, trampoline: nat) returns (r: nat)
      requires Sound(ram, free, own)
      modifies this
      ensures Sound(ram, free, own)
      ensures r == 0 ==> own == old(own) && Unchanged(old(ram), ram, own) && forall p :: p in free <==> p in old(free)
      ensures r == 0 ==> |old(free)| < |FixedPaths()|
      ensures r != 0 ==> |old(free)| == |free| + |FixedPaths()| && Tables(own, r) == FixedPaths()
      ensures r != 0 ==>
        && IsRoot(own, r) && r !in old(own) && Apart(old(ram), old(own), ram, own, r)
        && Space(ram.mem, r, 0, true, true)
        && Lookup(ram.mem, r, TRAMPOLINE) == Mk(trampoline, OrValid(PTE_RX))
        && Lookup(ram.mem, r, TRAPFRAME) == Mk(trapframe, OrValid(PTE_RW))
    {
      hide *;
      VpnOrder();
      FixedWithin();
      FixedPositive();
      r := Uvmcreate();
      UnchangedSame(ram, own);
      if r == 0 {
        return;
      }
      FixedReady(ram, own, r, TRAMPOLINE, trampoline, false, false);
      ghost var ram1, own1 := ram, own;
      var ok;
      ghost var done;
      ok, done := Mappages(r, TRAMPOLINE * 4096, 4096, trampoline, PTE_RX);
      if !ok {
        FixedFailed(old(ram), old(own), ram1, own1, ram, own, r, TRAMPOLINE, trampoline, OrValid(PTE_RX), false, false);
        FixedOut(old(ram), old(free), old(own), ram, free, own, r, false, false, TRAMPOLINE);
        ghost var ram2, own2 := ram, own;
        Uvmfree(r, 0);
        DropDone(old(ram), old(free), old(own), ram2, own2, ram, own, r);
        SameFree(old(ram), old(free), ram, free, own);
        return 0;
      }
      FixedMapped(ram1, own1, ram, own, r, TRAMPOLINE, trampoline, OrValid(PTE_RX), 0, false, false);
      ApartTwice(old(ram), old(own), ram1, own1, ram, own, r);
      FixedReady(ram, own, r, TRAPFRAME, trapframe, false, true);
      ghost var ram2, own2 := ram, own;
      ok, done := Mappages(r, TRAPFRAME * 4096, 4096, trapframe, PTE_RW);
      if !ok {
        FixedFailed(old(ram), old(own), ram2, own2, ram, own, r, TRAPFRAME, trapframe, OrValid(PTE_RW), false, true);
        FixedOut(old(ram), old(free), old(own), ram, free, own, r, false, true, TRAPFRAME);
        ghost var ram3, own3 := ram, own;
        FixedThere(ram, free, own, r, 0, false, true, TRAMPOLINE);
        Uvmunmap(r, TRAMPOLINE, 1, false);
        FixedUnmapped(ram3, own3, ram, own, r, TRAMPOLINE, 0, false, true);
        ApartTwice(old(ram), old(own), ram3, own3, ram, own, r);
        ghost var ram4, own4 := ram, own;
        Uvmfree(r, 0);
        DropDone(old(ram), old(free), old(own), ram4, own4, ram, own, r);
        SameFree(old(ram), old(free), ram, free, own);
        return 0;
      }
      FixedMapped(ram2, own2, ram, own, r, TRAPFRAME, trapframe, OrValid(PTE_RW), 0, false, true);
      ApartTwice(old(ram), old(own), ram2, own2, ram, own, r);
      FixedPaid(old(ram), old(free), old(own), ram, free, own, r);
    }

    method ProcFreepagetable(r: nat, sz: nat)
      requires Sound(ram, free, own) && IsRoot(own, r) && Space(ram.mem, r, PgUp(sz), true, true)
      modifies this
      ensures Sound(ram, free, own) && own == Without(old(own), r) && Apart(old(ram), old(own), ram, own, r)
    {
      hide *;
      VpnOrder();
      ghost var n := PgUp(sz);
      ghost var ram1, own1 := ram, own;
      FixedThere(ram, free, own, r, n, true, true, TRAMPOLINE);
      Uvmunmap(r, TRAMPOLINE, 1, false);
      FixedUnmapped(ram1, own1, ram, own, r, TRAMPOLINE, n, true, true);
      ghost var ram2, own2 := ram, own;
      FixedThere(ram, free, own, r, n, true, false, TRAPFRAME);
      Uvmunmap(r, TRAPFRAME, 1, false);
      FixedUnmapped(ram2, own2, ram, own, r, TRAPFRAME, n, true, false);
      ApartTwice(ram1, own1, ram2, own2, ram, own, r);
      ghost var ram3, own3 := ram, own;
      Uvmfree(r, sz);
      ApartTwice(ram1, own1, ram3, own3, ram, own, r);
      WithoutOf(ram1, own1, ram3, own3, r);
    }
  }
}
