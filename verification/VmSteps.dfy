/**
 The reasoning behind the methods of Memory: what holds before, between and after their steps.
 */
module VmSteps {
  import opened PageTable
  import opened PhysPages
  import opened AddressSpace
  import opened UserSpace

  // ---- mapping, step by step

  function PagesIn(va: nat, size: nat): int { (va + size - 1) / 4096 - va / 4096 + 1 }

  lemma MapBusyStart(s: Ram, free: seq<int>, own: Owner, r: int, va: nat, size: nat, p: nat,
          perm: nat)
    requires Sound(s, free, own) && IsRoot(own, r) && 0 < size && va + size <= MAXVPN * 4096 && perm < 1024
    requires Readable(perm)
    requires Unmapped(s.mem, r, va / 4096, PagesIn(va, size)) && MappableRange(own, va / 4096, p, PagesIn(va, size))
    ensures PagesIn(va, size) == (va + size - 1) / 4096 - va / 4096 + 1 >= 1
    ensures MapBusy(s, own, s, free, own, r, va / 4096, p, perm, 0, (va + size - 1) / 4096)
  {
    hide Sound, Lookup, Valid, Readable, MapRange;
    GrownSame(s, own, r);
    MapRangeNone(s, own, s, own, r, va / 4096, p, OrValid(perm));
  }

  lemma MapReady(s0: Ram, own0: Owner, s: Ram, free: seq<int>, own: Owner, r: int, v: int, p: nat,
          perm: nat)
    requires Grown(s0, own0, s, own, r) && Sound(s, free, own) && IsRoot(own0, r) && IsRoot(own, r)
    requires 0 <= v < MAXVPN && perm < 1024 && Readable(perm) && !Valid(Lookup(s0.mem, r, v)) && Mappable(own0, v, p)
    ensures MapRange(s0, own0, s, own, r, v, p, OrValid(perm), 0)
    ensures
      var table := At(s.mem, r, LowOf(v));
      table != 0 ==>
        && table in s.mem && 0 <= Px0(v) < |s.mem[table]|
        && var s', own' := s.(mem := Store(s.mem, table, Px0(v), Mk(p, OrValid(perm)))), Claimed(own, r, v, p);
        Sound(s', free, own') && IsRoot(own', r) && MapRange(s0, own0, s', own', r, v, p, OrValid(perm), 1)
  {
    hide Heap, Tree, Leaves, At, LowOf, Lookup, Px0, Valid, Readable, OrValid, Mk, MapRange, SameData, OneLookup;
    MapRangeNone(s0, own0, s, own, r, v, p, OrValid(perm));
    if At(s.mem, r, LowOf(v)) != 0 {
      WalkedPage(s.mem, own, r, v);
      assert Mappable(own, v, p);
      MapSound(s, free, own, r, v, p, perm);
      GrowThenMap(s0, own0, s, own, s.(mem := SetLeaf(s.mem, r, v, Mk(p, OrValid(perm)))), r, v, p, OrValid(perm));
    }
  }

  /** mappages from state (s0, own0) has mapped k of the pages from v to last. */
  ghost predicate MapBusy(s0: Ram, own0: Owner, s: Ram, free: seq<int>, own: Owner, r: int, v: int, p: nat, perm: nat,
          k: int, last: int) {
    && Sound(s, free, own) && IsRoot(own, r) && IsRoot(own0, r) && 0 <= v && 0 <= k && v + k <= last < MAXVPN
    && perm < 1024 && Readable(perm)
    && (forall u :: v <= u <= last ==> !Valid(Lookup(s0.mem, r, u))) && MappableRange(own0, v, p, last - v + 1)
    && MapRange(s0, own0, s, own, r, v, p, OrValid(perm), k)
  }

  lemma MapBusyReady(s0: Ram, own0: Owner, s: Ram, free: seq<int>, own: Owner, r: int, v: int,
          p: nat, perm: nat, k: int, last: int)
    requires MapBusy(s0, own0, s, free, own, r, v, p, perm, k, last) && k >= 0
    ensures Sound(s, free, own) && IsRoot(own, r) && 0 <= v + k < MAXVPN && perm < 1024 && Readable(perm)
    ensures !Valid(Lookup(s.mem, r, v + k)) && Mappable(own, v + k, p + k)
    ensures MapRange(s0, own0, s, own, r, v, p, OrValid(perm), k)
  {
    hide Sound, Lookup, Valid, Mk, Readable;
    assert MappableFrom(own0, v, p, p + k);
  }

  lemma MapBusyStuck(s0: Ram, own0: Owner, s1: Ram, free1: seq<int>, own1: Owner, s: Ram,
          own: Owner, r: int, v: int, p: nat, perm: nat, k: int, last: int)
    requires MapBusy(s0, own0, s1, free1, own1, r, v, p, perm, k, last) && k >= 0
    requires MapRange(s1, own1, s, own, r, v + k, p + k, OrValid(perm), 0)
    ensures MapRange(s0, own0, s, own, r, v, p, OrValid(perm), k) && v + k <= last
  {
    hide Sound, Lookup, Mk, SameData;
    assert MappableRange(own0, v, p, k);
    RangeTables(own0, own1, r, v, p, k);
    SameDataTwice(s0, own0, s1, own1, s, own, r);
  }

  lemma MapBusyNext(s0: Ram, own0: Owner, s1: Ram, free1: seq<int>, own1: Owner, s: Ram,
          free: seq<int>, own: Owner, r: int, v: int, p: nat, perm: nat, k: int, last: int)
    requires k >= 0 && Sound(s, free, own) && IsRoot(own, r)
    requires MapBusy(s0, own0, s1, free1, own1, r, v, p, perm, k, last)
    requires MapRange(s1, own1, s, own, r, v + k, p + k, OrValid(perm), 1)
    ensures MapRange(s0, own0, s, own, r, v, p, OrValid(perm), k + 1)
    ensures v + k < last ==> MapBusy(s0, own0, s, free, own, r, v, p, perm, k + 1, last)
    ensures v + k <= last
  {
    hide Sound, Lookup, Valid, Readable, MapRange, MappableFrom;
    assert MappableRange(own0, v, p, k + 1);
    MapRangeAppend(s0, own0, s1, own1, s, own, r, v, p, OrValid(perm), k);
  }

  // ---- unmapping, step by step

  lemma UnmapReady(s: Ram, free: seq<int>, own: Owner, r: int, v: int, doFree: bool)
    requires Sound(s, free, own) && IsRoot(own, r) && 0 <= v < MAXVPN && Valid(Lookup(s.mem, r, v))
    requires (doFree ==> v < TRAPFRAME)
    ensures
      var table := At(s.mem, r, LowOf(v));
      && table in s.mem && 0 <= Px0(v) < |s.mem[table]|
      && var w := s.mem[table][Px0(v)];
      && w == Lookup(s.mem, r, v) && Flags(w) != PTE_V && (doFree ==> Ppn(w) in s.mem && Ppn(w) != 0)
      && var s1 := if doFree then Freed(s, Ppn(w)) else s;
      && table in s1.mem && 0 <= Px0(v) < |s1.mem[table]|
      && var s', own' := s1.(mem := Store(s1.mem, table, Px0(v), 0)), Unclaimed(own, Ppn(w), v, doFree);
      && Sound(s', if doFree then [Ppn(w) as int] + free else free, own') && IsRoot(own', r)
      && UnmapRange(s, own, s', own', r, v, 1, doFree)
      && s'.head == if doFree then Ppn(w) else s.head
  {
    hide Heap, Tree, Leaves, At, LowOf, Px0, Valid, Readable, Ppn, Flags, UnmapRange, Freed, Entry;
    LookupWalked(s.mem, own, r, v);
    WalkedPage(s.mem, own, r, v);
    HeapPagesOf(s, free, own);
    LeafFlags(s.mem, own, r, v);
    UnmapOnceSound(s, free, own, r, v, doFree);
    EntryIs(s.mem, At(s.mem, r, LowOf(v)), Px0(v));
    FreedHead(s, Ppn(Lookup(s.mem, r, v)));
  }

  lemma FreedHead(s: Ram, p: nat)
    ensures Freed(s, p).head == p && Freed(s, p).first == s.first
  {
  }

  lemma EntryIs(mem: Mem, p: int, i: int)
    requires p in mem && 0 <= i < |mem[p]|
    ensures Entry(mem, p, i) == mem[p][i]
  {
  }

  /** A valid entry was reached through table pages that are there. */
  lemma LookupWalked(mem: Mem, own: Owner, r: int, v: int)
    requires Tree(mem, own) && IsRoot(own, r) && 0 <= v < NVPN && Valid(Lookup(mem, r, v))
    ensures Walked(mem, own, r, v)
  {
    hide At, LowOf;
    ValidBit();
  }

  /** uvmunmap's "not a leaf" cannot happen. */
  lemma LeafFlags(mem: Mem, own: Owner, r: int, v: int)
    requires Leaves(mem, own) && IsRoot(own, r) && 0 <= v < NVPN && Valid(Lookup(mem, r, v))
    ensures Flags(Lookup(mem, r, v)) != PTE_V
  {
    hide Lookup;
    ReadableFlag(Lookup(mem, r, v));
  }

  lemma ReadableFlag(w: nat)
    requires Readable(w)
    ensures Flags(w) != PTE_V
  {
    if Flags(w) == PTE_V {
      TableEntryDescends(w);
    }
  }

  /** uvmunmap from state (s0, own0) has removed k of n pages. */
  ghost predicate UnmapBusy(s0: Ram, own0: Owner, s: Ram, free: seq<int>, own: Owner, r: int, v: int, n: int,
          doFree: bool, k: int) {
    && Sound(s, free, own) && IsRoot(own, r) && IsRoot(own0, r) && 0 <= v && 0 <= k <= n
    && v + n <= (if doFree then TRAPFRAME else MAXVPN) && Mapped(s0.mem, r, v, n)
    && UnmapRange(s0, own0, s, own, r, v, k, doFree)
  }

  lemma UnmapBusyStart(s: Ram, free: seq<int>, own: Owner, r: int, v: int, n: int, doFree: bool)
    requires Sound(s, free, own) && IsRoot(own, r) && 0 <= v && 0 <= n
    requires v + n <= (if doFree then TRAPFRAME else MAXVPN)
    requires Mapped(s.mem, r, v, n)
    ensures UnmapBusy(s, own, s, free, own, r, v, n, doFree, 0)
  {
    hide Sound, UnmapRange, Mapped;
    UnmapRangeNone(s, own, r, v, doFree);
  }

  lemma UnmapBusyReady(s0: Ram, own0: Owner, s: Ram, free: seq<int>, own: Owner, r: int, v: int,
          n: int, doFree: bool, k: int)
    requires UnmapBusy(s0, own0, s, free, own, r, v, n, doFree, k) && k < n
    ensures Sound(s, free, own) && IsRoot(own, r) && 0 <= v + k < MAXVPN && (doFree ==> v + k < TRAPFRAME)
    ensures Valid(Lookup(s.mem, r, v + k))
  {
    hide Sound, Lookup, Valid;
  }

  lemma UnmapBusyNext(s0: Ram, own0: Owner, s1: Ram, free1: seq<int>, own1: Owner, s: Ram,
          free: seq<int>, own: Owner, r: int, v: int, n: int, doFree: bool, k: int)
    requires UnmapBusy(s0, own0, s1, free1, own1, r, v, n, doFree, k) && k < n
    requires Sound(s, free, own) && IsRoot(own, r) && UnmapRange(s1, own1, s, own, r, v + k, 1, doFree)
    ensures UnmapBusy(s0, own0, s, free, own, r, v, n, doFree, k + 1)
  {
    hide Sound, UnmapRange, Mapped;
    UnmapRangeNext(s0, own0, s1, own1, s, own, r, v, k, doFree);
  }

  lemma UnmapBusyDone(s0: Ram, own0: Owner, s: Ram, free: seq<int>, own: Owner, r: int, v: int,
          n: int, doFree: bool)
    requires UnmapBusy(s0, own0, s, free, own, r, v, n, doFree, n)
    ensures Sound(s, free, own) && IsRoot(own, r) && UnmapRange(s0, own0, s, own, r, v, n, doFree)
  {
  }

  function PathAt(v: int, level: int): Path {
    if level == 2 then Top else if level == 1 then Mid(Px2(v)) else LowOf(v)
  }

  /** PX(level, va) */
  function PxAt(v: int, level: int): int {
    if level == 2 then Px2(v) else if level == 1 then Px1(v) else Px0(v)
  }

  /** The walk for v has come down to this table page of this level. */
  ghost predicate Walking(s: Ram, free: seq<int>, own: Owner, r: int, v: int, level: int, table: int) {
    Sound(s, free, own) && IsRoot(own, r) && 0 <= v < MAXVPN && table == At(s.mem, r, PathAt(v, level)) && table != 0
  }

  lemma WalkStart(s: Ram, free: seq<int>, own: Owner, r: int, v: int)
    requires Sound(s, free, own) && IsRoot(own, r) && 0 <= v < MAXVPN
    ensures Walking(s, free, own, r, v, 2, r) && Grown(s, own, s, own, r)
  {
    HeapPages(s, free, own);
  }

  lemma WalkDown(s: Ram, free: seq<int>, own: Owner, r: int, v: int, level: int, table: int)
    requires Walking(s, free, own, r, v, level, table) && 1 <= level <= 2
    ensures Descending(s, free, own, r, PathAt(v, level), PxAt(v, level)) && table == At(s.mem, r, PathAt(v, level))
    ensures !PathAt(v, level).Low? && 0 <= v < MAXVPN
  {
    hide Sound, At, Px0, Px1, Px2;
    PartsJoin(v);
  }

  lemma WalkNext(s: Ram, free: seq<int>, own: Owner, r: int, v: int, level: int, next: int)
    requires Sound(s, free, own) && IsRoot(own, r) && 0 <= v < MAXVPN && 1 <= level <= 2
    requires !PathAt(v, level).Low? && next == At(s.mem, r, Child(PathAt(v, level), PxAt(v, level)))
    ensures if next == 0 then At(s.mem, r, LowOf(v)) == 0 else Walking(s, free, own, r, v, level - 1, next)
  {
    hide Sound, At, Px0, Px1, Px2;
    if level == 2 && next == 0 {
      HeapPagesOf(s, free, own);
      NothingBelow(s.mem, own, r, v);
    }
  }

  lemma HeapPagesOf(s: Ram, free: seq<int>, own: Owner)
    requires Sound(s, free, own)
    ensures 0 !in s.mem && forall p :: p in own ==> p in s.mem && |s.mem[p]| == ENTRIES
  {
    HeapPages(s, free, own);
  }

  lemma WalkEnd(s: Ram, free: seq<int>, own: Owner, r: int, v: int, table: int)
    requires Walking(s, free, own, r, v, 0, table)
    ensures Sound(s, free, own) && IsRoot(own, r) && table == At(s.mem, r, LowOf(v)) && table != 0
  {
  }

  lemma DescendReady(s: Ram, free: seq<int>, own: Owner, r: int, path: Path, i: int)
    requires Descending(s, free, own, r, path, i)
    ensures Sound(s, free, own) && IsRoot(own, r)
    ensures
      var table := At(s.mem, r, path);
      && table in s.mem && 0 <= i < |s.mem[table]|
      && Entry(s.mem, table, i) == s.mem[table][i] && At(s.mem, r, Child(path, i)) == Target(s.mem[table][i])
      && (Valid(s.mem[table][i]) ==> Target(s.mem[table][i]) == Ppn(s.mem[table][i]) && Ppn(s.mem[table][i]) != 0)
      && (!Valid(s.mem[table][i]) ==> Target(s.mem[table][i]) == 0)
      && !path.Low?
  {
    hide Heap, Leaves, Valid, Ppn, Flags;
    TablePath(s.mem, own, r, path);
    var table := At(s.mem, r, path);
    assert IsTable(own, table);
    if Valid(Entry(s.mem, table, i)) {
      PageNotZero(s.mem, own, table, i);
    }
  }

  lemma GrowSteps(s: Ram, free: seq<int>, own: Owner, r: int, path: Path, i: int)
    requires Descending(s, free, own, r, path, i) && !Valid(Entry(s.mem, At(s.mem, r, path), i)) && s.head != 0
    ensures free != [] && s.head in s.mem && |s.mem[s.head]| == ENTRIES
    ensures
      var mem := Taken(s).mem[s.head := Filled(0)];
      var table := At(s.mem, r, path);
      && table in mem && 0 <= i < |mem[table]|
      && var s' := Taken(s).(mem := Store(mem, table, i, Mk(s.head, PTE_V)));
      var own' := own[s.head := Table(r, Child(path, i))];
      Sound(s', free[1..], own') && Grown(s, own, s', own', r) && IsRoot(own', r)
      && At(s'.mem, r, Child(path, i)) == s.head
  {
    hide Sound, Grown, At, Mk, Filled, Valid;
    GrowSound(s, free, own, r, path, i);
  }

  lemma WalkaddrCases(s: Ram, free: seq<int>, own: Owner, r: int, va: nat)
    requires Sound(s, free, own) && IsRoot(own, r)
    ensures va < MAXVPN * 4096 ==>
      var v, m := va / 4096, Mapping(s.mem, r);
      var table := At(s.mem, r, LowOf(v));
      && 0 <= v < MAXVPN
      && if table == 0 then v !in m
         else table in s.mem && 0 <= Px0(v) < |s.mem[table]|
              && (v in m <==> Valid(s.mem[table][Px0(v)])) && (v in m ==> m[v] == s.mem[table][Px0(v)])
  {
    hide Heap, Leaves, Tree, At, Valid, Px0, Px1, Px2;
    if va < MAXVPN * 4096 {
      var v := va / 4096;
      ValidBit();
      NoPageZero(s.mem, own);
      if At(s.mem, r, LowOf(v)) != 0 {
        WalkedPage(s.mem, own, r, v);
      }
    }
  }

  lemma TakenIs(s: Ram)
    requires s.head in s.mem && |s.mem[s.head]| == ENTRIES
    ensures |s.mem[s.head]| > 0
    ensures Taken(s) == Ram(s.first, s.mem[s.head := Filled(TAKEN)], s.mem[s.head][0])
  {
  }

  lemma FreedIs(s: Ram, p: nat)
    ensures Freed(s, p) == Ram(s.first, s.mem[p := Filled(FREED)][p := FreedPage(s.head)], p)
  {
  }

  // ---- user memory, step by step

  lemma OnePage(own: Owner, v: int, p: int)
    requires 0 <= v < MAXVPN && Mappable(own, v, p)
    ensures v * 4096 / 4096 == v && PagesIn(v * 4096, 4096) == 1 && v * 4096 + 4096 <= MAXVPN * 4096
    ensures MappableRange(own, v, p, 1)
  {
  }

  lemma TakenInHand(s: Ram, free: seq<int>, own: Owner, r: int, v: int, p: nat, page: Page)
    requires Sound(s, free, own) && IsRoot(own, r) && 0 <= v < TRAPFRAME && !Valid(Lookup(s.mem, r, v))
    requires |page| == ENTRIES
    requires p == s.head != 0
    ensures free != [] && p in s.mem && |s.mem[p]| == ENTRIES
    ensures
      var s1, own1 := Taken(s).(mem := Taken(s).mem[p := page]), own[p := Held];
      && Sound(s1, free[1..], own1) && InHand(s, own, s1, own1, r, p, page) && IsRoot(own1, r)
      && Unmapped(s1.mem, r, v, 1) && Mappable(own1, v, p)
  {
    hide Sound, Lookup, Valid;
    TakeSound(s, free, own);
    var s1, own1 := Taken(s).(mem := Taken(s).mem[p := page]), own[p := Held];
    FillSound(Taken(s), free[1..], own1, p, page);
    SameTwice(s.mem, Taken(s).mem, s1.mem, own, p);
  }

  lemma PgUpOrder(a: nat, b: nat)
    requires a <= b
    ensures PgUp(a) <= PgUp(b)
  {
  }

  lemma PgUpAligned(a: nat)
    ensures PgUp(a * 4096) == a
  {
  }

  lemma PgUpNext(a: nat, sz: nat)
    requires a * 4096 < sz
    ensures a + 1 <= PgUp(sz)
  {
  }

  /** A loop over pages from PgUp(start) ends at PgUp(sz). */
  lemma PgUpReached(start: nat, a: nat, sz: nat)
    requires start <= sz && a * 4096 >= sz && (a == PgUp(start) || a <= PgUp(sz))
    ensures a == PgUp(sz) && PgUp(0) == 0
  {
  }

  lemma ZerosNone()
    ensures Zeros(0) == []
  {
  }

  lemma ZerosNext(n: nat)
    ensures Zeros(n + 1) == Zeros(n) + [ZeroImage()]
  {
  }

  lemma ZeroPage()
    ensures USER_RWX < 1024 && Readable(USER_RWX) && |Filled(0)| == ENTRIES
    ensures ZeroImage() == Image(Filled(0), OrValid(USER_RWX))
  {
  }

  lemma ImagesNone(mem: Mem, x: int)
    ensures Images(mem, x, 0) == []
  {
  }

  lemma ImagesNext(mem: Mem, x: int, n: nat)
    ensures Images(mem, x, n + 1) == Images(mem, x, n) + [ImageOf(mem, x, n)]
  {
  }

  lemma AddingDone(s0: Ram, free0: seq<int>, own0: Owner, s: Ram, free: seq<int>, own: Owner,
          r: int, v: int, imgs: seq<Image>, tf: bool, tr: bool)
    requires Adding(s0, free0, own0, s, free, own, r, v, imgs, tf, tr)
    ensures Added(s0, own0, s, own, r, v, imgs)
  {
  }

  lemma CopyReady(s0: Ram, free0: seq<int>, own0: Owner, s: Ram, free: seq<int>, own: Owner,
          r: int, x: int, i: int, n: int, imgs: seq<Image>, tf: bool, tr: bool)
    requires Adding(s0, free0, own0, s, free, own, r, 0, imgs, tf, tr) && IsRoot(own0, x) && x != r
    requires 0 <= i < n <= TRAPFRAME && Mapped(s0.mem, x, 0, n)
    ensures IsRoot(own, x) && 0 <= i < MAXVPN
    ensures
      var table := At(s.mem, x, LowOf(i));
      && table in s.mem && 0 <= Px0(i) < |s.mem[table]|
      && var w := s.mem[table][Px0(i)];
      && Valid(w) && Ppn(w) in s.mem && |s.mem[Ppn(w)]| == ENTRIES
      && ImageOf(s0.mem, x, i) == Image(s.mem[Ppn(w)], OrValid(Flags(w))) && Flags(w) < 1024 && Readable(Flags(w))
  {
    hide At, LowOf, Px0, Valid, Readable, Ppn, Flags, OrValid, ImageOf, Added, Heap, Tree, Leaves;
    assert Valid(Lookup(s0.mem, x, i));
    SourceKept(s0, free0, own0, s, free, own, r, x, i, imgs);
    LookupWalked(s.mem, own, x, i);
    WalkedPage(s.mem, own, x, i);
    FlagBits(Lookup(s.mem, x, i));
  }

  // ---- freewalk, step by step

  function Height(path: Path): nat { if path.Top? then 2 else if path.Mid? then 1 else 0 }

  /** These pages are in use and hold what they held in mem0. */
  ghost predicate Intact(mem: Mem, mem0: Mem, own: Owner, ps: set<int>) {
    forall p :: p in ps ==> p in own && p in mem && p in mem0 && mem[p] == mem0[p]
  }

  ghost predicate OutsideKept(mem: Mem, mem': Mem, ps: set<int>) {
    forall p :: p in mem && p !in ps ==> p in mem' && mem'[p] == mem[p]
  }

  /** freewalk has dealt with the first i entries of p. */
  ghost predicate Freeing(s0: Ram, own1: Owner, s: Ram, free: seq<int>, own: Owner, mem0: Mem, own0: Owner, r: int,
          path: Path, p: int, i: int) {
    var done := Branches(own0, r, path, i);
    && Heap(s, free, own) && own == own1 - done && s.first == s0.first
    && Tree(mem0, own0) && Bare(mem0, r) && IsRoot(own0, r) && Proper(path) && TableAt(own0, p, r, path)
    && Below(own0, r, path) <= own1.Keys
    && OutsideKept(s0.mem, s.mem, done + {p}) && Intact(s.mem, mem0, own, Below(own0, r, path) - done - {p})
    && p in s.mem && p in mem0 && |s.mem[p]| == |mem0[p]| == ENTRIES
    && forall j :: 0 <= j < ENTRIES && i <= j ==> s.mem[p][j] == mem0[p][j]
  }

  lemma FreewalkStart(s: Ram, free: seq<int>, own: Owner, mem0: Mem, own0: Owner, r: int,
          path: Path, p: int)
    requires Tree(mem0, own0) && Bare(mem0, r) && IsRoot(own0, r) && Proper(path) && TableAt(own0, p, r, path)
    requires Heap(s, free, own) && Intact(s.mem, mem0, own, Below(own0, r, path))
    ensures Freeing(s, own, s, free, own, mem0, own0, r, path, p, 0)
  {
    hide Heap, Bare, Branches, At, Valid, Flags, Ppn;
    BranchesStart(own0, r, path);
    var ps := Below(own0, r, path);
    assert p in ps;
    assert forall x :: x in ps ==> x in own.Keys;
    assert own - Branches(own0, r, path, 0) == own;
  }

  lemma FreewalkEntry(s0: Ram, own1: Owner, s: Ram, free: seq<int>, own: Owner, mem0: Mem,
          own0: Owner, r: int, path: Path, p: int, i: int)
    requires Freeing(s0, own1, s, free, own, mem0, own0, r, path, p, i) && 0 <= i < 512
    ensures p in s.mem && i < |s.mem[p]|
    ensures
      var w := s.mem[p][i];
      if Valid(w) then
        && !Readable(w) && !Writable(w) && !Executable(w) && !path.Low? && Proper(Child(path, i))
        && Height(Child(path, i)) < Height(path)
        && TableAt(own0, Ppn(w), r, Child(path, i)) && Tree(mem0, own0) && Bare(mem0, r) && IsRoot(own0, r)
        && Heap(s, free, own) && Intact(s.mem, mem0, own, Below(own0, r, Child(path, i)))
      else Freeing(s0, own1, s, free, own, mem0, own0, r, path, p, i + 1)
  {
    hide Heap, Tree, Bare, Branches, Below, Valid, Readable, Writable, Executable, Ppn;
    assert Entry(mem0, p, i) == s.mem[p][i];
    EntryOfBare(mem0, own0, r, path, i, p);
    if path.Low? {
      BranchesNone(own0, r, path, i);
      BranchesNone(own0, r, path, i + 1);
    } else {
      BranchesNext(own0, r, path, i);
      BelowChild(mem0, own0, r, path, i, p);
    }
  }

  lemma BelowChild(mem: Mem, own: Owner, r: int, path: Path, i: int, p: int)
    requires TableAt(own, p, r, path) && !path.Low?
    ensures Below(own, r, Child(path, i)) <= Below(own, r, path) && p !in Below(own, r, Child(path, i))
  {
    var ps, qs := Below(own, r, Child(path, i)), Below(own, r, path);
    assert forall x :: x in ps ==> x in qs;
  }

  lemma FreewalkChild(s0: Ram, own1: Owner, s1: Ram, own2: Owner, s: Ram, free: seq<int>,
          own: Owner, mem0: Mem, own0: Owner, r: int, path: Path, p: int, i: int)
    requires exists free1 :: Freeing(s0, own1, s1, free1, own2, mem0, own0, r, path, p, i)
    requires 0 <= i < 512 && !path.Low? && Heap(s, free, own) && own == own2 - Below(own0, r, Child(path, i))
    requires s.first == s1.first
    requires OutsideKept(s1.mem, s.mem, Below(own0, r, Child(path, i)))
    ensures p in s.mem && i < |s.mem[p]|
    ensures Freeing(s0, own1, s.(mem := Store(s.mem, p, i, 0)), free, own, mem0, own0, r, path, p, i + 1)
  {
    hide Heap, Tree, Bare, Branches, Below;
    BranchesNext(own0, r, path, i);
    BelowChild(mem0, own0, r, path, i, p);
    SelfIn(own0, r, path, p, i);
    HeapWrite(s, free, own, p, Store(s.mem, p, i, 0)[p]);
    assert Store(s.mem, p, i, 0) == Fill(s.mem, p, Store(s.mem, p, i, 0)[p]);
    var done, next := Branches(own0, r, path, i), Branches(own0, r, path, i + 1);
    assert own1 - done - Below(own0, r, Child(path, i)) == own1 - next;
  }

  lemma SelfIn(own: Owner, r: int, path: Path, p: int, i: int)
    requires TableAt(own, p, r, path)
    ensures p in Below(own, r, path) && p !in Branches(own, r, path, i)
  {
  }

  lemma FreewalkEnd(s0: Ram, own1: Owner, s: Ram, free: seq<int>, own: Owner, mem0: Mem,
          own0: Owner, r: int, path: Path, p: nat)
    requires Freeing(s0, own1, s, free, own, mem0, own0, r, path, p, 512)
    ensures p in s.mem && Heap(Freed(s, p), [p] + free, own - {p}) && own - {p} == own1 - Below(own0, r, path)
    ensures Freed(s, p).first == s0.first && OutsideKept(s0.mem, Freed(s, p).mem, Below(own0, r, path))
  {
    hide Heap, Tree, Bare, Branches, Below, FreedPage;
    BranchesAll(mem0, own0, r, path, p);
    SelfIn(own0, r, path, p, 512);
    HeapGive(s, free, own, p);
    assert own1 - Branches(own0, r, path, ENTRIES) - {p} == own1 - (Branches(own0, r, path, ENTRIES) + {p});
  }

  // ---- whole page tables, step by step

  /** PTE_R | PTE_X and PTE_R | PTE_W */
  const PTE_RX: nat := 10
  const PTE_RW: nat := 6

  function ClearUser(w: nat): nat { if UserBit(w) then w - 16 else w }

  /** Every page in use holds what it held. */
  ghost predicate Unchanged(s: Ram, s': Ram, own: Owner) {
    s'.first == s.first && forall p :: p in own && p in s.mem ==> p in s'.mem && s'.mem[p] == s.mem[p]
  }

  lemma UnchangedSame(s: Ram, own: Owner)
    ensures Unchanged(s, s, own)
  {
  }

  lemma CreatedSound(s: Ram, free: seq<int>, own: Owner, r: nat)
    requires Sound(s, free, own) && r == s.head != 0
    ensures free != [] && r in s.mem && |s.mem[r]| == ENTRIES && r !in own
    ensures
      var s', own' := Taken(s).(mem := Taken(s).mem[r := Filled(0)]), own[r := Held][r := Table(r, Top)];
      Sound(s', free[1..], own') && IsRoot(own', r) && Space(s'.mem, r, 0, false, false) && Apart(s, own, s', own', r)
  {
    hide Sound, Space;
    TakeSound(s, free, own);
    var s1, own1 := Taken(s), own[r := Held];
    FillSound(s1, free[1..], own1, r, Filled(0));
    var s' := s1.(mem := Fill(s1.mem, r, Filled(0)));
    NewRootSound(s', free[1..], own1, r);
    NewOthers(s, free, own, r);
  }

  lemma NewOthers(s: Ram, free: seq<int>, own: Owner, r: int)
    requires Sound(s, free, own) && r !in own
    ensures Without(own[r := Held][r := Table(r, Top)], r) == Without(own, r)
  {
    SameRest(own, own[r := Held][r := Table(r, Top)], r);
  }

  lemma UvmfreeStart(s: Ram, free: seq<int>, own: Owner, r: int, sz: nat)
    requires Sound(s, free, own) && IsRoot(own, r) && Space(s.mem, r, PgUp(sz), false, false)
    ensures Mapped(s.mem, r, 0, PgUp(sz)) && PgUp(sz) <= TRAPFRAME && (sz == 0 ==> PgUp(sz) == 0)
    ensures UnmapRange(s, own, s, own, r, 0, 0, true)
  {
    hide Sound, Space;
    SpaceSize(s.mem, r, PgUp(sz), false, false);
    UnmapRangeNone(s, own, r, 0, true);
  }

  lemma UvmfreeMiddle(s0: Ram, own0: Owner, s: Ram, free: seq<int>, own: Owner, r: int, n: int)
    requires IsRoot(own0, r) && Space(s0.mem, r, n, false, false) && UnmapRange(s0, own0, s, own, r, 0, n, true)
    requires Sound(s, free, own) && IsRoot(own, r)
    ensures Bare(s.mem, r) && Apart(s0, own0, s, own, r) && Tree(s.mem, own) && Heap(s, free, own)
    ensures Proper(Top) && TableAt(own, r, r, Top) && Intact(s.mem, s.mem, own, Below(own, r, Top))
  {
    hide UnmapRange, Space, Tree, Heap, Leaves;
    UnmappedAll(s0, own0, s, own, r, n);
    UnmapApart(s0, own0, s, own, r, 0, n, true);
    HeapPages(s, free, own);
  }

  lemma UvmfreeEnd(s0: Ram, own0: Owner, s1: Ram, free1: seq<int>, own1: Owner, s: Ram,
          free: seq<int>, own: Owner, r: int)
    requires Apart(s0, own0, s1, own1, r) && Sound(s1, free1, own1) && IsRoot(own1, r) && Bare(s1.mem, r)
    requires Heap(s, free, own) && own == own1 - Below(own1, r, Top) && s.first == s1.first
    requires OutsideKept(s1.mem, s.mem, Below(own1, r, Top))
    ensures Sound(s, free, own) && own == Without(own0, r) && Apart(s0, own0, s, own, r)
  {
    hide Tree, Heap, Leaves, Below;
    OnlyTables(s1, own1, r);
    FreedTreeSound(s1, free1, own1, s, free, r);
  }

  lemma ClearSound(s: Ram, free: seq<int>, own: Owner, r: int, v: int)
    requires Sound(s, free, own) && IsRoot(own, r) && 0 <= v < TRAPFRAME && Valid(Lookup(s.mem, r, v))
    ensures
      var table := At(s.mem, r, LowOf(v));
      && table in s.mem && 0 <= Px0(v) < |s.mem[table]|
      && var w := ClearUser(s.mem[table][Px0(v)]);
      && var s' := s.(mem := Store(s.mem, table, Px0(v), w));
      && Sound(s', free, own) && OneLookup(s.mem, s'.mem, own, r, v, w) && Lookup(s'.mem, r, v) == w && Valid(w)
      && !UserBit(w)
      && Ppn(w) == Ppn(Lookup(s.mem, r, v)) && Apart(s, own, s', own, r) && SameData(s, own, s', own, r)
  {
    hide At, LowOf, Px0, Valid, Readable, UserBit, Ppn, ClearUser, Heap, Tree, Leaves, Entry;
    LookupWalked(s.mem, own, r, v);
    WalkedPage(s.mem, own, r, v);
    EntryIs(s.mem, At(s.mem, r, LowOf(v)), Px0(v));
    LeafReadable(s.mem, own, r, v);
    ClearUserParts(Lookup(s.mem, r, v));
    ReflagSound(s, free, own, r, v, ClearUser(Lookup(s.mem, r, v)));
  }

  lemma LeafReadable(mem: Mem, own: Owner, r: int, v: int)
    requires Leaves(mem, own) && IsRoot(own, r) && 0 <= v < NVPN && Valid(Lookup(mem, r, v))
    ensures Readable(Lookup(mem, r, v))
  {
  }

  lemma ClearUserParts(w: nat)
    requires Valid(w) && Readable(w)
    ensures Valid(ClearUser(w)) && Readable(ClearUser(w)) && !UserBit(ClearUser(w)) && Ppn(ClearUser(w)) == Ppn(w)
  {
    hide Valid, Readable, UserBit, Ppn, Flags, Mk, ClearUser;
    WordParts(w);
    MkParts(Ppn(w), Flags(w));
    ClearFlag(w);
    ClearFlagParts(Flags(w));
    MkParts(Ppn(w), ClearUser(Flags(w)));
  }

  lemma ClearFlag(w: nat)
    requires UserBit(w) <==> UserBit(Flags(w))
    ensures ClearUser(w) == Mk(Ppn(w), ClearUser(Flags(w)))
  {
    hide UserBit;
  }

  lemma ClearFlagParts(f: nat)
    requires f < 1024 && Valid(f) && Readable(f)
    ensures ClearUser(f) < 1024 && Valid(ClearUser(f)) && Readable(ClearUser(f)) && !UserBit(ClearUser(f))
  {
    if UserBit(f) {
      assert (f - 16) / 16 == f / 16 - 1;
      assert (f - 16) / 2 == f / 2 - 8;
    }
  }

  lemma FixedReady(s: Ram, own: Owner, r: int, v: int, p: nat, tf: bool, tr: bool)
    requires Space(s.mem, r, 0, tf, tr) && (if v == TRAPFRAME then !tf else v == TRAMPOLINE && !tr)
    ensures v * 4096 / 4096 == v && PagesIn(v * 4096, 4096) == 1 && 0 <= v * 4096 && v * 4096 + 4096 <= MAXVPN * 4096
    ensures MappableRange(own, v, p, 1) && Unmapped(s.mem, r, v, 1)
    ensures PTE_RX < 1024 && Readable(PTE_RX) && OrValid(PTE_RX) < 1024 && Valid(OrValid(PTE_RX))
    ensures PTE_RW < 1024 && Readable(PTE_RW) && OrValid(PTE_RW) < 1024 && Valid(OrValid(PTE_RW))
  {
    hide Lookup;
    OnePage(own, v, p);
  }

  lemma FixedFailed(s0: Ram, own0: Owner, s1: Ram, own1: Owner, s: Ram, own: Owner, r: int, v: int,
          p: nat, flags: nat, tf: bool, tr: bool)
    requires Apart(s0, own0, s1, own1, r) && Space(s1.mem, r, 0, tf, tr) && IsRoot(own1, r)
    requires MapRange(s1, own1, s, own, r, v, p, flags, 0)
    ensures Space(s.mem, r, 0, tf, tr) && Apart(s0, own0, s, own, r) && PgUp(0) == 0
  {
    hide Lookup, Mk, Valid;
    SameRest(own1, own, r);
    assert Apart(s1, own1, s, own, r);
  }

  /** A page table that was made and freed again leaves everything as it was. */
  lemma DropDone(s0: Ram, free0: seq<int>, own0: Owner, s1: Ram, own1: Owner, s: Ram, own: Owner,
          r: int)
    requires Sound(s0, free0, own0) && r !in own0 && Apart(s0, own0, s1, own1, r) && Apart(s1, own1, s, own, r)
    requires own == Without(own1, r)
    ensures own == own0 && Unchanged(s0, s, own)
  {
    hide Sound;
    NoneOf(s0, free0, own0, r);
  }

  /** The same pages in use means the same pages free. */
  lemma SameFree(s: Ram, free: seq<int>, s': Ram, free': seq<int>, own: Owner)
    requires Sound(s, free, own) && Sound(s', free', own) && Unchanged(s, s', own)
    ensures forall p :: p in free' <==> p in free
  {
    hide Tree, Leaves, Heap;
    forall p ensures p in free' <==> p in free {
      FreeIsTheRest(s, free, own, p);
      FreeIsTheRest(s', free', own, p);
    }
  }

  lemma FixedThere(s: Ram, free: seq<int>, own: Owner, r: int, n: int, tf: bool, tr: bool, v: int)
    requires Sound(s, free, own) && Space(s.mem, r, n, tf, tr) && ((v == TRAMPOLINE && tr) || (v == TRAPFRAME && tf))
    ensures Mapped(s.mem, r, v, 1) && 0 <= v && v + 1 <= MAXVPN && Leaves(s.mem, own)
  {
    hide Lookup, Valid;
  }

  lemma WithoutOf(s: Ram, own: Owner, s': Ram, own': Owner, r: int)
    requires Apart(s, own, s', own', r)
    ensures Without(own', r) == Without(own, r)
  {
  }

  lemma VpnOrder()
    ensures 0 < TRAPFRAME < TRAMPOLINE < MAXVPN < NVPN
  {
  }

  // ---- meaning of mapping and unmapping

  lemma MapsTo(s: Ram, own: Owner, s': Ram, own': Owner, r: int, v: int, p: nat, perm: nat, n: int)
    requires MapRange(s, own, s', own', r, v, p, OrValid(perm), n) && IsRoot(own, r) && 0 <= v && v + n <= MAXVPN
    requires perm < 1024
    ensures Mapping(s'.mem, r) == Mapping(s.mem, r) + RangeMap(v, p, OrValid(perm), n)
    ensures forall x :: IsRoot(own, x) && x != r ==> Mapping(s'.mem, x) == Mapping(s.mem, x)
  {
    hide Mapping, MapRange, OrValid, RangeMap;
    OrValidParts(perm);
    MapRefines(s, own, s', own', r, v, p, OrValid(perm), n, r);
    forall x | IsRoot(own, x) && x != r ensures Mapping(s'.mem, x) == Mapping(s.mem, x) {
      MapRefines(s, own, s', own', r, v, p, OrValid(perm), n, x);
    }
  }

  function RemoveRange(m: map<int, nat>, v: int, n: int): map<int, nat> {
    map u | u in m && !(v <= u < v + n) :: m[u]
  }

  lemma UnmapsTo(s: Ram, own: Owner, s': Ram, own': Owner, r: int, v: int, n: int, doFree: bool)
    requires UnmapRange(s, own, s', own', r, v, n, doFree)
    ensures forall x :: IsRoot(own, x) ==>
      Mapping(s'.mem, x) == if x == r then RemoveRange(Mapping(s.mem, x), v, n) else Mapping(s.mem, x)
  {
    hide Mapping, UnmapRange;
    forall x | IsRoot(own, x)
      ensures Mapping(s'.mem, x) == if x == r then RemoveRange(Mapping(s.mem, x), v, n) else Mapping(s.mem, x)
    {
      UnmapRefines(s, own, s', own', r, v, n, doFree, x);
      var a, b := Mapping(s'.mem, x), if x == r then RemoveRange(Mapping(s.mem, x), v, n) else Mapping(s.mem, x);
      assert forall u :: u in a <==> u in b;
      assert forall u :: u in a ==> a[u] == b[u];
      assert a == b;
    }
  }

  // ---- kinit, step by step

  /** Before kinit every page counts as held by the boot code. */
  function AllHeld(mem: Mem): Owner { map p | p in mem :: Held }

  ghost predicate Initialising(s: Ram, free: seq<int>, own: Owner, first: int, p: int) {
    Sound(s, free, own) && s.first == first <= p <= STOP
    && forall x :: (x in own <==> p <= x < STOP) && (x in own ==> own[x] == Held)
  }

  lemma InitStart(s: Ram, own: Owner, mem: Mem)
    requires s.mem == mem && s.head == 0 && own == AllHeld(mem) && KERNBASE < s.first <= STOP
    requires forall p :: p in mem <==> s.first <= p < STOP
    requires forall p :: p in mem ==> |mem[p]| == ENTRIES
    ensures Initialising(s, [], own, s.first, s.first)
  {
  }

  lemma InitNext(s: Ram, free: seq<int>, own: Owner, first: int, p: nat)
    requires Initialising(s, free, own, first, p) && p < STOP
    ensures p in s.mem && Initialising(Freed(s, p), [p as int] + free, own - {p as int}, first, p + 1)
  {
    hide Sound, FreedPage;
    HeapPagesOf(s, free, own);
    GiveSound(s, free, own, p);
  }

  lemma InitDone(s: Ram, free: seq<int>, own: Owner, first: int, p: int)
    requires Initialising(s, free, own, first, p) && p >= STOP
    ensures Sound(s, free, own) && own == map[] && s.first == first
  {
    hide Sound;
    assert forall x :: x !in own;
  }
}
