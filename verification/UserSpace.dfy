/**
 The user part of an address space: pages added one by one with given contents, and how
 unmapping them again undoes that.
 */
module UserSpace {
  import opened PageTable
  import opened PhysPages
  import opened AddressSpace

  /** What a user page should hold, and the flags of its entry. */
  datatype Image = Image(page: Page, flags: nat)

  ghost predicate Shows(mem: Mem, w: nat, img: Image) {
    Valid(w) && Flags(w) == img.flags && Ppn(w) in mem && mem[Ppn(w)] == img.page
  }

  /** r gained user pages from v on that show these images; nothing else changed. */
  ghost predicate Added(s: Ram, own: Owner, s': Ram, own': Owner, r: int, v: int, imgs: seq<Image>) {
    && SameData(s, own, s', own', r)
    && (forall x, u :: IsRoot(own, x) && 0 <= u < NVPN && !(x == r && v <= u < v + |imgs|) ==>
          Lookup(s'.mem, x, u) == Lookup(s.mem, x, u))
    && (forall u :: v <= u < v + |imgs| ==> Shows(s'.mem, Lookup(s'.mem, r, u), imgs[u - v]))
    && (forall p :: p in own ==> p in own' && own'[p] == own[p])
    && (forall p :: p in own' && p !in own ==> Of(own'[p], r) && (own'[p].User? ==> v <= own'[p].vpn < v + |imgs|))
  }

  lemma AddedNone(s: Ram, own: Owner, s': Ram, own': Owner, r: int, v: int)
    requires Grown(s, own, s', own', r)
    ensures Added(s, own, s', own', r, v, [])
  {
    hide Lookup;
  }

  /** A page taken for r, filled, and not yet mapped. */
  ghost predicate InHand(s: Ram, own: Owner, s1: Ram, own1: Owner, r: int, p: nat, page: Page) {
    && p !in own && own1 == own[p := Held] && p in s1.mem && s1.mem[p] == page
    && SameLookups(s.mem, s1.mem, own) && SameData(s, own, s1, own1, r)
  }

  lemma AddOne(s: Ram, own: Owner, s1: Ram, own1: Owner, s2: Ram, own2: Owner, r: int, v: int,
          p: nat, img: Image)
    requires InHand(s, own, s1, own1, r, p, img.page) && img.flags < 1024 && Valid(img.flags)
    requires IsRoot(own, r) && 0 <= v < TRAPFRAME && MapRange(s1, own1, s2, own2, r, v, p, img.flags, 1)
    ensures Added(s, own, s2, own2, r, v, [img])
  {
    hide Lookup, Mk, Valid, Flags, Ppn;
    MkParts(p, img.flags);
    assert own1[p] == Held && own2[p] == User(r, v);
    forall x | IsRoot(own, x) ensures IsRoot(own1, x) {}
    assert Lookup(s2.mem, r, v) == Mk(p, img.flags);
    SameDataTwice(s, own, s1, own1, s2, own2, r);
  }

  /** Giving the page back when it could not be mapped. */
  lemma AddFailed(s: Ram, own: Owner, s1: Ram, own1: Owner, s2: Ram, free2: seq<int>, own2: Owner,
          r: int, v: int, p: nat, page: Page, flags: nat)
    requires InHand(s, own, s1, own1, r, p, page) && MapRange(s1, own1, s2, own2, r, v, p, flags, 0)
    requires Sound(s2, free2, own2)
    requires IsRoot(own, r)
    ensures Sound(Freed(s2, p), [p] + free2, own2 - {p}) && Grown(s, own, Freed(s2, p), own2 - {p}, r)
    ensures IsRoot(own2 - {p}, r)
    ensures p in s2.mem
  {
    hide Lookup, Mk, Sound, FreedPage;
    forall x | IsRoot(own, x) ensures IsRoot(own1, x) && IsRoot(own2, x) {}
    assert own2[p] == Held;
    GiveSound(s2, free2, own2, p);
    SameDataTwice(s, own, s1, own1, s2, own2, r);
    InUse(s2, free2, own2, p);
  }

  lemma InUse(s: Ram, free: seq<int>, own: Owner, p: int)
    requires Sound(s, free, own) && p in own
    ensures p in s.mem && |s.mem[p]| == ENTRIES && p != 0
  {
    HeapPages(s, free, own);
  }

  lemma AddedAppend(s: Ram, own: Owner, s1: Ram, own1: Owner, s2: Ram, own2: Owner, r: int, v: int,
          imgs: seq<Image>, img: Image)
    requires Added(s, own, s1, own1, r, v, imgs) && Added(s1, own1, s2, own2, r, v + |imgs|, [img]) && IsRoot(own, r)
    requires Leaves(s1.mem, own1) && 0 <= v && v + |imgs| < TRAPFRAME
    ensures Added(s, own, s2, own2, r, v, imgs + [img])
  {
    hide Lookup, Leaves, SameData, Shows;
    forall x | IsRoot(own, x) ensures IsRoot(own1, x) {}
    SameDataTwice(s, own, s1, own1, s2, own2, r);
    forall u | v <= u < v + |imgs| ensures Shows(s2.mem, Lookup(s2.mem, r, u), imgs[u - v]) {
      ShowsStill(s1, own1, s2, own2, r, u, imgs[u - v]);
    }
    assert Shows(s2.mem, Lookup(s2.mem, r, v + |imgs|), [img][0]);
    forall u | v <= u < v + |imgs + [img]| ensures Shows(s2.mem, Lookup(s2.mem, r, u), (imgs + [img])[u - v]) {
    }
  }

  /** A user page shows the same image while its entry and its page are left alone. */
  lemma ShowsStill(s: Ram, own: Owner, s': Ram, own': Owner, r: int, u: int, img: Image)
    requires Leaves(s.mem, own) && IsRoot(own, r) && 0 <= u < TRAPFRAME && Shows(s.mem, Lookup(s.mem, r, u), img)
    requires SameData(s, own, s', own', r) && Lookup(s'.mem, r, u) == Lookup(s.mem, r, u)
    requires forall p :: p in own ==> p in own' && own'[p] == own[p]
    ensures Shows(s'.mem, Lookup(s'.mem, r, u), img)
  {
    hide Lookup, Valid, Ppn, Flags, Readable;
    assert UserPage(own, Ppn(Lookup(s.mem, r, u)), r, u);
  }

  lemma AddedGrown(s: Ram, own: Owner, s1: Ram, own1: Owner, s2: Ram, own2: Owner, r: int, v: int,
          imgs: seq<Image>)
    requires Added(s, own, s1, own1, r, v, imgs) && Grown(s1, own1, s2, own2, r) && IsRoot(own, r)
    requires Leaves(s1.mem, own1) && 0 <= v && v + |imgs| <= TRAPFRAME
    ensures Added(s, own, s2, own2, r, v, imgs)
  {
    hide Lookup, Leaves, SameData, Shows;
    forall x | IsRoot(own, x) ensures IsRoot(own1, x) {}
    SameDataTwice(s, own, s1, own1, s2, own2, r);
    forall u | v <= u < v + |imgs| ensures Shows(s2.mem, Lookup(s2.mem, r, u), imgs[u - v]) {
      ShowsStill(s1, own1, s2, own2, r, u, imgs[u - v]);
    }
  }

  /** Unmapping and freeing everything that was added leaves only extra table pages. */
  lemma AddedUndone(s: Ram, free: seq<int>, own: Owner, s1: Ram, own1: Owner, s2: Ram, own2: Owner,
          r: int, v: int, imgs: seq<Image>)
    requires Sound(s, free, own) && Added(s, own, s1, own1, r, v, imgs)
    requires UnmapRange(s1, own1, s2, own2, r, v, |imgs|, true)
    requires IsRoot(own, r) && 0 <= v && Unmapped(s.mem, r, v, |imgs|)
    ensures Grown(s, own, s2, own2, r)
  {
    hide Lookup, SameData, Shows, Valid, Readable, Ppn, Heap, Tree;
    forall x | IsRoot(own, x) ensures IsRoot(own1, x) {}
    NotUsed(s, own, r, v, |imgs|);
    SameDataTwice(s, own, s1, own1, s2, own2, r);
    forall x, u | IsRoot(own, x) && 0 <= u < NVPN ensures Lookup(s2.mem, x, u) == Lookup(s.mem, x, u) {
      if x == r && v <= u < v + |imgs| {
        assert Lookup(s.mem, r, u) == 0;
      }
    }
  }

  /** Where nothing is mapped, no page is a user page. */
  lemma NotUsed(s: Ram, own: Owner, r: int, v: int, n: int)
    requires Leaves(s.mem, own) && IsRoot(own, r) && 0 <= v && Unmapped(s.mem, r, v, n)
    ensures forall p :: p in own ==> !UserIn(own[p], r, v, n)
  {
    hide Lookup, Valid, Readable, Ppn;
    forall p | p in own && own[p].User? ensures !UserIn(own[p], r, v, n) {
      assert UserPage(own, p, own[p].root, own[p].vpn);
    }
  }

  // ---- the layout of a process

  /** User pages 0 to n-1 are mapped, the two fixed pages if so flagged, and nothing else. */
  ghost predicate Space(mem: Mem, r: int, n: int, tf: bool, tr: bool) {
    && 0 <= n <= TRAPFRAME
    && forall u :: 0 <= u < NVPN ==>
         (Valid(Lookup(mem, r, u)) <==> u < n || (tf && u == TRAPFRAME) || (tr && u == TRAMPOLINE))
  }

  /** There are fewer physical pages than pages below the trapframe. */
  lemma SpaceBound(s: Ram, free: seq<int>, own: Owner, r: int, n: int)
    requires Sound(s, free, own) && IsRoot(own, r) && 0 <= n <= TRAPFRAME && Mapped(s.mem, r, 0, n)
    ensures n <= STOP - s.first < TRAPFRAME
  {
    hide Tree, Leaves, Lookup, Chain;
    var ps := UsedPages(s, own, r, n);
    AtMost(ps, s.first, STOP);
  }

  lemma {:induction false} UsedPages(s: Ram, own: Owner, r: int, n: int) returns (ps: set<int>)
    requires Leaves(s.mem, own) && IsRoot(own, r) && 0 <= n <= TRAPFRAME && Mapped(s.mem, r, 0, n)
    ensures |ps| == n && forall p :: p in ps ==> p in own && own[p].User? && own[p].vpn < n
    decreases n
  {
    hide Lookup, Valid, Readable, Ppn;
    ps := {};
    if n > 0 {
      ps := UsedPages(s, own, r, n - 1);
      var p: int := Ppn(Lookup(s.mem, r, n - 1));
      assert UserPage(own, p, r, n - 1);
      assert p !in ps;
      ps := ps + {p};
    }
  }

  lemma {:induction false} AtMost(ps: set<int>, lo: int, hi: int)
    requires lo <= hi && forall p :: p in ps ==> lo <= p < hi
    ensures |ps| <= hi - lo
    decreases hi - lo
  {
    if lo == hi {
      assert ps == {};
    } else {
      AtMost(ps - {hi - 1}, lo, hi - 1);
      assert ps <= (ps - {hi - 1}) + {hi - 1};
      SubsetSize(ps, (ps - {hi - 1}) + {hi - 1});
    }
  }

  lemma SubsetSize(a: set<int>, b: set<int>)
    requires a <= b
    ensures |a| <= |b|
  {
    assert b == a + (b - a);
  }

  // ---- everything apart from one address space

  function Without(own: Owner, r: int): Owner {
    map p | p in own && !Of(own[p], r) :: own[p]
  }

  /** Pages that are not r's are the same pages, for the same uses, with the same contents. */
  ghost predicate Apart(s: Ram, own: Owner, s': Ram, own': Owner, r: int) {
    && s'.first == s.first && Without(own', r) == Without(own, r)
    && forall p :: p in Without(own, r) && p in s.mem ==> p in s'.mem && s'.mem[p] == s.mem[p]
  }

  lemma ApartTwice(s: Ram, own: Owner, s1: Ram, own1: Owner, s2: Ram, own2: Owner, r: int)
    requires Apart(s, own, s1, own1, r) && Apart(s1, own1, s2, own2, r)
    ensures Apart(s, own, s2, own2, r)
  {
  }

  lemma SameRest(own: Owner, own': Owner, r: int)
    requires forall p :: p in own && !Of(own[p], r) ==> p in own' && own'[p] == own[p]
    requires forall p :: p in own' && !Of(own'[p], r) ==> p in own && own'[p] == own[p]
    ensures Without(own', r) == Without(own, r)
  {
    var a, b := Without(own, r), Without(own', r);
    assert forall p :: p in b <==> p in a;
    assert forall p :: p in a ==> b[p] == a[p];
    assert a == b;
  }

  lemma GrownApart(s: Ram, own: Owner, s': Ram, own': Owner, r: int)
    requires Grown(s, own, s', own', r)
    ensures Apart(s, own, s', own', r)
  {
    hide SameLookups;
    SameRest(own, own', r);
  }

  lemma AddedApart(s: Ram, own: Owner, s': Ram, own': Owner, r: int, v: int, imgs: seq<Image>)
    requires Added(s, own, s', own', r, v, imgs)
    ensures Apart(s, own, s', own', r)
  {
    hide Lookup, Shows;
    SameRest(own, own', r);
  }

  /** Unmapping with free, or of a fixed page. */
  lemma UnmapApart(s: Ram, own: Owner, s': Ram, own': Owner, r: int, v: int, n: int, doFree: bool)
    requires UnmapRange(s, own, s', own', r, v, n, doFree)
    requires doFree || forall p :: p in own ==> !UserIn(own[p], r, v, n)
    ensures Apart(s, own, s', own', r)
  {
    hide Lookup;
    SameRest(own, own', r);
  }

  // ---- creating and dropping a whole tree

  lemma NewRootTree(mem: Mem, own: Owner, r: int)
    requires Tree(mem, own) && r in own && own[r] == Held && r != 0 && Zeroed(mem[r])
    ensures Tree(mem, own[r := Table(r, Top)])
    ensures forall u :: 0 <= u < NVPN ==> Lookup(mem, r, u) == 0
  {
    hide Valid, Ppn, Flags, Px0, Px1, Px2;
    ValidBit();
    var own' := own[r := Table(r, Top)];
    forall x ensures IsRoot(own', x) <==> IsRoot(own, x) || x == r {}
    forall path | Proper(path) && !path.Top? ensures At(mem, r, path) == 0 {}
    forall x, path | IsRoot(own', x) && Proper(path) && At(mem, x, path) != 0
      ensures TableAt(own', At(mem, x, path), x, path)
    {
      if x != r {
        TablePath(mem, own, x, path);
      }
    }
  }

  lemma NewRootSound(s: Ram, free: seq<int>, own: Owner, r: int)
    requires Sound(s, free, own) && r in own && own[r] == Held && Zeroed(s.mem[r])
    ensures Sound(s, free, own[r := Table(r, Top)]) && Space(s.mem, r, 0, false, false)
  {
    hide Heap, Tree, Lookup, Valid, Readable, Ppn;
    InUse(s, free, own, r);
    NewRootTree(s.mem, own, r);
    HeapRelabel(s, free, own, r, Table(r, Top));
    ValidBit();
    var own' := own[r := Table(r, Top)];
    forall x ensures IsRoot(own', x) <==> IsRoot(own, x) || x == r {}
    forall x, y, u ensures UserPage(own', x, y, u) <==> UserPage(own, x, y, u) {}
  }

  /** Nothing of r is mapped any more. */
  ghost predicate Bare(mem: Mem, r: int) { Unmapped(mem, r, 0, NVPN) }

  lemma DropTree(mem: Mem, own: Owner, mem': Mem, r: int)
    requires Tree(mem, own) && Leaves(mem, own) && IsRoot(own, r) && Bare(mem, r) && 0 !in mem'
    requires forall p :: p in Without(own, r) && p in mem ==> p in mem' && mem'[p] == mem[p]
    ensures Tree(mem', Without(own, r)) && Leaves(mem', Without(own, r))
    ensures SameLookups(mem, mem', Without(own, r))
  {
    hide At, Lookup, Valid, Readable, Ppn, Flags;
    var own' := Without(own, r);
    forall x ensures IsRoot(own', x) <==> IsRoot(own, x) && x != r {}
    forall p | IsTable(own', p) ensures At(mem', own'[p].root, own'[p].path) == p {
      AtFrame(mem, mem', own, own[p].root, own[p].path);
    }
    forall x, path | IsRoot(own', x) && Proper(path) && At(mem', x, path) != 0
      ensures TableAt(own', At(mem', x, path), x, path)
    {
      AtFrame(mem, mem', own, x, path);
      TablePath(mem, own, x, path);
    }
    forall p, i | IsTable(own', p) ensures Entry(mem', p, i) == Entry(mem, p, i) && IsTable(own, p) {}
    DropLeaves(mem, own, mem', r);
  }

  lemma DropLeaves(mem: Mem, own: Owner, mem': Mem, r: int)
    requires Tree(mem, own) && Leaves(mem, own) && IsRoot(own, r) && Bare(mem, r) && 0 !in mem'
    requires forall p :: p in Without(own, r) && p in mem ==> p in mem' && mem'[p] == mem[p]
    ensures Leaves(mem', Without(own, r)) && SameLookups(mem, mem', Without(own, r))
  {
    hide At, Lookup, Valid, Readable, Ppn, Flags, Tree;
    var own' := Without(own, r);
    forall x ensures IsRoot(own', x) <==> IsRoot(own, x) && x != r {}
    forall x, y, u ensures UserPage(own', x, y, u) <==> UserPage(own, x, y, u) && y != r {}
    forall x, u | IsRoot(own', x) && 0 <= u < NVPN ensures Lookup(mem', x, u) == Lookup(mem, x, u) {
      LookupFrame(mem, mem', own, x, u);
    }
  }

  // ---- growing a process

  /** PGROUNDUP, counted in pages */
  function PgUp(sz: nat): nat { (sz + 4095) / 4096 }

  /** PTE_W | PTE_X | PTE_R | PTE_U, and with PTE_V */
  const USER_RWX: nat := 30

  function ZeroImage(): Image { Image(Filled(0), OrValid(USER_RWX)) }

  function Zeros(n: nat): (imgs: seq<Image>)
    ensures |imgs| == n && forall k :: 0 <= k < n ==> imgs[k] == ZeroImage()
    decreases n
  {
    if n == 0 then [] else Zeros(n - 1) + [ZeroImage()]
  }

  lemma AddedSpace(s: Ram, own: Owner, s': Ram, own': Owner, r: int, n: int, imgs: seq<Image>,
          tf: bool, tr: bool)
    requires Space(s.mem, r, n, tf, tr) && Added(s, own, s', own', r, n, imgs) && IsRoot(own, r)
    requires n + |imgs| <= TRAPFRAME
    ensures Space(s'.mem, r, n + |imgs|, tf, tr)
  {
    hide Lookup, Valid, Flags, Ppn, SameData;
    forall u | 0 <= u < NVPN
      ensures Valid(Lookup(s'.mem, r, u)) <==> u < n + |imgs| || (tf && u == TRAPFRAME) || (tr && u == TRAMPOLINE)
    {
      if n <= u < n + |imgs| {
        assert Shows(s'.mem, Lookup(s'.mem, r, u), imgs[u - n]);
      }
    }
  }

  lemma GrownSpace(s: Ram, own: Owner, s': Ram, own': Owner, r: int, n: int, tf: bool, tr: bool)
    requires Space(s.mem, r, n, tf, tr) && Grown(s, own, s', own', r) && IsRoot(own, r)
    ensures Space(s'.mem, r, n, tf, tr)
  {
    hide Lookup, Valid, SameData;
  }

  /** Adding pages to r from page v on: `imgs` are in place so far. */
  ghost predicate Adding(s0: Ram, free0: seq<int>, own0: Owner, s: Ram, free: seq<int>, own: Owner, r: int, v: int,
          imgs: seq<Image>, tf: bool, tr: bool) {
    && Sound(s0, free0, own0) && IsRoot(own0, r) && Space(s0.mem, r, v, tf, tr)
    && Sound(s, free, own) && IsRoot(own, r) && v + |imgs| <= TRAPFRAME && Added(s0, own0, s, own, r, v, imgs)
  }

  lemma AddingStart(s: Ram, free: seq<int>, own: Owner, r: int, v: int, tf: bool, tr: bool)
    requires Sound(s, free, own) && IsRoot(own, r) && Space(s.mem, r, v, tf, tr)
    ensures Adding(s, free, own, s, free, own, r, v, [], tf, tr)
  {
    hide Sound, Space, Added;
    GrownSame(s, own, r);
    SpaceSize(s.mem, r, v, tf, tr);
    AddedNone(s, own, s, own, r, v);
  }

  lemma SpaceSize(mem: Mem, r: int, n: int, tf: bool, tr: bool)
    requires Space(mem, r, n, tf, tr)
    ensures 0 <= n <= TRAPFRAME && Mapped(mem, r, 0, n) && (n < TRAPFRAME ==> !Valid(Lookup(mem, r, n)))
    ensures forall k :: 0 <= k && n + k <= TRAPFRAME ==> Unmapped(mem, r, n, k)
  {
    hide Lookup, Valid;
  }

  /** Memory runs out before user addresses do, so the next page is free to be mapped. */
  lemma AddingReady(s0: Ram, free0: seq<int>, own0: Owner, s: Ram, free: seq<int>, own: Owner,
          r: int, v: int, imgs: seq<Image>, tf: bool, tr: bool)
    requires Adding(s0, free0, own0, s, free, own, r, v, imgs, tf, tr)
    ensures Sound(s, free, own) && IsRoot(own, r) && 0 <= v && v + |imgs| < TRAPFRAME
    ensures !Valid(Lookup(s.mem, r, v + |imgs|)) && Space(s.mem, r, v + |imgs|, tf, tr)
    ensures Mapped(s.mem, r, v, |imgs|) && Unmapped(s0.mem, r, v, |imgs|)
  {
    hide Sound, Lookup, Valid, Added;
    SpaceSize(s0.mem, r, v, tf, tr);
    AddedSpace(s0, own0, s, own, r, v, imgs, tf, tr);
    SpaceSize(s.mem, r, v + |imgs|, tf, tr);
    SpaceBound(s, free, own, r, v + |imgs|);
  }

  lemma AddingNext(s0: Ram, free0: seq<int>, own0: Owner, s1: Ram, free1: seq<int>, own1: Owner,
          s: Ram, free: seq<int>, own: Owner, r: int, v: int, imgs: seq<Image>, img: Image, tf: bool, tr: bool)
    requires Adding(s0, free0, own0, s1, free1, own1, r, v, imgs, tf, tr)
    requires Sound(s, free, own) && IsRoot(own, r) && Added(s1, own1, s, own, r, v + |imgs|, [img])
    ensures Adding(s0, free0, own0, s, free, own, r, v, imgs + [img], tf, tr)
  {
    hide Heap, Tree, Leaves, Space, Added;
    AddingReady(s0, free0, own0, s1, free1, own1, r, v, imgs, tf, tr);
    AddedAppend(s0, own0, s1, own1, s, own, r, v, imgs, img);
  }

  lemma AddingStuck(s0: Ram, free0: seq<int>, own0: Owner, s1: Ram, free1: seq<int>, own1: Owner,
          s: Ram, free: seq<int>, own: Owner, r: int, v: int, imgs: seq<Image>, tf: bool, tr: bool)
    requires Adding(s0, free0, own0, s1, free1, own1, r, v, imgs, tf, tr)
    requires Sound(s, free, own) && IsRoot(own, r) && Grown(s1, own1, s, own, r)
    ensures Adding(s0, free0, own0, s, free, own, r, v, imgs, tf, tr)
  {
    hide Heap, Tree, Leaves, Added, Lookup;
    AddedGrown(s0, own0, s1, own1, s, own, r, v, imgs);
  }

  lemma AddingUndone(s0: Ram, free0: seq<int>, own0: Owner, s1: Ram, free1: seq<int>, own1: Owner,
          s: Ram, own: Owner, r: int, v: int, imgs: seq<Image>, tf: bool, tr: bool)
    requires Adding(s0, free0, own0, s1, free1, own1, r, v, imgs, tf, tr)
    requires UnmapRange(s1, own1, s, own, r, v, |imgs|, true)
    ensures Grown(s0, own0, s, own, r)
  {
    hide Sound, Added, UnmapRange, Space, Lookup;
    AddingReady(s0, free0, own0, s1, free1, own1, r, v, imgs, tf, tr);
    AddedUndone(s0, free0, own0, s1, own1, s, own, r, v, imgs);
  }

  // ---- copying a process

  function ImageOf(mem: Mem, x: int, u: int): Image {
    var w := Lookup(mem, x, u);
    Image(if Ppn(w) in mem then mem[Ppn(w)] else [], Flags(w))
  }

  /** The first n pages of x. */
  function Images(mem: Mem, x: int, n: nat): (imgs: seq<Image>)
    ensures |imgs| == n && forall u :: 0 <= u < n ==> imgs[u] == ImageOf(mem, x, u)
    decreases n
  {
    if n == 0 then [] else Images(mem, x, n - 1) + [ImageOf(mem, x, n - 1)]
  }

  /** While pages are added to r, another process keeps its pages. */
  lemma SourceKept(s0: Ram, free0: seq<int>, own0: Owner, s: Ram, free: seq<int>, own: Owner,
          r: int, x: int, u: int, imgs: seq<Image>)
    requires Sound(s0, free0, own0) && Sound(s, free, own) && Added(s0, own0, s, own, r, 0, imgs) && IsRoot(own0, x)
    requires x != r && 0 <= u < TRAPFRAME
    requires Valid(Lookup(s0.mem, x, u))
    ensures
      var w := Lookup(s.mem, x, u);
      && IsRoot(own, x) && Valid(w) && Readable(w) && Ppn(w) in s.mem && |s.mem[Ppn(w)]| == ENTRIES
      && ImageOf(s0.mem, x, u) == Image(s.mem[Ppn(w)], Flags(w))
  {
    hide Lookup, Valid, Readable, Ppn, Flags, Heap, Tree, Shows;
    assert UserPage(own0, Ppn(Lookup(s0.mem, x, u)), x, u);
    InUse(s0, free0, own0, Ppn(Lookup(s0.mem, x, u)));
    InUse(s, free, own, Ppn(Lookup(s0.mem, x, u)));
  }

  lemma FlagBits(w: nat)
    requires Valid(w) && Readable(w)
    ensures Flags(w) < 1024 && Valid(Flags(w)) && Readable(Flags(w)) && OrValid(Flags(w)) == Flags(w)
  {
    hide Valid, Readable, Flags, Ppn, Mk, OrValid;
    WordParts(w);
    MkParts(Ppn(w), Flags(w));
    OrValidParts(Flags(w));
  }

  lemma WordParts(w: nat)
    ensures w == Mk(Ppn(w), Flags(w)) && Flags(w) < 1024
  {
  }

  // ---- freeing a tree, page by page

  /** Table page path q is at or below `path`. */
  predicate Under(q: Path, path: Path) {
    match path
    case Top => true
    case Mid(i) => (q.Mid? && q.i2 == i) || (q.Low? && q.j2 == i)
    case Low(_, _) => q == path
  }

  predicate TableUnder(u: Use, r: int, path: Path) { u.Table? && u.root == r && Under(u.path, path) }

  /** The table pages at or below a path of r. */
  function Below(own: Owner, r: int, path: Path): set<int> {
    set p | p in own && TableUnder(own[p], r, path)
  }

  /** Under which entry of the table at `path` the page at q lies. */
  function Branch(q: Path, path: Path): int {
    if path.Top? then (if q.Mid? then q.i2 else if q.Low? then q.j2 else -1)
    else if path.Mid? && q.Low? then q.i1 else -1
  }

  predicate InBranches(u: Use, r: int, path: Path, i: int) {
    TableUnder(u, r, path) && u.path != path && 0 <= Branch(u.path, path) < i
  }

  /** The table pages below the first i entries of the table at `path`. */
  function Branches(own: Owner, r: int, path: Path, i: int): set<int> {
    set p | p in own && InBranches(own[p], r, path, i)
  }

  lemma BranchesStart(own: Owner, r: int, path: Path)
    ensures Branches(own, r, path, 0) == {}
  {
    var ps := Branches(own, r, path, 0);
    assert forall p :: p !in ps;
    assert ps == {};
  }

  lemma BranchesNext(own: Owner, r: int, path: Path, i: int)
    requires 0 <= i && !path.Low?
    ensures Branches(own, r, path, i + 1) == Branches(own, r, path, i) + Below(own, r, Child(path, i))
    ensures forall p :: p in Branches(own, r, path, i) ==> p !in Below(own, r, Child(path, i))
  {
    var ps, qs, bs := Branches(own, r, path, i + 1), Branches(own, r, path, i), Below(own, r, Child(path, i));
    assert forall p :: p in ps <==> p in qs || p in bs;
    assert ps == qs + bs;
  }

  lemma BranchesNone(own: Owner, r: int, path: Path, i: int)
    requires path.Low?
    ensures Branches(own, r, path, i) == {}
  {
    var ps := Branches(own, r, path, i);
    assert forall p :: p !in ps;
    assert ps == {};
  }

  /** All branches and the table itself make up the subtree. */
  lemma BranchesAll(mem: Mem, own: Owner, r: int, path: Path, p: int)
    requires Tree(mem, own) && TableAt(own, p, r, path) && Proper(path)
    ensures Branches(own, r, path, ENTRIES) + {p} == Below(own, r, path) && p !in Branches(own, r, path, ENTRIES)
  {
    hide At, Valid, Flags, Ppn;
    forall q ensures q in Below(own, r, path) <==> q in Branches(own, r, path, ENTRIES) || q == p {
      if q in Below(own, r, path) {
        assert IsTable(own, q);
        if own[q].path == path {
          assert IsTable(own, p);
          assert q == p;
        }
      }
    }
  }

  /** An empty entry has no table page below it. */
  lemma NoneBelow(mem: Mem, own: Owner, r: int, path: Path, i: int)
    requires Tree(mem, own) && IsRoot(own, r) && Proper(path) && !path.Low? && Index(i)
    requires At(mem, r, Child(path, i)) == 0
    ensures Below(own, r, Child(path, i)) == {}
  {
    hide Valid, Flags, Ppn;
    ValidBit();
    forall q | q in own && TableUnder(own[q], r, Child(path, i)) ensures false {
      NothingAt(mem, own, r, path, i, q);
    }
  }

  lemma NothingAt(mem: Mem, own: Owner, r: int, path: Path, i: int, q: int)
    requires Tree(mem, own) && IsRoot(own, r) && Proper(path) && !path.Low? && Index(i)
    requires At(mem, r, Child(path, i)) == 0
    requires IsTable(own, q) && own[q].root == r
    ensures !Under(own[q].path, Child(path, i))
  {
    hide Valid, Flags, Ppn;
    ValidBit();
    assert At(mem, r, own[q].path) == q;
  }

  /** What freewalk finds in entry i of a table of a tree with no mappings left. */
  lemma EntryOfBare(mem: Mem, own: Owner, r: int, path: Path, i: int, p: int)
    requires Tree(mem, own) && Bare(mem, r) && TableAt(own, p, r, path) && IsRoot(own, r) && Proper(path) && Index(i)
    ensures
      var w := Entry(mem, p, i);
      && (path.Low? ==> !Valid(w))
      && (!path.Low? && Valid(w) ==> !Readable(w) && !Writable(w) && !Executable(w))
      && (!path.Low? && Valid(w) ==> TableAt(own, Ppn(w), r, Child(path, i)) && Proper(Child(path, i)))
      && (!path.Low? && !Valid(w) ==> Below(own, r, Child(path, i)) == {})
  {
    hide Valid, Flags, Ppn, Readable, Writable, Executable, Below;
    assert IsTable(own, p);
    assert At(mem, r, path) == p;
    var w := Entry(mem, p, i);
    if path.Low? {
      JoinParts(path.j2, path.i1, i);
      assert !Valid(Lookup(mem, r, Join(path.j2, path.i1, i)));
    } else if Valid(w) {
      TableEntryDescends(w);
      PageNotZero(mem, own, p, i);
      TablePath(mem, own, r, Child(path, i));
    } else {
      NoneBelow(mem, own, r, path, i);
    }
  }

  // ---- whole address spaces come and go

  /** No page belongs to a root that does not exist. */
  lemma NoneOf(s: Ram, free: seq<int>, own: Owner, r: int)
    requires Sound(s, free, own) && !IsRoot(own, r)
    ensures Without(own, r) == own
  {
    hide Heap, At, Lookup, Valid, Readable, Ppn, Flags;
    forall p | p in own ensures !Of(own[p], r) {
      if own[p].User? {
        assert UserPage(own, p, own[p].root, own[p].vpn);
      } else if own[p].Table? {
        assert IsTable(own, p);
      }
    }
    var rest := Without(own, r);
    assert forall p :: p in rest <==> p in own;
    assert rest == own;
  }

  /** With nothing mapped, the pages of r are its table pages. */
  lemma OnlyTables(s: Ram, own: Owner, r: int)
    requires Leaves(s.mem, own) && IsRoot(own, r) && Bare(s.mem, r)
    ensures own - Below(own, r, Top) == Without(own, r)
  {
    hide Lookup, Valid, Readable, Ppn, Leaves;
    NotUsedAtAll(s, own, r);
    var a, b := own - Below(own, r, Top), Without(own, r);
    assert forall p :: p in a <==> p in b;
    assert a == b;
  }

  lemma NotUsedAtAll(s: Ram, own: Owner, r: int)
    requires Leaves(s.mem, own) && IsRoot(own, r) && Bare(s.mem, r)
    ensures forall p :: p in own ==> !(own[p].User? && own[p].root == r)
  {
    hide Lookup, Valid, Readable, Ppn;
    forall p | p in own && own[p].User? ensures own[p].root != r {
      assert UserPage(own, p, own[p].root, own[p].vpn);
    }
  }

  /** A tree whose table pages were all freed is gone, and the rest is as it was. */
  lemma FreedTreeSound(s: Ram, free: seq<int>, own: Owner, s': Ram, free': seq<int>, r: int)
    requires Sound(s, free, own) && IsRoot(own, r) && Bare(s.mem, r)
    requires Heap(s', free', Without(own, r)) && s'.first == s.first
    requires forall p :: p in s.mem && p !in Below(own, r, Top) ==> p in s'.mem && s'.mem[p] == s.mem[p]
    ensures Sound(s', free', Without(own, r)) && Apart(s, own, s', Without(own, r), r)
  {
    hide Heap, Tree, Leaves, Bare;
    HeapPages(s', free', Without(own, r));
    forall p | p in Without(own, r) && p in s.mem ensures p in s'.mem && s'.mem[p] == s.mem[p] {
      assert p !in Below(own, r, Top);
    }
    DropTree(s.mem, own, s'.mem, r);
    SameRest(own, Without(own, r), r);
  }

  lemma UnmappedAll(s: Ram, own: Owner, s': Ram, own': Owner, r: int, n: int)
    requires Space(s.mem, r, n, false, false) && UnmapRange(s, own, s', own', r, 0, n, true) && IsRoot(own, r)
    ensures Bare(s'.mem, r)
  {
    hide Lookup, SameData;
    ValidBit();
    forall u | 0 <= u < NVPN ensures !Valid(Lookup(s'.mem, r, u)) {
      assert Lookup(s'.mem, r, u) == if u < n then 0 else Lookup(s.mem, r, u);
    }
  }

  /** Mapping one of the fixed pages. */
  lemma FixedMapped(s: Ram, own: Owner, s': Ram, own': Owner, r: int, v: int, p: nat, flags: nat,
          n: int, tf: bool, tr: bool)
    requires MapRange(s, own, s', own', r, v, p, flags, 1) && (v == TRAPFRAME || v == TRAMPOLINE) && IsRoot(own, r)
    requires Space(s.mem, r, n, tf, tr) && flags < 1024 && Valid(flags)
    ensures Space(s'.mem, r, n, tf || v == TRAPFRAME, tr || v == TRAMPOLINE) && Apart(s, own, s', own', r)
    ensures Lookup(s'.mem, r, v) == Mk(p, flags)
    ensures forall u :: 0 <= u < NVPN && u != v ==> Lookup(s'.mem, r, u) == Lookup(s.mem, r, u)
  {
    hide Lookup, Mk, Valid;
    MkParts(p, flags);
    assert Lookup(s'.mem, r, v) == Mk(p, flags);
    SameRest(own, own', r);
  }

  lemma FixedUnmapped(s: Ram, own: Owner, s': Ram, own': Owner, r: int, v: int, n: int, tf: bool,
          tr: bool)
    requires UnmapRange(s, own, s', own', r, v, 1, false) && (v == TRAPFRAME || v == TRAMPOLINE) && IsRoot(own, r)
    requires Leaves(s.mem, own) && Space(s.mem, r, n, tf, tr)
    ensures Space(s'.mem, r, n, tf && v != TRAPFRAME, tr && v != TRAMPOLINE) && Apart(s, own, s', own', r)
  {
    hide Lookup, Valid, Readable, Ppn;
    ValidBit();
    forall p | p in own ensures !UserIn(own[p], r, v, 1) {
      if own[p].User? {
        assert UserPage(own, p, own[p].root, own[p].vpn);
      }
    }
    UnmapApart(s, own, s', own', r, v, 1, false);
    forall u | 0 <= u < NVPN
      ensures Valid(Lookup(s'.mem, r, u)) <==>
                u < n || (tf && v != TRAPFRAME && u == TRAPFRAME) || (tr && v != TRAMPOLINE && u == TRAMPOLINE)
    {
      assert Lookup(s'.mem, r, u) == if u == v then 0 else Lookup(s.mem, r, u);
    }
  }
}
