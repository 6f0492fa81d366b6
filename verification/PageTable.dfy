/**
 Sv39 page tables as kernel/vm.c lays them out in physical pages. Pages are named by their
 page number; a page holds 512 words. `Owner` records what every page in use is for, so that
 no page-table page is shared and none is also a leaf.
 */
module PageTable {

  const ENTRIES: int := 512
  /** Page numbers a virtual address can have, and how many of them lie below MAXVA. */
  const NVPN: int := 0x800_0000
  const MAXVPN: int := 0x400_0000
  const TRAMPOLINE: int := MAXVPN - 1
  const TRAPFRAME: int := MAXVPN - 2

  type Page = seq<nat>
  type Mem = map<int, Page>

  // ---- page-table entries: page number above ten flag bits

  const PTE_V: nat := 1

  function Mk(ppn: nat, flags: nat): nat { ppn * 1024 + flags }
  function Ppn(w: nat): nat { w / 1024 }
  function Flags(w: nat): nat { w % 1024 }
  predicate Valid(w: nat) { w % 2 == 1 }
  predicate Readable(w: nat) { w / 2 % 2 == 1 }
  predicate Writable(w: nat) { w / 4 % 2 == 1 }
  predicate Executable(w: nat) { w / 8 % 2 == 1 }
  predicate UserBit(w: nat) { w / 16 % 2 == 1 }

  /** perm | PTE_V */
  function OrValid(perm: nat): nat { if perm % 2 == 0 then perm + PTE_V else perm }

  lemma MkParts(ppn: nat, flags: nat)
    requires flags < 1024
    ensures Ppn(Mk(ppn, flags)) == ppn && Flags(Mk(ppn, flags)) == flags
    ensures Valid(Mk(ppn, flags)) <==> Valid(flags)
    ensures Readable(Mk(ppn, flags)) <==> Readable(flags)
    ensures UserBit(Mk(ppn, flags)) <==> UserBit(flags)
  {
    hide *;
    MkPpn(ppn, flags);
    MkValid(ppn, flags);
    MkReadable(ppn, flags);
    MkUser(ppn, flags);
  }

  lemma MkPpn(ppn: nat, flags: nat)
    requires flags < 1024
    ensures Ppn(Mk(ppn, flags)) == ppn && Flags(Mk(ppn, flags)) == flags
  {
  }

  lemma MkValid(ppn: nat, flags: nat)
    ensures Valid(Mk(ppn, flags)) <==> Valid(flags)
  {
  }

  lemma MkReadable(ppn: nat, flags: nat)
    ensures Readable(Mk(ppn, flags)) <==> Readable(flags)
  {
    assert Mk(ppn, flags) / 2 == ppn * 512 + flags / 2;
  }

  lemma MkUser(ppn: nat, flags: nat)
    ensures UserBit(Mk(ppn, flags)) <==> UserBit(flags)
  {
    assert Mk(ppn, flags) / 16 == ppn * 64 + flags / 16;
  }

  // ---- the three levels

  /** Which table page of a tree: the top, the one for a level-2 index, or for two indices. */
  datatype Path = Top | Mid(i2: int) | Low(j2: int, i1: int)

  predicate Index(i: int) { 0 <= i < ENTRIES }

  predicate Proper(path: Path) {
    match path
    case Top => true
    case Mid(i2) => Index(i2)
    case Low(i2, i1) => Index(i2) && Index(i1)
  }

  function Child(path: Path, i: int): Path
    requires !path.Low?
  {
    if path.Top? then Mid(i) else Low(path.i2, i)
  }

  function Px2(vpn: int): int { vpn / 0x4_0000 }
  function Px1(vpn: int): int { vpn / 512 % 512 }
  function Px0(vpn: int): int { vpn % 512 }
  function Join(i2: int, i1: int, i0: int): int { i2 * 0x4_0000 + i1 * 512 + i0 }
  function LowOf(vpn: int): Path { Low(Px2(vpn), Px1(vpn)) }

  lemma JoinParts(i2: int, i1: int, i0: int)
    requires Index(i2) && Index(i1) && Index(i0)
    ensures 0 <= Join(i2, i1, i0) < NVPN
    ensures LowOf(Join(i2, i1, i0)) == Low(i2, i1) && Px0(Join(i2, i1, i0)) == i0
  {
    hide Px0, Px1, Px2;
    JoinHigh(i2, i1 * 512 + i0);
    JoinLow(i2, i1, i0);
  }

  lemma JoinHigh(i2: int, rest: int)
    requires 0 <= rest < 0x4_0000
    ensures Px2(i2 * 0x4_0000 + rest) == i2
  {
  }

  lemma JoinLow(i2: int, i1: int, i0: int)
    requires Index(i1) && Index(i0)
    ensures Px1(Join(i2, i1, i0)) == i1 && Px0(Join(i2, i1, i0)) == i0
  {
    assert Join(i2, i1, i0) == 512 * (i2 * 512 + i1) + i0;
    assert Join(i2, i1, i0) / 512 == i2 * 512 + i1;
  }

  lemma PartsJoin(vpn: int)
    requires 0 <= vpn < NVPN
    ensures Index(Px2(vpn)) && Index(Px1(vpn)) && Index(Px0(vpn))
    ensures Join(Px2(vpn), Px1(vpn), Px0(vpn)) == vpn
  {
  }

  /** Word i of page p; page number 0 stands for no page. */
  function Entry(mem: Mem, p: int, i: int): nat {
    if p in mem && 0 <= i < |mem[p]| then mem[p][i] else 0
  }

  function Target(w: nat): int { if Valid(w) then Ppn(w) else 0 }

  /** The table page at a path below root r, or 0. */
  function At(mem: Mem, r: int, path: Path): int {
    match path
    case Top => r
    case Mid(i2) => Target(Entry(mem, r, i2))
    case Low(i2, i1) => Target(Entry(mem, Target(Entry(mem, r, i2)), i1))
  }

  /** The entry a walk ends at, 0 if a table page on the way is missing. */
  function Lookup(mem: Mem, r: int, vpn: int): nat {
    Entry(mem, At(mem, r, LowOf(vpn)), Px0(vpn))
  }

  /** What a page table means: its valid entries by virtual page number. */
  function Mapping(mem: Mem, r: int): map<int, nat> {
    map v | 0 <= v < NVPN && Valid(Lookup(mem, r, v)) :: Lookup(mem, r, v)
  }

  // ---- what each page in use is for

  datatype Use =
    | Table(root: int, path: Path)
    | User(root: int, vpn: int)
    | Held

  type Owner = map<int, Use>

  predicate IsRoot(own: Owner, r: int) { r in own && own[r] == Table(r, Top) }

  predicate IsTable(own: Owner, p: int) { p in own && own[p].Table? }

  /** The page at path of root r is p, and is used for that only. */
  predicate TableAt(own: Owner, p: int, r: int, path: Path) { p in own && own[p] == Table(r, path) }

  /** Table pages are exactly the pages reached by walking, each by one path of one tree. */
  ghost predicate Tree(mem: Mem, own: Owner) {
    && 0 !in mem
    && (forall p :: p in own ==> p in mem && |mem[p]| == ENTRIES)
    && (forall p :: IsTable(own, p) ==>
          Proper(own[p].path) && IsRoot(own, own[p].root) && At(mem, own[p].root, own[p].path) == p)
    && (forall r, path :: IsRoot(own, r) && Proper(path) && At(mem, r, path) != 0 ==>
          TableAt(own, At(mem, r, path), r, path))
    && (forall p, i :: IsTable(own, p) && !own[p].path.Low? && Valid(Entry(mem, p, i)) ==>
          Flags(Entry(mem, p, i)) == PTE_V && Ppn(Entry(mem, p, i)) != 0)
  }

  predicate UserPage(own: Owner, p: int, r: int, v: int) { p in own && own[p] == User(r, v) }

  /** User pages are exactly the leaves below the trapframe, each mapped once; other entries are 0. */
  ghost predicate Leaves(mem: Mem, own: Owner) {
    && (forall r, v :: IsRoot(own, r) && 0 <= v < NVPN && Valid(Lookup(mem, r, v)) ==>
          && Readable(Lookup(mem, r, v))
          && (v == TRAPFRAME || v == TRAMPOLINE || (v < TRAPFRAME && UserPage(own, Ppn(Lookup(mem, r, v)), r, v))))
    && (forall r, v :: IsRoot(own, r) && 0 <= v < NVPN && !Valid(Lookup(mem, r, v)) ==> Lookup(mem, r, v) == 0)
    && (forall p, r, v :: UserPage(own, p, r, v) ==>
          IsRoot(own, r) && 0 <= v < TRAPFRAME && Valid(Lookup(mem, r, v)) && Ppn(Lookup(mem, r, v)) == p)
  }

  // ---- frames

  /** The upper levels of r's tree are untouched. */
  ghost predicate SameUpper(mem: Mem, mem': Mem, own: Owner, r: int) {
    forall p :: p in mem && IsTable(own, p) && own[p].root == r && !own[p].path.Low? ==> p in mem' && mem'[p] == mem[p]
  }

  lemma AtFrame(mem: Mem, mem': Mem, own: Owner, r: int, path: Path)
    requires Tree(mem, own) && IsRoot(own, r) && Proper(path) && SameUpper(mem, mem', own, r) && 0 !in mem'
    ensures At(mem', r, path) == At(mem, r, path)
  {
    hide Valid, Ppn;
    if path.Low? {
      assert TableAt(own, r, r, Top);
      var p := At(mem, r, Mid(path.j2));
      assert p != 0 ==> TableAt(own, p, r, Mid(path.j2));
    }
  }

  lemma LookupFrame(mem: Mem, mem': Mem, own: Owner, r: int, v: int)
    requires Tree(mem, own) && IsRoot(own, r) && 0 <= v < NVPN && 0 !in mem'
    requires forall p :: p in mem && IsTable(own, p) && own[p].root == r ==> p in mem' && mem'[p] == mem[p]
    ensures Lookup(mem', r, v) == Lookup(mem, r, v)
  {
    hide At, Px1, Px2, Px0;
    PartsJoin(v);
    AtFrame(mem, mem', own, r, LowOf(v));
    assert At(mem, r, LowOf(v)) != 0 ==> TableAt(own, At(mem, r, LowOf(v)), r, LowOf(v));
  }

  // ---- adding a table page

  predicate Zeroed(page: Page) {
    |page| == ENTRIES && forall i :: 0 <= i < |page| ==> page[i] == 0
  }

  function Store(mem: Mem, p: int, i: int, w: nat): Mem
    requires p in mem && 0 <= i < |mem[p]|
  {
    var page: Page := mem[p][i := w];
    mem[p := page]
  }

  lemma StoreEntry(mem: Mem, q: int, i: int, w: nat, p: int, j: int)
    requires q in mem && 0 <= i < |mem[q]|
    ensures Entry(Store(mem, q, i, w), p, j) == if p == q && j == i then w else Entry(mem, p, j)
  {
  }

  /** A zeroed page p hung under entry i of the table at `path`, which was empty. */
  ghost predicate CanHang(mem: Mem, own: Owner, r: int, path: Path, i: int, p: int) {
    && Tree(mem, own) && IsRoot(own, r) && Proper(path) && !path.Low? && Index(i)
    && At(mem, r, path) != 0 && !Valid(Entry(mem, At(mem, r, path), i))
    && p in own && own[p] == Held && Zeroed(mem[p]) && p > 0
  }

  function Hang(mem: Mem, r: int, path: Path, i: int, p: int): Mem
    requires p > 0 && At(mem, r, path) in mem && 0 <= i < |mem[At(mem, r, path)]|
  {
    Store(mem, At(mem, r, path), i, Mk(p, PTE_V))
  }

  lemma HangAt(mem: Mem, own: Owner, r: int, path: Path, i: int, p: int, r': int, path': Path)
    requires CanHang(mem, own, r, path, i, p) && IsRoot(own, r') && Proper(path')
    ensures TableAt(own, At(mem, r, path), r, path)
    ensures At(mem, r, path) in mem && |mem[At(mem, r, path)]| == ENTRIES
    ensures At(Hang(mem, r, path, i, p), r', path') == if r' == r && path' == Child(path, i) then p
            else At(mem, r', path')
  {
    hide Valid, Ppn, Flags, Mk;
    var q := At(mem, r, path);
    assert TableAt(own, q, r, path);
    var w := Mk(p, PTE_V);
    var mem' := Hang(mem, r, path, i, p);
    MkParts(p, PTE_V);
    ValidBit();
    assert TableAt(own, r', r', Top);
    match path'
    case Top =>
    case Mid(i2) => StoreEntry(mem, q, i, w, r', i2);
    case Low(i2, i1) =>
      var m, m' := At(mem, r', Mid(i2)), At(mem', r', Mid(i2));
      StoreEntry(mem, q, i, w, r', i2);
      StoreEntry(mem, q, i, w, m', i1);
      assert m != 0 ==> TableAt(own, m, r', Mid(i2));
      assert m' == p ==> Entry(mem, m', i1) == 0;
  }

  lemma ValidBit()
    ensures Valid(PTE_V) && !Valid(0)
  {
  }

  lemma HangTree(mem: Mem, own: Owner, r: int, path: Path, i: int, p: int)
    requires CanHang(mem, own, r, path, i, p)
    ensures At(mem, r, path) in mem && |mem[At(mem, r, path)]| == ENTRIES
    ensures Tree(Hang(mem, r, path, i, p), own[p := Table(r, Child(path, i))])
  {
    hide At, Valid, Flags, Ppn, Mk;
    var q := At(mem, r, path);
    var w := Mk(p, PTE_V);
    HangAt(mem, own, r, path, i, p, r, path);
    var mem', own' := Hang(mem, r, path, i, p), own[p := Table(r, Child(path, i))];
    MkParts(p, PTE_V);
    ValidBit();
    forall x ensures IsRoot(own', x) <==> IsRoot(own, x) {}
    forall x | IsTable(own', x)
      ensures Proper(own'[x].path) && IsRoot(own', own'[x].root) && At(mem', own'[x].root, own'[x].path) == x
    {
      HangAt(mem, own, r, path, i, p, own'[x].root, own'[x].path);
      if x != p {
        assert IsTable(own, x);
        NotTwice(mem, own, r, path, i, p, x);
      }
    }
    forall r', path' | IsRoot(own', r') && Proper(path') && At(mem', r', path') != 0
      ensures TableAt(own', At(mem', r', path'), r', path')
    {
      HangAt(mem, own, r, path, i, p, r', path');
      assert (r' == r && path' == Child(path, i)) || TableAt(own, At(mem, r', path'), r', path');
    }
    forall x, j | IsTable(own', x) && !own'[x].path.Low? && Valid(Entry(mem', x, j))
      ensures Flags(Entry(mem', x, j)) == PTE_V && Ppn(Entry(mem', x, j)) != 0
    {
      StoreEntry(mem, q, i, w, x, j);
      assert x != p ==> IsTable(own, x);
    }
  }

  /** No page is at the path a new table page is about to take. */
  lemma NotTwice(mem: Mem, own: Owner, r: int, path: Path, i: int, p: int, x: int)
    requires CanHang(mem, own, r, path, i, p) && IsTable(own, x)
    ensures own[x] != Table(r, Child(path, i))
  {
    hide At;
    EmptyBelow(mem, own, r, path, i, p);
    NoPageZero(mem, own);
  }

  lemma HangLookup(mem: Mem, own: Owner, r: int, path: Path, i: int, p: int, r': int, v: int)
    requires CanHang(mem, own, r, path, i, p) && IsRoot(own, r') && 0 <= v < NVPN
    ensures At(mem, r, path) in mem && |mem[At(mem, r, path)]| == ENTRIES
    ensures Lookup(Hang(mem, r, path, i, p), r', v) == Lookup(mem, r', v)
  {
    hide Valid, Ppn, Flags, Px0, Px1, Px2, At;
    PartsJoin(v);
    var q := At(mem, r, path);
    HangAt(mem, own, r, path, i, p, r', LowOf(v));
    var x, x' := At(mem, r', LowOf(v)), At(Hang(mem, r, path, i, p), r', LowOf(v));
    StoreEntry(mem, q, i, Mk(p, PTE_V), x', Px0(v));
    assert x != 0 ==> TableAt(own, x, r', LowOf(v));
    if r' == r && LowOf(v) == Child(path, i) {
      EmptyBelow(mem, own, r, path, i, p);
    }
  }

  lemma EmptyBelow(mem: Mem, own: Owner, r: int, path: Path, i: int, p: int)
    requires CanHang(mem, own, r, path, i, p)
    ensures At(mem, r, Child(path, i)) == 0
  {
    hide Valid, Ppn, Flags;
  }

  // ---- storing a leaf entry

  function SetLeaf(mem: Mem, r: int, v: int, w: nat): Mem
    requires At(mem, r, LowOf(v)) in mem && |mem[At(mem, r, LowOf(v))]| == ENTRIES
  {
    Store(mem, At(mem, r, LowOf(v)), Px0(v), w)
  }

  /** The table page for v is there. */
  ghost predicate Walked(mem: Mem, own: Owner, r: int, v: int) {
    Tree(mem, own) && IsRoot(own, r) && 0 <= v < NVPN && At(mem, r, LowOf(v)) != 0
  }

  lemma WalkedPage(mem: Mem, own: Owner, r: int, v: int)
    requires Walked(mem, own, r, v)
    ensures Proper(LowOf(v)) && Index(Px0(v)) && TableAt(own, At(mem, r, LowOf(v)), r, LowOf(v))
    ensures At(mem, r, LowOf(v)) in mem && |mem[At(mem, r, LowOf(v))]| == ENTRIES
  {
    hide At, Px0, Px1, Px2;
    PartsJoin(v);
  }

  lemma LeafAt(mem: Mem, own: Owner, r: int, v: int, w: nat, r': int, path: Path)
    requires Walked(mem, own, r, v) && IsRoot(own, r') && Proper(path)
    ensures At(mem, r, LowOf(v)) in mem && |mem[At(mem, r, LowOf(v))]| == ENTRIES
    ensures At(SetLeaf(mem, r, v, w), r', path) == At(mem, r', path)
  {
    hide At, Px0, Px1, Px2, Tree;
    WalkedPage(mem, own, r, v);
    NoPageZero(mem, own);
    AtFrame(mem, SetLeaf(mem, r, v, w), own, r', path);
  }

  lemma NoPageZero(mem: Mem, own: Owner)
    requires Tree(mem, own)
    ensures 0 !in mem && 0 !in own
  {
  }

  lemma LeafTree(mem: Mem, own: Owner, r: int, v: int, w: nat)
    requires Walked(mem, own, r, v)
    ensures At(mem, r, LowOf(v)) in mem && |mem[At(mem, r, LowOf(v))]| == ENTRIES
    ensures Tree(SetLeaf(mem, r, v, w), own)
  {
    hide At, Px0, Px1, Px2, Valid, Flags;
    WalkedPage(mem, own, r, v);
    var q, mem' := At(mem, r, LowOf(v)), SetLeaf(mem, r, v, w);
    forall x | IsTable(own, x) ensures At(mem', own[x].root, own[x].path) == x {
      LeafAt(mem, own, r, v, w, own[x].root, own[x].path);
    }
    forall r', path | IsRoot(own, r') && Proper(path) && At(mem', r', path) != 0
      ensures TableAt(own, At(mem', r', path), r', path)
    {
      LeafAt(mem, own, r, v, w, r', path);
    }
    forall x, j | IsTable(own, x) && !own[x].path.Low? && Valid(Entry(mem', x, j))
      ensures Flags(Entry(mem', x, j)) == PTE_V && Ppn(Entry(mem', x, j)) != 0
    {
      StoreEntry(mem, q, Px0(v), w, x, j);
    }
  }

  /** One page changes; no other page of this or any other tree does. */
  lemma LeafLookup(mem: Mem, own: Owner, r: int, v: int, w: nat, r': int, v': int)
    requires Walked(mem, own, r, v) && IsRoot(own, r') && 0 <= v' < NVPN
    ensures At(mem, r, LowOf(v)) in mem && |mem[At(mem, r, LowOf(v))]| == ENTRIES
    ensures Lookup(SetLeaf(mem, r, v, w), r', v') == if r' == r && v' == v then w else Lookup(mem, r', v')
  {
    hide At, Px0, Px1, Px2, Valid, Flags, Tree;
    WalkedPage(mem, own, r, v);
    PartsJoin(v);
    PartsJoin(v');
    LeafAt(mem, own, r, v, w, r', LowOf(v'));
    var q, x := At(mem, r, LowOf(v)), At(mem, r', LowOf(v'));
    StoreEntry(mem, q, Px0(v), w, x, Px0(v'));
    if x == q {
      TablePath(mem, own, r', LowOf(v'));
    }
  }

  lemma TablePath(mem: Mem, own: Owner, r: int, path: Path)
    requires Tree(mem, own) && IsRoot(own, r) && Proper(path) && At(mem, r, path) != 0
    ensures TableAt(own, At(mem, r, path), r, path)
  {
  }

  // ---- leaves after each change

  lemma HangLeaves(mem: Mem, own: Owner, r: int, path: Path, i: int, p: int)
    requires CanHang(mem, own, r, path, i, p) && Leaves(mem, own)
    ensures At(mem, r, path) in mem && |mem[At(mem, r, path)]| == ENTRIES
    ensures Leaves(Hang(mem, r, path, i, p), own[p := Table(r, Child(path, i))])
  {
    hide Lookup, Valid, Ppn, Readable, At;
    HangAt(mem, own, r, path, i, p, r, path);
    var mem', own' := Hang(mem, r, path, i, p), own[p := Table(r, Child(path, i))];
    forall x ensures IsRoot(own', x) <==> IsRoot(own, x) {}
    forall x, y, v ensures UserPage(own', x, y, v) <==> UserPage(own, x, y, v) {}
    forall r', v | IsRoot(own, r') && 0 <= v < NVPN ensures Lookup(mem', r', v) == Lookup(mem, r', v) {
      HangLookup(mem, own, r, path, i, p, r', v);
    }
  }

  /** A held page becomes user page v of r. */
  lemma MapUserLeaves(mem: Mem, own: Owner, r: int, v: int, w: nat)
    requires Walked(mem, own, r, v) && Leaves(mem, own) && v < TRAPFRAME && !Valid(Lookup(mem, r, v))
    requires Valid(w) && Readable(w) && Ppn(w) in own && own[Ppn(w)] == Held
    ensures At(mem, r, LowOf(v)) in mem && |mem[At(mem, r, LowOf(v))]| == ENTRIES
    ensures Leaves(SetLeaf(mem, r, v, w), own[Ppn(w) := User(r, v)])
  {
    hide Lookup, Valid, Ppn, Readable, At, Tree, SetLeaf, LowOf;
    WalkedPage(mem, own, r, v);
    var mem', own' := SetLeaf(mem, r, v, w), own[Ppn(w) := User(r, v)];
    forall x ensures IsRoot(own', x) <==> IsRoot(own, x) {}
    forall x, y, u ensures UserPage(own', x, y, u) <==> UserPage(own, x, y, u) || (x == Ppn(w) && y == r && u == v) {}
    forall r', v' | IsRoot(own, r') && 0 <= v' < NVPN
      ensures Lookup(mem', r', v') == if r' == r && v' == v then w else Lookup(mem, r', v')
    {
      LeafLookup(mem, own, r, v, w, r', v');
    }
  }

  /** Any change to one of the two fixed mappings, which own no page. */
  lemma FixedLeaves(mem: Mem, own: Owner, r: int, v: int, w: nat)
    requires Walked(mem, own, r, v) && Leaves(mem, own) && (v == TRAPFRAME || v == TRAMPOLINE)
    requires if Valid(w) then Readable(w) else w == 0
    ensures At(mem, r, LowOf(v)) in mem && |mem[At(mem, r, LowOf(v))]| == ENTRIES
    ensures Leaves(SetLeaf(mem, r, v, w), own)
  {
    hide Lookup, Valid, Ppn, Readable, At, Tree, SetLeaf, LowOf;
    WalkedPage(mem, own, r, v);
    var mem' := SetLeaf(mem, r, v, w);
    forall r', v' | IsRoot(own, r') && 0 <= v' < NVPN
      ensures Lookup(mem', r', v') == if r' == r && v' == v then w else Lookup(mem, r', v')
    {
      LeafLookup(mem, own, r, v, w, r', v');
    }
  }

  /** User page v of r gives up its page, which the caller then holds. */
  lemma UnmapLeaves(mem: Mem, own: Owner, r: int, v: int)
    requires Walked(mem, own, r, v) && Leaves(mem, own) && v < TRAPFRAME && Valid(Lookup(mem, r, v))
    ensures At(mem, r, LowOf(v)) in mem && |mem[At(mem, r, LowOf(v))]| == ENTRIES
    ensures UserPage(own, Ppn(Lookup(mem, r, v)), r, v)
    ensures Leaves(SetLeaf(mem, r, v, 0), own[Ppn(Lookup(mem, r, v)) := Held])
  {
    hide Lookup, Valid, Ppn, Readable, At, Tree, SetLeaf, LowOf;
    WalkedPage(mem, own, r, v);
    ValidBit();
    var p := Ppn(Lookup(mem, r, v));
    var mem', own' := SetLeaf(mem, r, v, 0), own[p := Held];
    assert UserPage(own, p, r, v);
    forall x ensures IsRoot(own', x) <==> IsRoot(own, x) {}
    forall x, y, u ensures UserPage(own', x, y, u) <==> UserPage(own, x, y, u) && x != p {}
    forall r', v' | IsRoot(own, r') && 0 <= v' < NVPN
      ensures Lookup(mem', r', v') == if r' == r && v' == v then 0 else Lookup(mem, r', v')
    {
      LeafLookup(mem, own, r, v, 0, r', v');
    }
    forall r', v' | IsRoot(own', r') && 0 <= v' < NVPN && Valid(Lookup(mem', r', v'))
      ensures v' == TRAPFRAME || v' == TRAMPOLINE
              || (v' < TRAPFRAME && UserPage(own', Ppn(Lookup(mem', r', v')), r', v'))
    {
      assert Valid(Lookup(mem, r', v'));
    }
  }

  /** New flags for a user page. */
  lemma ReflagLeaves(mem: Mem, own: Owner, r: int, v: int, w: nat)
    requires Walked(mem, own, r, v) && Leaves(mem, own) && v < TRAPFRAME && Valid(Lookup(mem, r, v))
    requires Valid(w) && Readable(w) && Ppn(w) == Ppn(Lookup(mem, r, v))
    ensures At(mem, r, LowOf(v)) in mem && |mem[At(mem, r, LowOf(v))]| == ENTRIES
    ensures Leaves(SetLeaf(mem, r, v, w), own)
  {
    hide Lookup, Valid, Ppn, Readable, At, Tree, SetLeaf, LowOf;
    WalkedPage(mem, own, r, v);
    var mem' := SetLeaf(mem, r, v, w);
    forall r', v' | IsRoot(own, r') && 0 <= v' < NVPN
      ensures Lookup(mem', r', v') == if r' == r && v' == v then w else Lookup(mem, r', v')
    {
      LeafLookup(mem, own, r, v, w, r', v');
    }
  }

  // ---- agreement with the hardware

  datatype Outcome = Fault | Physical(pa: nat)

  /**
   Virtual address translation, section 4.3.2 of the RISC-V Privileged Architecture with the
   three levels of section 4.4: an entry that is invalid or writable but not readable faults,
   a readable or executable one is a leaf at any level, and a superpage must be aligned.
   */
  function Translate(mem: Mem, table: int, va: nat, level: nat): Outcome
    requires level <= 2
    decreases level
  {
    var w := Entry(mem, table, Field(va, level));
    if !Valid(w) || (!Readable(w) && Writable(w)) then Fault
    else if Readable(w) || Executable(w) then
      if Ppn(w) % Span(level) != 0 then Fault
      else Physical(Ppn(w) * 4096 + va % (4096 * Span(level)))
    else if level == 0 then Fault
    else Translate(mem, Ppn(w), va, level - 1)
  }

  /** Pages spanned by one entry of a level. */
  function Span(level: nat): nat
    requires level <= 2
  {
    if level == 0 then 1 else if level == 1 then 512 else 512 * 512
  }

  /** The nine-bit field of a virtual address for a level. */
  function Field(va: nat, level: nat): nat
    requires level <= 2
  {
    va / (4096 * Span(level)) % 512
  }

  lemma FieldsAreIndices(va: nat)
    requires va < MAXVPN * 4096
    ensures
      var v := va / 4096;
      0 <= v < MAXVPN && Field(va, 2) == Px2(v) && Field(va, 1) == Px1(v) && Field(va, 0) == Px0(v)
  {
    assert va / (4096 * 512) == va / 4096 / 512;
    assert va / (4096 * 512 * 512) == va / 4096 / (512 * 512);
  }

  /** A table entry carries no permission, so the hardware descends through it. */
  lemma TableEntryDescends(w: nat)
    requires Flags(w) == PTE_V
    ensures !Readable(w) && !Writable(w) && !Executable(w)
  {
    assert w == w / 1024 * 1024 + 1;
    assert w / 2 == w / 1024 * 512;
    assert w / 4 == w / 1024 * 256;
    assert w / 8 == w / 1024 * 128;
  }

  /** One step of the hardware's descent lands on the page the walk finds. */
  lemma Descends(mem: Mem, own: Owner, r: int, path: Path, va: nat, level: nat)
    requires Tree(mem, own) && IsRoot(own, r) && Proper(path) && 1 <= level <= 2
    requires path == (if level == 2 then Top else Mid(Field(va, 2))) && At(mem, r, path) != 0
    ensures
      var child := Child(path, Field(va, level));
      if At(mem, r, child) == 0 then Translate(mem, At(mem, r, path), va, level) == Fault
      else Translate(mem, At(mem, r, path), va, level) == Translate(mem, At(mem, r, child), va, level - 1)
  {
    hide Valid, Readable, Writable, Executable, Flags, Ppn, Field;
    var p := At(mem, r, path);
    TablePath(mem, own, r, path);
    var w := Entry(mem, p, Field(va, level));
    if Valid(w) {
      TableEntryDescends(w);
      PageNotZero(mem, own, p, Field(va, level));
    }
  }

  /** No table entry points at page 0. */
  lemma PageNotZero(mem: Mem, own: Owner, p: int, i: int)
    requires Tree(mem, own) && IsTable(own, p) && !own[p].path.Low? && Valid(Entry(mem, p, i))
    ensures Ppn(Entry(mem, p, i)) != 0
  {
  }

  /** For every address below MAXVA the hardware finds exactly what a walk finds. */
  lemma WalkAgreesWithSv39(mem: Mem, own: Owner, r: int, va: nat)
    requires Tree(mem, own) && Leaves(mem, own) && IsRoot(own, r) && va < MAXVPN * 4096
    ensures
      var m := Mapping(mem, r);
      Translate(mem, r, va, 2) == if va / 4096 in m then Physical(Ppn(m[va / 4096]) * 4096 + va % 4096) else Fault
  {
    hide At, Valid, Readable, Writable, Executable, Flags, Ppn, Px0, Px1, Px2, Field, Tree;
    FieldsAreIndices(va);
    var v := va / 4096;
    PartsJoin(v);
    NoPageZero(mem, own);
    RootAt(mem, r);
    ValidBit();
    Descends(mem, own, r, Top, va, 2);
    if At(mem, r, Mid(Px2(v))) == 0 {
      NothingBelow(mem, own, r, v);
    } else {
      Descends(mem, own, r, Mid(Px2(v)), va, 1);
    }
  }

  lemma RootAt(mem: Mem, r: int)
    ensures At(mem, r, Top) == r
  {
  }

  lemma NothingBelow(mem: Mem, own: Owner, r: int, v: int)
    requires 0 !in mem && At(mem, r, Mid(Px2(v))) == 0
    ensures At(mem, r, LowOf(v)) == 0 && Lookup(mem, r, v) == 0
  {
    hide Valid, Ppn;
    ValidBit();
  }
}
