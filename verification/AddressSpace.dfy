/**
 Page tables and the page allocator together: the invariant that every operation of
 kernel/vm.c keeps, and one lemma per elementary change to memory.
 */
module AddressSpace {
  import opened PageTable
  import opened PhysPages

  ghost predicate Sound(s: Ram, free: seq<int>, own: Owner) {
    Heap(s, free, own) && Tree(s.mem, own) && Leaves(s.mem, own)
  }

  /** Page used as part of the tree or of the memory of root r. */
  predicate Of(u: Use, r: int) { !u.Held? && u.root == r }

  ghost predicate SameLookups(mem: Mem, mem': Mem, own: Owner) {
    forall x, u :: IsRoot(own, x) && 0 <= u < NVPN ==> Lookup(mem', x, u) == Lookup(mem, x, u)
  }

  ghost predicate Mapped(mem: Mem, r: int, v: int, n: int) {
    forall u :: v <= u < v + n ==> Valid(Lookup(mem, r, u))
  }

  ghost predicate Unmapped(mem: Mem, r: int, v: int, n: int) {
    forall u :: v <= u < v + n ==> !Valid(Lookup(mem, r, u))
  }

  ghost predicate OneLookup(mem: Mem, mem': Mem, own: Owner, r: int, v: int, w: nat) {
    forall x, u :: IsRoot(own, x) && 0 <= u < NVPN ==>
        Lookup(mem', x, u) == if x == r && u == v then w else Lookup(mem, x, u)
  }

  /** Pages in use before and after keep their contents, r's own table pages aside. */
  ghost predicate SameData(s: Ram, own: Owner, s': Ram, own': Owner, r: int) {
    && s'.first == s.first
    && forall p :: p in own && p in own' && !(own[p].Table? && own[p].root == r) && p in s.mem ==>
         p in s'.mem && s'.mem[p] == s.mem[p]
  }

  /** Table pages and user pages are the same in both, and table pages untouched. */
  ghost predicate SameSpaces(mem: Mem, own: Owner, mem': Mem, own': Owner) {
    && 0 !in mem'
    && (forall p :: p in own' ==> p in mem' && |mem'[p]| == ENTRIES)
    && (forall p :: IsTable(own', p) <==> IsTable(own, p))
    && (forall p :: IsTable(own, p) ==> own'[p] == own[p])
    && (forall p :: IsTable(own, p) && p in mem ==> p in mem' && mem'[p] == mem[p])
    && (forall p, r, v :: UserPage(own', p, r, v) <==> UserPage(own, p, r, v))
  }

  lemma SpacesKept(mem: Mem, own: Owner, mem': Mem, own': Owner)
    requires Tree(mem, own) && Leaves(mem, own) && SameSpaces(mem, own, mem', own')
    ensures Tree(mem', own') && Leaves(mem', own') && SameLookups(mem, mem', own)
    ensures forall r :: IsRoot(own', r) <==> IsRoot(own, r)
  {
    SpacesTree(mem, own, mem', own');
    SpacesLeaves(mem, own, mem', own');
  }

  lemma SpacesTree(mem: Mem, own: Owner, mem': Mem, own': Owner)
    requires Tree(mem, own) && SameSpaces(mem, own, mem', own')
    ensures Tree(mem', own')
    ensures forall r :: IsRoot(own', r) <==> IsRoot(own, r)
  {
    hide At, Valid, Flags, Ppn;
    SpacesRoots(mem, own, mem', own');
    forall p | IsTable(own', p)
      ensures Proper(own'[p].path) && IsRoot(own', own'[p].root) && At(mem', own'[p].root, own'[p].path) == p
    {
      AtFrame(mem, mem', own, own[p].root, own[p].path);
    }
    forall r, path | IsRoot(own', r) && Proper(path) && At(mem', r, path) != 0
      ensures TableAt(own', At(mem', r, path), r, path)
    {
      AtFrame(mem, mem', own, r, path);
      assert TableAt(own, At(mem, r, path), r, path);
      assert IsTable(own, At(mem, r, path));
    }
    forall p, i | IsTable(own', p) ensures Entry(mem', p, i) == Entry(mem, p, i) {
      assert IsTable(own, p);
    }
  }

  lemma SpacesRoots(mem: Mem, own: Owner, mem': Mem, own': Owner)
    requires SameSpaces(mem, own, mem', own')
    ensures forall r :: IsRoot(own', r) <==> IsRoot(own, r)
  {
    forall r ensures IsRoot(own', r) <==> IsRoot(own, r) {
      assert IsTable(own', r) <==> IsTable(own, r);
    }
  }

  lemma SpacesLeaves(mem: Mem, own: Owner, mem': Mem, own': Owner)
    requires Tree(mem, own) && Leaves(mem, own) && SameSpaces(mem, own, mem', own')
    ensures Leaves(mem', own') && SameLookups(mem, mem', own)
  {
    hide Lookup, Valid, Readable, Ppn;
    SpacesRoots(mem, own, mem', own');
    forall x, u | IsRoot(own, x) && 0 <= u < NVPN ensures Lookup(mem', x, u) == Lookup(mem, x, u) {
      LookupFrame(mem, mem', own, x, u);
    }
  }

  // ---- elementary changes

  lemma TakeSound(s: Ram, free: seq<int>, own: Owner)
    requires Sound(s, free, own) && s.head != 0
    ensures free != [] && s.head == free[0] && s.head in s.mem && |s.mem[s.head]| == ENTRIES && s.head !in own
    ensures Sound(Taken(s), free[1..], own[s.head := Held]) && SameLookups(s.mem, Taken(s).mem, own)
  {
    hide Tree, Leaves, SameLookups;
    HeapTake(s, free, own);
    HeapPages(s, free, own);
    HeapPages(Taken(s), free[1..], own[s.head := Held]);
    assert SameSpaces(s.mem, own, Taken(s).mem, own[s.head := Held]) by { hide Heap; }
    SpacesKept(s.mem, own, Taken(s).mem, own[s.head := Held]);
  }

  lemma HeapPages(s: Ram, free: seq<int>, own: Owner)
    requires Heap(s, free, own)
    ensures 0 !in s.mem && forall p :: p in own ==> p in s.mem && |s.mem[p]| == ENTRIES
  {
  }

  lemma GiveSound(s: Ram, free: seq<int>, own: Owner, p: nat)
    requires Sound(s, free, own) && p in own && own[p] == Held
    ensures Sound(Freed(s, p), [p] + free, own - {p}) && SameLookups(s.mem, Freed(s, p).mem, own)
  {
    hide Tree, Leaves, SameLookups;
    HeapGive(s, free, own, p);
    HeapPages(s, free, own);
    HeapPages(Freed(s, p), [p] + free, own - {p});
    assert SameSpaces(s.mem, own, Freed(s, p).mem, own - {p}) by { hide Heap; }
    SpacesKept(s.mem, own, Freed(s, p).mem, own - {p});
  }

  /** Filling a page that is no table changes no address space. */
  lemma FillSound(s: Ram, free: seq<int>, own: Owner, p: int, page: Page)
    requires Sound(s, free, own) && p in own && !own[p].Table? && |page| == ENTRIES
    ensures Sound(s.(mem := Fill(s.mem, p, page)), free, own) && SameLookups(s.mem, Fill(s.mem, p, page), own)
  {
    hide Tree, Leaves, SameLookups;
    HeapWrite(s, free, own, p, page);
    HeapPages(s, free, own);
    HeapPages(s.(mem := Fill(s.mem, p, page)), free, own);
    assert SameSpaces(s.mem, own, Fill(s.mem, p, page), own) by { hide Heap; }
    SpacesKept(s.mem, own, Fill(s.mem, p, page), own);
  }

  lemma HangSound(s: Ram, free: seq<int>, own: Owner, r: int, path: Path, i: int, p: int)
    requires Sound(s, free, own) && CanHang(s.mem, own, r, path, i, p)
    ensures At(s.mem, r, path) in s.mem && |s.mem[At(s.mem, r, path)]| == ENTRIES
    ensures
      var mem' := Hang(s.mem, r, path, i, p);
      Sound(s.(mem := mem'), free, own[p := Table(r, Child(path, i))]) && SameLookups(s.mem, mem', own)
  {
    hide Tree, Leaves, Heap, Lookup, At;
    HangAt(s.mem, own, r, path, i, p, r, path);
    HangTree(s.mem, own, r, path, i, p);
    HangLeaves(s.mem, own, r, path, i, p);
    var q, mem' := At(s.mem, r, path), Hang(s.mem, r, path, i, p);
    HeapWrite(s, free, own, q, mem'[q]);
    assert Fill(s.mem, q, mem'[q]) == mem';
    HeapRelabel(s.(mem := mem'), free, own, p, Table(r, Child(path, i)));
    forall x, u | IsRoot(own, x) && 0 <= u < NVPN ensures Lookup(mem', x, u) == Lookup(s.mem, x, u) {
      HangLookup(s.mem, own, r, path, i, p, x, u);
    }
  }

  /** Storing a leaf entry, for any change of uses that keeps the leaves accounted for. */
  lemma LeafSound(s: Ram, free: seq<int>, own: Owner, r: int, v: int, w: nat)
    requires Sound(s, free, own) && Walked(s.mem, own, r, v)
    ensures At(s.mem, r, LowOf(v)) in s.mem && |s.mem[At(s.mem, r, LowOf(v))]| == ENTRIES
    ensures
      var mem' := SetLeaf(s.mem, r, v, w);
      Heap(s.(mem := mem'), free, own) && Tree(mem', own) && OneLookup(s.mem, mem', own, r, v, w)
  {
    hide Tree, Leaves, Heap, Lookup, At, LowOf;
    WalkedPage(s.mem, own, r, v);
    LeafTree(s.mem, own, r, v, w);
    var q, mem' := At(s.mem, r, LowOf(v)), SetLeaf(s.mem, r, v, w);
    HeapWrite(s, free, own, q, mem'[q]);
    assert Fill(s.mem, q, mem'[q]) == mem';
    forall x, u | IsRoot(own, x) && 0 <= u < NVPN
      ensures Lookup(mem', x, u) == if x == r && u == v then w else Lookup(s.mem, x, u)
    {
      LeafLookup(s.mem, own, r, v, w, x, u);
    }
  }

  /** Turning a held page into a user page, or back, leaves the trees as they are. */
  lemma RelabelTree(mem: Mem, own: Owner, p: int, u: Use)
    requires Tree(mem, own) && p in own && !own[p].Table? && !u.Table?
    ensures Tree(mem, own[p := u])
  {
    hide At, Valid, Flags, Ppn;
    var own' := own[p := u];
    forall x ensures IsRoot(own', x) <==> IsRoot(own, x) {}
    forall x ensures IsTable(own', x) <==> IsTable(own, x) {}
    forall x, r, path ensures TableAt(own', x, r, path) <==> TableAt(own, x, r, path) {}
  }

  lemma MapUserSound(s: Ram, free: seq<int>, own: Owner, r: int, v: int, w: nat)
    requires Sound(s, free, own) && Walked(s.mem, own, r, v) && v < TRAPFRAME && !Valid(Lookup(s.mem, r, v))
    requires Valid(w) && Readable(w) && Ppn(w) in own && own[Ppn(w)] == Held
    ensures At(s.mem, r, LowOf(v)) in s.mem && |s.mem[At(s.mem, r, LowOf(v))]| == ENTRIES
    ensures
      var mem' := SetLeaf(s.mem, r, v, w);
      Sound(s.(mem := mem'), free, own[Ppn(w) := User(r, v)]) && OneLookup(s.mem, mem', own, r, v, w)
  {
    hide Tree, Leaves, Heap, Lookup, At, LowOf, OneLookup, Valid, Readable, Ppn;
    LeafSound(s, free, own, r, v, w);
    MapUserLeaves(s.mem, own, r, v, w);
    RelabelTree(SetLeaf(s.mem, r, v, w), own, Ppn(w), User(r, v));
    HeapRelabel(s.(mem := SetLeaf(s.mem, r, v, w)), free, own, Ppn(w), User(r, v));
  }

  lemma FixedSound(s: Ram, free: seq<int>, own: Owner, r: int, v: int, w: nat)
    requires Sound(s, free, own) && Walked(s.mem, own, r, v) && (v == TRAPFRAME || v == TRAMPOLINE)
    requires if Valid(w) then Readable(w) else w == 0
    ensures At(s.mem, r, LowOf(v)) in s.mem && |s.mem[At(s.mem, r, LowOf(v))]| == ENTRIES
    ensures
      var mem' := SetLeaf(s.mem, r, v, w);
      Sound(s.(mem := mem'), free, own) && OneLookup(s.mem, mem', own, r, v, w)
  {
    hide Tree, Leaves, Heap, Lookup, At, LowOf, OneLookup, Valid, Readable, Ppn;
    LeafSound(s, free, own, r, v, w);
    FixedLeaves(s.mem, own, r, v, w);
  }

  lemma ReflagSound(s: Ram, free: seq<int>, own: Owner, r: int, v: int, w: nat)
    requires Sound(s, free, own) && Walked(s.mem, own, r, v) && v < TRAPFRAME && Valid(Lookup(s.mem, r, v))
    requires Valid(w) && Readable(w) && Ppn(w) == Ppn(Lookup(s.mem, r, v))
    ensures At(s.mem, r, LowOf(v)) in s.mem && |s.mem[At(s.mem, r, LowOf(v))]| == ENTRIES
    ensures
      var mem' := SetLeaf(s.mem, r, v, w);
      Sound(s.(mem := mem'), free, own) && OneLookup(s.mem, mem', own, r, v, w)
  {
    hide Tree, Leaves, Heap, Lookup, At, LowOf, OneLookup, Valid, Readable, Ppn;
    LeafSound(s, free, own, r, v, w);
    ReflagLeaves(s.mem, own, r, v, w);
  }

  /** Unmapping user page v and freeing its page; the page is freed before the entry is cleared. */
  lemma UnmapSound(s: Ram, free: seq<int>, own: Owner, r: int, v: int)
    requires Sound(s, free, own) && Walked(s.mem, own, r, v) && v < TRAPFRAME && Valid(Lookup(s.mem, r, v))
    ensures
      var p := Ppn(Lookup(s.mem, r, v));
      var mem1 := Freed(s, p).mem;
      && UserPage(own, p, r, v) && At(mem1, r, LowOf(v)) == At(s.mem, r, LowOf(v))
      && At(mem1, r, LowOf(v)) in mem1 && |mem1[At(mem1, r, LowOf(v))]| == ENTRIES
      && Sound(Ram(s.first, SetLeaf(mem1, r, v, 0), p), [p] + free, own - {p})
      && OneLookup(s.mem, SetLeaf(mem1, r, v, 0), own, r, v, 0)
  {
    hide Tree, Leaves, Heap, Lookup, At, LowOf, OneLookup, Valid, Readable, Ppn;
    var p := Ppn(Lookup(s.mem, r, v));
    LeafSound(s, free, own, r, v, 0);
    UnmapLeaves(s.mem, own, r, v);
    var q := At(s.mem, r, LowOf(v));
    WalkedPage(s.mem, own, r, v);
    NoPageZero(s.mem, own);
    HeapPages(s, free, own);
    var s1 := s.(mem := SetLeaf(s.mem, r, v, 0));
    RelabelTree(s1.mem, own, p, Held);
    HeapRelabel(s1, free, own, p, Held);
    GiveSound(s1, free, own[p := Held], p);
    AtFrame(s.mem, Freed(s, p).mem, own, r, LowOf(v));
    assert Freed(s1, p).mem == SetLeaf(Freed(s, p).mem, r, v, 0);
    assert own[p := Held] - {p} == own - {p};
    OneThenSame(s.mem, s1.mem, Freed(s1, p).mem, own, p, r, v, 0);
  }

  lemma OneThenSame(mem: Mem, mem1: Mem, mem2: Mem, own: Owner, p: int, r: int, v: int, w: nat)
    requires OneLookup(mem, mem1, own, r, v, w) && p in own && own[p].User? && SameLookups(mem1, mem2, own[p := Held])
    ensures OneLookup(mem, mem2, own, r, v, w)
  {
    hide Lookup;
    forall x | IsRoot(own, x) ensures IsRoot(own[p := Held], x) {}
  }

  // ---- growing a tree

  /** Only table pages of r were added; nothing is mapped differently. */
  ghost predicate Grown(s: Ram, own: Owner, s': Ram, own': Owner, r: int) {
    && SameLookups(s.mem, s'.mem, own) && SameData(s, own, s', own', r)
    && (forall p :: p in own ==> p in own' && own'[p] == own[p])
    && (forall p :: p in own' && p !in own ==> own'[p].Table? && own'[p].root == r)
  }

  lemma GrownSame(s: Ram, own: Owner, r: int)
    ensures Grown(s, own, s, own, r)
  {
  }

  lemma GrownTwice(s: Ram, own: Owner, s1: Ram, own1: Owner, s2: Ram, own2: Owner, r: int)
    requires Grown(s, own, s1, own1, r) && Grown(s1, own1, s2, own2, r)
    ensures Grown(s, own, s2, own2, r)
  {
    hide Lookup;
    forall x | IsRoot(own, x) ensures IsRoot(own1, x) {}
  }

  /** A fresh zeroed page hung under an empty entry, as walk does. */
  function GrowOnce(s: Ram, r: int, path: Path, i: int): Ram
    requires s.head in s.mem && |s.mem[s.head]| == ENTRIES && s.head != 0
    requires
      var mem := Fill(Taken(s).mem, s.head, Filled(0));
      At(mem, r, path) in mem && 0 <= i < |mem[At(mem, r, path)]|
  {
    var mem := Fill(Taken(s).mem, s.head, Filled(0));
    Taken(s).(mem := Hang(mem, r, path, i, s.head))
  }

  /** Ready to look at entry i of the table at path. */
  ghost predicate Descending(s: Ram, free: seq<int>, own: Owner, r: int, path: Path, i: int) {
    Sound(s, free, own) && IsRoot(own, r) && Proper(path) && !path.Low? && Index(i) && At(s.mem, r, path) != 0
  }

  lemma GrowReady(s: Ram, free: seq<int>, own: Owner, r: int, path: Path, i: int)
    requires Descending(s, free, own, r, path, i) && !Valid(Entry(s.mem, At(s.mem, r, path), i)) && s.head != 0
    ensures free != [] && s.head == free[0] && s.head in s.mem && |s.mem[s.head]| == ENTRIES && s.head !in own
    ensures
      var mem := Fill(Taken(s).mem, s.head, Filled(0));
      && Sound(Taken(s).(mem := mem), free[1..], own[s.head := Held]) && SameLookups(s.mem, mem, own)
      && At(mem, r, path) == At(s.mem, r, path)
      && CanHang(mem, own[s.head := Held], r, path, i, s.head)
  {
    hide Tree, Leaves, Heap, Lookup, Valid, Ppn, At, SameLookups;
    TakeSound(s, free, own);
    var p, s1, own1 := s.head, Taken(s), own[s.head := Held];
    FillSound(s1, free[1..], own1, p, Filled(0));
    var mem := Fill(s1.mem, p, Filled(0));
    HeapPages(s, free, own);
    TablePath(s.mem, own, r, path);
    AtFrame(s.mem, mem, own, r, path);
    SameTwice(s.mem, s1.mem, mem, own, p);
  }

  lemma SameTwice(mem: Mem, mem1: Mem, mem2: Mem, own: Owner, p: int)
    requires SameLookups(mem, mem1, own) && SameLookups(mem1, mem2, own[p := Held]) && p !in own
    ensures SameLookups(mem, mem2, own)
  {
    hide Lookup;
    forall x | IsRoot(own, x) ensures IsRoot(own[p := Held], x) {}
  }

  lemma GrowSound(s: Ram, free: seq<int>, own: Owner, r: int, path: Path, i: int)
    requires Descending(s, free, own, r, path, i) && !Valid(Entry(s.mem, At(s.mem, r, path), i)) && s.head != 0
    ensures free != [] && s.head == free[0] && s.head in s.mem && |s.mem[s.head]| == ENTRIES
    ensures
      var mem := Fill(Taken(s).mem, s.head, Filled(0));
      At(mem, r, path) == At(s.mem, r, path) && At(mem, r, path) in mem && |mem[At(mem, r, path)]| == ENTRIES
    ensures
      var s', own' := GrowOnce(s, r, path, i), own[s.head := Table(r, Child(path, i))];
      && Sound(s', free[1..], own') && Grown(s, own, s', own', r) && IsRoot(own', r)
      && At(s'.mem, r, Child(path, i)) == s.head
  {
    hide Tree, Leaves, Heap, Lookup, Valid, Ppn, At, SameLookups;
    GrowReady(s, free, own, r, path, i);
    var p := s.head;
    var mem, own1 := Fill(Taken(s).mem, p, Filled(0)), own[p := Held];
    HangSound(Taken(s).(mem := mem), free[1..], own1, r, path, i, p);
    HangAt(mem, own1, r, path, i, p, r, Child(path, i));
    TablePath(mem, own1, r, path);
    assert own1[p := Table(r, Child(path, i))] == own[p := Table(r, Child(path, i))];
    SameTwice(s.mem, mem, GrowOnce(s, r, path, i).mem, own, p);
  }

  // ---- one mapping

  /** What becomes of the uses when page p is mapped at v: only user mappings own their page. */
  function Claimed(own: Owner, r: int, v: int, p: int): Owner {
    if v < TRAPFRAME then own[p := User(r, v)] else own
  }

  /** A page that may be mapped at v: the two fixed mappings take any page. */
  predicate Mappable(own: Owner, v: int, p: int) {
    if v < TRAPFRAME then p in own && own[p] == Held else v == TRAPFRAME || v == TRAMPOLINE
  }

  lemma MapSound(s: Ram, free: seq<int>, own: Owner, r: int, v: int, p: nat, perm: nat)
    requires Sound(s, free, own) && Walked(s.mem, own, r, v) && !Valid(Lookup(s.mem, r, v))
    requires Mappable(own, v, p) && perm < 1024 && Readable(perm)
    ensures At(s.mem, r, LowOf(v)) in s.mem && |s.mem[At(s.mem, r, LowOf(v))]| == ENTRIES
    ensures
      var w := Mk(p, OrValid(perm));
      var s', own' := s.(mem := SetLeaf(s.mem, r, v, w)), Claimed(own, r, v, p);
      Sound(s', free, own') && OneLookup(s.mem, s'.mem, own, r, v, w) && SameData(s, own, s', own', r)
      && IsRoot(own', r)
  {
    hide Tree, Leaves, Heap, Lookup, At, LowOf, OneLookup, Valid, Readable, Ppn, Mk, OrValid;
    OrValidParts(perm);
    MkParts(p, OrValid(perm));
    WalkedPage(s.mem, own, r, v);
    if v < TRAPFRAME {
      MapUserSound(s, free, own, r, v, Mk(p, OrValid(perm)));
    } else {
      FixedSound(s, free, own, r, v, Mk(p, OrValid(perm)));
    }
  }

  lemma OrValidParts(perm: nat)
    requires perm < 1024
    ensures Valid(OrValid(perm)) && OrValid(perm) < 1024 && (Readable(OrValid(perm)) <==> Readable(perm))
    ensures Valid(perm) ==> OrValid(perm) == perm
  {
  }

  // ---- a range of mappings

  /** Page x, as one of the pages from p, may be mapped at its place from v. */
  predicate MappableFrom(own: Owner, v: int, p: int, x: int) { Mappable(own, v + (x - p), x) }

  ghost predicate MappableRange(own: Owner, v: int, p: int, n: int) {
    forall x :: p <= x < p + n ==> MappableFrom(own, v, p, x)
  }

  /** The use of page x once pages p, p+1, ... are mapped at n pages from v. */
  function ClaimedUse(u: Use, x: int, r: int, v: int, p: int, n: int): Use {
    if p <= x < p + n && v + (x - p) < TRAPFRAME then User(r, v + (x - p)) else u
  }

  ghost predicate RangeLookups(mem: Mem, mem': Mem, own: Owner, r: int, v: int, p: nat, flags: nat, n: int) {
    forall x, u :: IsRoot(own, x) && 0 <= u < NVPN ==>
      Lookup(mem', x, u) == if x == r && v <= u < v + n then Mk(p + (u - v), flags) else Lookup(mem, x, u)
  }

  /** The mapped pages become user pages; the only new uses are table pages of r. */
  ghost predicate RangeUses(own: Owner, own': Owner, r: int, v: int, p: int, n: int) {
    && (forall x :: x in own ==> x in own' && own'[x] == ClaimedUse(own[x], x, r, v, p, n))
    && (forall x :: x in own' && x !in own ==> own'[x].Table? && own'[x].root == r)
  }

  /** n pages from v of r are mapped to consecutive pages from p, and nothing else changed. */
  ghost predicate MapRange(s: Ram, own: Owner, s': Ram, own': Owner, r: int, v: int, p: nat, flags: nat, n: int) {
    && RangeLookups(s.mem, s'.mem, own, r, v, p, flags, n)
    && RangeUses(own, own', r, v, p, n) && SameData(s, own, s', own', r)
  }

  lemma MapRangeNone(s: Ram, own: Owner, s': Ram, own': Owner, r: int, v: int, p: nat, flags: nat)
    requires Grown(s, own, s', own', r)
    ensures MapRange(s, own, s', own', r, v, p, flags, 0)
  {
    hide Lookup, Mk;
  }

  /** Pages claimed by a mapping were held, so tables stay what they were. */
  lemma RangeTables(own: Owner, own': Owner, r: int, v: int, p: int, n: int)
    requires RangeUses(own, own', r, v, p, n) && MappableRange(own, v, p, n)
    ensures forall x :: x in own ==>
              x in own' && (own[x].Table? <==> own'[x].Table?) && (own[x].Table? ==> own'[x] == own[x])
    ensures forall x :: IsRoot(own, x) ==> IsRoot(own', x)
  {
    forall x | x in own
      ensures x in own' && (own[x].Table? <==> own'[x].Table?) && (own[x].Table? ==> own'[x] == own[x])
    {
      if p <= x < p + n {
        assert MappableFrom(own, v, p, x);
      }
    }
  }

  lemma RangeLookupsAppend(mem: Mem, mem1: Mem, mem2: Mem, own: Owner, own1: Owner, r: int, v: int,
          p: nat, flags: nat, n: int)
    requires n >= 0 && RangeLookups(mem, mem1, own, r, v, p, flags, n)
    requires RangeLookups(mem1, mem2, own1, r, v + n, p + n, flags, 1)
    requires forall x :: IsRoot(own, x) ==> IsRoot(own1, x)
    ensures RangeLookups(mem, mem2, own, r, v, p, flags, n + 1)
  {
    hide Lookup, Mk;
  }

  lemma RangeUsesAppend(own: Owner, own1: Owner, own2: Owner, r: int, v: int, p: int, n: int)
    requires RangeUses(own, own1, r, v, p, n) && RangeUses(own1, own2, r, v + n, p + n, 1) && n >= 0
    requires MappableRange(own, v, p, n + 1)
    ensures RangeUses(own, own2, r, v, p, n + 1)
  {
    assert MappableFrom(own, v, p, p + n);
  }

  lemma SameDataTwice(s: Ram, own: Owner, s1: Ram, own1: Owner, s2: Ram, own2: Owner, r: int)
    requires SameData(s, own, s1, own1, r) && SameData(s1, own1, s2, own2, r)
    requires forall x :: x in own && x in own2 ==>
               x in own1 && (own1[x].Table? && own1[x].root == r ==> own[x] == own1[x])
    ensures SameData(s, own, s2, own2, r)
  {
  }

  lemma MapRangeAppend(s: Ram, own: Owner, s1: Ram, own1: Owner, s2: Ram, own2: Owner, r: int,
          v: int, p: nat, flags: nat, n: int)
    requires n >= 0 && MapRange(s, own, s1, own1, r, v, p, flags, n)
    requires MapRange(s1, own1, s2, own2, r, v + n, p + n, flags, 1)
    requires MappableRange(own, v, p, n + 1)
    ensures MapRange(s, own, s2, own2, r, v, p, flags, n + 1)
  {
    hide RangeLookups, RangeUses, SameData, MappableRange;
    MappableLess(own, v, p, n);
    RangeTables(own, own1, r, v, p, n);
    RangeLookupsAppend(s.mem, s1.mem, s2.mem, own, own1, r, v, p, flags, n);
    RangeUsesAppend(own, own1, own2, r, v, p, n);
    SameDataTwice(s, own, s1, own1, s2, own2, r);
  }

  lemma MappableLess(own: Owner, v: int, p: int, n: int)
    requires MappableRange(own, v, p, n + 1)
    ensures MappableRange(own, v, p, n)
  {
  }

  /** Growing the tree and then storing one entry maps one page. */
  lemma GrowThenMap(s: Ram, own: Owner, s1: Ram, own1: Owner, s2: Ram, r: int, v: int, p: nat,
          flags: nat)
    requires Grown(s, own, s1, own1, r) && Mappable(own, v, p)
    requires
      var own2 := Claimed(own1, r, v, p);
      OneLookup(s1.mem, s2.mem, own1, r, v, Mk(p, flags)) && SameData(s1, own1, s2, own2, r)
    ensures MapRange(s, own, s2, Claimed(own1, r, v, p), r, v, p, flags, 1)
  {
    hide Lookup, Mk;
    var own2 := Claimed(own1, r, v, p);
    forall x | IsRoot(own, x) ensures IsRoot(own1, x) {}
    assert RangeUses(own, own2, r, v, p, 1);
  }

  // ---- a range of mappings removed

  predicate UserIn(u: Use, r: int, v: int, n: int) { u.User? && u.root == r && v <= u.vpn < v + n }

  /** n pages from v of r are unmapped; their pages are freed, or left to the caller. */
  ghost predicate UnmapRange(s: Ram, own: Owner, s': Ram, own': Owner, r: int, v: int, n: int, doFree: bool) {
    && SameData(s, own, s', own', r)
    && (forall x, u :: IsRoot(own, x) && 0 <= u < NVPN ==>
          Lookup(s'.mem, x, u) == if x == r && v <= u < v + n then 0 else Lookup(s.mem, x, u))
    && (forall p :: p in own && !UserIn(own[p], r, v, n) ==> p in own' && own'[p] == own[p])
    && (forall p :: p in own && UserIn(own[p], r, v, n) ==> if doFree then p !in own' else p in own' && own'[p] == Held)
    && (forall p :: p in own' ==> p in own)
  }

  lemma UnmapRangeNone(s: Ram, own: Owner, r: int, v: int, doFree: bool)
    ensures UnmapRange(s, own, s, own, r, v, 0, doFree)
  {
  }

  lemma UnmapRangeNext(s: Ram, own: Owner, s1: Ram, own1: Owner, s2: Ram, own2: Owner, r: int,
          v: int, n: int, doFree: bool)
    requires UnmapRange(s, own, s1, own1, r, v, n, doFree) && UnmapRange(s1, own1, s2, own2, r, v + n, 1, doFree)
    requires n >= 0
    ensures UnmapRange(s, own, s2, own2, r, v, n + 1, doFree)
  {
    hide Lookup, SameData;
    forall x | IsRoot(own, x) ensures IsRoot(own1, x) {}
    SameDataTwice(s, own, s1, own1, s2, own2, r);
  }

  function Unclaimed(own: Owner, p: int, v: int, doFree: bool): Owner {
    if doFree then own - {p} else if v < TRAPFRAME then own[p := Held] else own
  }

  lemma UnmapOnceSound(s: Ram, free: seq<int>, own: Owner, r: int, v: int, doFree: bool)
    requires Sound(s, free, own) && Walked(s.mem, own, r, v) && Valid(Lookup(s.mem, r, v)) && (doFree ==> v < TRAPFRAME)
    ensures At(s.mem, r, LowOf(v)) in s.mem && |s.mem[At(s.mem, r, LowOf(v))]| == ENTRIES
    ensures
      var p := Ppn(Lookup(s.mem, r, v));
      var mem := if doFree then Freed(s, p).mem else s.mem;
      && At(mem, r, LowOf(v)) == At(s.mem, r, LowOf(v)) && At(mem, r, LowOf(v)) in mem
      && |mem[At(mem, r, LowOf(v))]| == ENTRIES
      && (doFree ==> p in s.mem)
      && var s', own' :=
        Ram(s.first, SetLeaf(mem, r, v, 0), if doFree then p else s.head), Unclaimed(own, p, v, doFree);
      && Sound(s', if doFree then [p] + free else free, own') && IsRoot(own', r)
      && UnmapRange(s, own, s', own', r, v, 1, doFree)
  {
    hide Tree, Leaves, Heap, Lookup, At, LowOf, Valid, Readable, Ppn, SetLeaf, Freed;
    WalkedPage(s.mem, own, r, v);
    HeapPages(s, free, own);
    if doFree {
      UnmapSound(s, free, own, r, v);
      UnmapFreeRange(s, free, own, r, v);
    } else {
      UnmapKeepSound(s, free, own, r, v);
    }
  }

  /** Only page p of r is user page v. */
  lemma OneUser(s: Ram, own: Owner, r: int, v: int)
    requires Leaves(s.mem, own) && IsRoot(own, r) && 0 <= v < NVPN && Valid(Lookup(s.mem, r, v))
    ensures forall x :: x in own && UserIn(own[x], r, v, 1) <==> v < TRAPFRAME && x == Ppn(Lookup(s.mem, r, v))
  {
    hide Lookup, Valid, Readable, Ppn;
    forall x ensures x in own && UserIn(own[x], r, v, 1) <==> v < TRAPFRAME && x == Ppn(Lookup(s.mem, r, v)) {
      assert x in own && UserIn(own[x], r, v, 1) <==> UserPage(own, x, r, v);
      assert v < TRAPFRAME ==> UserPage(own, Ppn(Lookup(s.mem, r, v)), r, v);
    }
  }

  lemma UnmapFreeRange(s: Ram, free: seq<int>, own: Owner, r: int, v: int)
    requires Sound(s, free, own) && Walked(s.mem, own, r, v) && Valid(Lookup(s.mem, r, v)) && v < TRAPFRAME
    ensures
      var p := Ppn(Lookup(s.mem, r, v));
      var mem := Freed(s, p).mem;
      && At(mem, r, LowOf(v)) in mem && |mem[At(mem, r, LowOf(v))]| == ENTRIES
      && UnmapRange(s, own, Ram(s.first, SetLeaf(mem, r, v, 0), p), own - {p}, r, v, 1, true)
  {
    hide Tree, Leaves, Heap, Lookup, At, LowOf, Valid, Readable, Ppn;
    UnmapSound(s, free, own, r, v);
    OneUser(s, own, r, v);
    WalkedPage(s.mem, own, r, v);
  }

  lemma UnmapKeepSound(s: Ram, free: seq<int>, own: Owner, r: int, v: int)
    requires Sound(s, free, own) && Walked(s.mem, own, r, v) && Valid(Lookup(s.mem, r, v))
    ensures At(s.mem, r, LowOf(v)) in s.mem && |s.mem[At(s.mem, r, LowOf(v))]| == ENTRIES
    ensures
      var p := Ppn(Lookup(s.mem, r, v));
      var s', own' := s.(mem := SetLeaf(s.mem, r, v, 0)), Unclaimed(own, p, v, false);
      Sound(s', free, own') && UnmapRange(s, own, s', own', r, v, 1, false)
  {
    hide Tree, Leaves, Heap, Lookup, At, LowOf, Valid, Readable, Ppn;
    WalkedPage(s.mem, own, r, v);
    OneUser(s, own, r, v);
    ValidBit();
    LeafSound(s, free, own, r, v, 0);
    if v < TRAPFRAME {
      UnmapLeaves(s.mem, own, r, v);
      RelabelTree(SetLeaf(s.mem, r, v, 0), own, Ppn(Lookup(s.mem, r, v)), Held);
      HeapRelabel(s.(mem := SetLeaf(s.mem, r, v, 0)), free, own, Ppn(Lookup(s.mem, r, v)), Held);
    } else {
      OnlyFixed(s.mem, own, r, v);
      FixedLeaves(s.mem, own, r, v, 0);
    }
  }

  lemma OnlyFixed(mem: Mem, own: Owner, r: int, v: int)
    requires Leaves(mem, own) && IsRoot(own, r) && TRAPFRAME <= v < NVPN && Valid(Lookup(mem, r, v))
    ensures v == TRAPFRAME || v == TRAMPOLINE
  {
  }

  // ---- page tables as finite maps

  /** The entry for u when pages from p are mapped from v on. */
  function RangeEntry(v: int, p: nat, flags: nat, u: int): nat
    requires v <= u
  {
    Mk(p + (u - v), flags)
  }

  function RangeMap(v: int, p: nat, flags: nat, n: int): map<int, nat> {
    map u {:trigger RangeEntry(v, p, flags, u)} | v <= u < v + n :: RangeEntry(v, p, flags, u)
  }

  /** Mapping pages adds exactly those entries to one map and leaves every other map alone. */
  lemma MapRefines(s: Ram, own: Owner, s': Ram, own': Owner, r: int, v: int, p: nat, flags: nat,
          n: int, x: int)
    requires MapRange(s, own, s', own', r, v, p, flags, n) && IsRoot(own, x) && 0 <= v && v + n <= NVPN && flags < 1024
    requires Valid(flags)
    ensures Mapping(s'.mem, x) == if x == r then Mapping(s.mem, x) + RangeMap(v, p, flags, n) else Mapping(s.mem, x)
  {
    hide Lookup, Mk, Valid, RangeUses, SameData;
    forall u | 0 <= u < NVPN
      ensures Valid(Lookup(s'.mem, x, u)) <==> (x == r && v <= u < v + n) || Valid(Lookup(s.mem, x, u))
    {
      if x == r && v <= u < v + n {
        MkParts(p + (u - v), flags);
      }
    }
  }

  /** Unmapping pages removes exactly those entries. */
  lemma UnmapRefines(s: Ram, own: Owner, s': Ram, own': Owner, r: int, v: int, n: int,
          doFree: bool, x: int)
    requires UnmapRange(s, own, s', own', r, v, n, doFree) && IsRoot(own, x)
    ensures forall u :: u in Mapping(s'.mem, x) <==> u in Mapping(s.mem, x) && !(x == r && v <= u < v + n)
    ensures forall u :: u in Mapping(s'.mem, x) ==> Mapping(s'.mem, x)[u] == Mapping(s.mem, x)[u]
  {
    hide Lookup, SameData;
    ValidBit();
  }
}
