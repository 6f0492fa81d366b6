/**
 The bytes of a user address space (kernel/vm.c): pages are 512 words of eight bytes, low
 byte first, and copyout copies a run of bytes into them page by page.
 */
module UserBytes {
  import opened PageTable
  import opened PhysPages
  import opened AddressSpace
  import opened UserSpace
  import opened VmSteps
  import opened Vm

  // ---- words and bytes

  function Word(bytes: seq<nat>): nat {
    if bytes == [] then 0 else bytes[0] + 256 * Word(bytes[1..])
  }

  function ByteIn(w: nat, k: nat): nat {
    if k == 0 then w % 256 else ByteIn(w / 256, k - 1)
  }

  /** The k low bytes of w. */
  function Bytes(w: nat, k: nat): (bytes: seq<nat>)
    ensures |bytes| == k && forall j :: 0 <= j < k ==> bytes[j] < 256
  {
    if k == 0 then [] else [w % 256] + Bytes(w / 256, k - 1)
  }

  lemma {:induction false} ByteOfWord(bytes: seq<nat>, k: nat)
    requires k < |bytes| && forall j :: 0 <= j < |bytes| ==> bytes[j] < 256
    ensures ByteIn(Word(bytes), k) == bytes[k]
    decreases k
  {
    if k > 0 {
      assert (bytes[0] + 256 * Word(bytes[1..])) / 256 == Word(bytes[1..]);
      ByteOfWord(bytes[1..], k - 1);
    }
  }

  function Radix(k: nat): nat { if k == 0 then 1 else 256 * Radix(k - 1) }

  lemma {:induction false} WordOfBytes(w: nat, k: nat)
    requires w < Radix(k)
    ensures Word(Bytes(w, k)) == w
    decreases k
  {
    if k > 0 {
      WordOfBytes(w / 256, k - 1);
      assert Bytes(w, k)[1..] == Bytes(w / 256, k - 1);
    }
  }

  /** Byte j of a page. */
  function ByteOf(page: Page, j: int): nat
    requires 0 <= j < 4096
  {
    if j / 8 < |page| then ByteIn(page[j / 8], j % 8) else 0
  }

  /** The page with these contents. */
  function Pack(bytes: seq<nat>): (page: Page)
    requires |bytes| == 4096
    ensures |page| == ENTRIES
  {
    seq(ENTRIES, k requires 0 <= k < ENTRIES => Word(bytes[8 * k..8 * k + 8]))
  }

  lemma PackedByte(bytes: seq<nat>, j: int)
    requires |bytes| == 4096 && 0 <= j < 4096 && forall i :: 0 <= i < 4096 ==> bytes[i] < 256
    ensures ByteOf(Pack(bytes), j) == bytes[j]
  {
    hide Word, ByteIn;
    var k := j / 8;
    var word := bytes[8 * k..8 * k + 8];
    assert Pack(bytes)[k] == Word(word);
    ByteOfWord(word, j % 8);
    assert word[j % 8] == bytes[8 * k + j % 8];
  }

  // ---- writing a run of bytes

  predicate Octets(src: seq<nat>) { forall i :: 0 <= i < |src| ==> src[i] < 256 }

  lemma ByteInRange(w: nat, k: nat)
    ensures ByteIn(w, k) < 256
  {
  }

  /** The bytes from dst on, where they fall into the page at `base`. */
  function Mixed(page: Page, base: int, dst: int, src: seq<nat>): (bytes: seq<nat>)
    ensures |bytes| == 4096
  {
    seq(4096, j requires 0 <= j < 4096 =>
      if dst <= base + j < dst + |src| then src[base + j - dst] else ByteOf(page, j))
  }

  /** The page at `base` once src is written at dst. */
  function Over(page: Page, base: int, dst: int, src: seq<nat>): (p: Page)
    ensures |page| == ENTRIES ==> |p| == ENTRIES
  {
    if src == [] || dst + |src| <= base || base + 4096 <= dst then page else Pack(Mixed(page, base, dst, src))
  }

  /** Each byte is the one written, or the one that was there. */
  lemma OverByte(page: Page, base: int, dst: int, src: seq<nat>, j: int)
    requires 0 <= j < 4096 && Octets(src)
    ensures ByteOf(Over(page, base, dst, src), j)
            == if dst <= base + j < dst + |src| then src[base + j - dst] else ByteOf(page, j)
  {
    hide ByteOf, Pack, ByteIn;
    if src != [] && base < dst + |src| && dst < base + 4096 {
      var bytes := Mixed(page, base, dst, src);
      forall i | 0 <= i < 4096 ensures bytes[i] < 256 {
        ByteOfRange(page, i);
      }
      PackedByte(bytes, j);
    }
  }

  lemma ByteOfRange(page: Page, j: int)
    requires 0 <= j < 4096
    ensures ByteOf(page, j) < 256
  {
    if j / 8 < |page| {
      ByteInRange(page[j / 8], j % 8);
    }
  }

  /** A word written whole reads back. */
  lemma OverWord(page: Page, base: int, dst: int, src: seq<nat>, i: int)
    requires |page| == ENTRIES && base % 4096 == 0 && dst % 8 == 0 && 0 <= i && 8 * i + 8 <= |src|
    requires base <= dst + 8 * i && dst + 8 * i + 8 <= base + 4096
    ensures Over(page, base, dst, src)[(dst + 8 * i - base) / 8] == Word(src[8 * i..8 * i + 8])
  {
    hide ByteOf, Word;
    var k := (dst + 8 * i - base) / 8;
    var bytes := Mixed(page, base, dst, src);
    assert 8 * k == dst + 8 * i - base;
    assert bytes[8 * k..8 * k + 8] == src[8 * i..8 * i + 8];
  }

  /** The next piece, written into a page no earlier piece reached. */
  lemma OverPiece(page: Page, base: int, dst: int, src: seq<nat>, n: nat, k: nat)
    requires n + k <= |src| && k > 0 && base <= dst + n < base + 4096 && (n == 0 || dst + n == base)
    ensures Over(page, base, dst, src[..n]) == page
    ensures Over(page, base, dst + n, src[n..n + k]) == Over(page, base, dst, src[..n + k])
  {
    hide Pack, ByteOf;
    assert Mixed(page, base, dst + n, src[n..n + k]) == Mixed(page, base, dst, src[..n + k]);
  }

  /** A page that the next piece does not reach. */
  lemma OverElsewhere(page: Page, base: int, v: int, dst: int, src: seq<nat>, n: nat, k: nat)
    requires n + k <= |src| && v <= dst + n && dst + n + k <= v + 4096 && (n == 0 || dst + n == v)
    requires base + 4096 <= v || v + 4096 <= base
    ensures Over(page, base, dst, src[..n + k]) == Over(page, base, dst, src[..n])
  {
    hide Pack, ByteOf;
    if !(dst + n + k <= base || base + 4096 <= dst) {
      assert n > 0 ==> Mixed(page, base, dst, src[..n + k]) == Mixed(page, base, dst, src[..n]);
    }
  }

  // ---- copyout

  /** The contents of page u of address space r. */
  function PageAt(mem: Mem, r: int, u: int): Page { ImageOf(mem, r, u).page }

  /** The byte at user address a. */
  function ByteAt(mem: Mem, r: int, a: nat): nat { ByteOf(PageAt(mem, r, a / 4096), a % 4096) }

  /** The user may use page u of r. */
  ghost predicate Usable(mem: Mem, r: int, u: int) {
    Valid(Lookup(mem, r, u)) && UserBit(Lookup(mem, r, u))
  }

  /** The pages of r hold src from dst on, and otherwise what they held. */
  ghost predicate Copied(mem0: Mem, mem: Mem, r: int, dst: int, src: seq<nat>) {
    forall u :: 0 <= u < TRAPFRAME && Valid(Lookup(mem0, r, u)) ==>
      PageAt(mem, r, u) == Over(PageAt(mem0, r, u), u * 4096, dst, src)
  }

  /** Every page that n bytes from dst on touch can be used. */
  ghost predicate Reachable(mem: Mem, r: int, dst: nat, n: nat) {
    n > 0 ==> forall u :: dst / 4096 <= u && u * 4096 < dst + n ==> Usable(mem, r, u)
  }

  /**
   copyout below the trapframe: it succeeds exactly if the user may use every page touched;
   then the bytes are there, and no other byte of this or any address space has changed.
   */
  method Copyout(m: Memory, r: int, dst: nat, src: seq<nat>) returns (ok: bool)
    requires Sound(m.ram, m.free, m.own) && IsRoot(m.own, r) && Octets(src) && dst + |src| <= TRAPFRAME * 4096
    modifies m
    ensures Sound(m.ram, m.free, m.own) && m.own == old(m.own) && m.free == old(m.free)
    ensures SameLookups(old(m.ram.mem), m.ram.mem, m.own) && Apart(old(m.ram), m.own, m.ram, m.own, r)
    ensures ok <==> Reachable(old(m.ram.mem), r, dst, |src|)
    ensures ok ==> Copied(old(m.ram.mem), m.ram.mem, r, dst, src)
  {
    hide *;
    var n, dstva := 0, dst;
    SameStart(m.ram, m.own, r);
    CopiedNone(m.ram.mem, r, dst, src);
    ReachedNone(m.ram.mem, r, dst);
    while n < |src|
      invariant n <= |src| && (n < |src| ==> dstva == dst + n) && (n == 0 || n == |src| || dstva % 4096 == 0)
      invariant Sound(m.ram, m.free, m.own) && m.own == old(m.own) && m.free == old(m.free)
      invariant SameLookups(old(m.ram.mem), m.ram.mem, m.own) && Apart(old(m.ram), m.own, m.ram, m.own, r)
      invariant Copied(old(m.ram.mem), m.ram.mem, r, dst, src[..n]) && Reachable(old(m.ram.mem), r, dst, n)
    {
      var va0 := dstva - dstva % 4096;
      var v := va0 / 4096;
      PieceBounds(dst, |src|, n, dstva);
      var pa := m.Walkaddr(r, va0);
      if pa == 0 {
        NotReachable(old(m.ram), m.ram, m.free, m.own, r, dst, |src|, v);
        return false;
      }
      FoundPage(old(m.ram), m.ram, m.free, m.own, r, v, pa);
      var k := 4096 - (dstva - va0);
      if k > |src| - n {
        k := |src| - n;
      }
      var page := Over(m.ram.mem[pa], va0, dstva, src[n..n + k]);
      OverSize(m.ram.mem[pa], va0, dstva, src[n..n + k]);
      StoreSound(old(m.ram), m.ram, m.free, m.own, r, v, pa, page);
      CopiedNext(old(m.ram), m.ram, m.free, m.own, r, dst, src, n, k, v, pa);
      ReachedNext(old(m.ram.mem), r, dst, n, k, v);
      m.ram := m.ram.(mem := m.ram.mem[pa := page]);
      n := n + k;
      dstva := va0 + 4096;
    }
    assert src[..n] == src;
    ok := true;
  }

  lemma SameStart(s: Ram, own: Owner, r: int)
    ensures SameLookups(s.mem, s.mem, own) && Apart(s, own, s, own, r)
  {
  }

  lemma CopiedNone(mem: Mem, r: int, dst: nat, src: seq<nat>)
    ensures Copied(mem, mem, r, dst, src[..0])
  {
    hide Lookup, Valid, PageAt;
  }

  lemma ReachedNone(mem: Mem, r: int, dst: nat)
    ensures Reachable(mem, r, dst, 0)
  {
    hide Usable;
  }

  lemma PieceBounds(dst: nat, len: nat, n: nat, dstva: int)
    requires n < len && dstva == dst + n && dst + len <= TRAPFRAME * 4096
    ensures
      var va0 := dstva - dstva % 4096;
      && 0 <= va0 <= dstva < va0 + 4096 && va0 == va0 / 4096 * 4096 && va0 / 4096 < TRAPFRAME
      && va0 < MAXVPN * 4096 && dst / 4096 <= va0 / 4096
  {
  }

  /** walkaddr's answer, in terms of the tables at the start. */
  lemma NotReachable(s0: Ram, s: Ram, free: seq<int>, own: Owner, r: int, dst: nat, len: nat, v: int)
    requires Sound(s, free, own) && IsRoot(own, r) && SameLookups(s0.mem, s.mem, own)
    requires 0 <= v < TRAPFRAME && dst / 4096 <= v && v * 4096 < dst + len && len > 0
    requires
      var t := Mapping(s.mem, r);
      !(v in t && UserBit(t[v]) && Ppn(t[v]) != 0)
    ensures !Reachable(s0.mem, r, dst, len)
  {
    hide Lookup, Valid, UserBit, Ppn, Heap, Tree, Readable;
    VpnOrder();
    NoPageZero(s.mem, own);
    assert Usable(s0.mem, r, v) ==> UserPage(own, Ppn(Lookup(s.mem, r, v)), r, v);
  }

  lemma FoundPage(s0: Ram, s: Ram, free: seq<int>, own: Owner, r: int, v: int, pa: nat)
    requires Sound(s, free, own) && IsRoot(own, r) && SameLookups(s0.mem, s.mem, own) && 0 <= v < TRAPFRAME && pa != 0
    requires
      var t := Mapping(s.mem, r);
      pa == if v in t && UserBit(t[v]) then Ppn(t[v]) else 0
    ensures UserPage(own, pa, r, v) && pa in s.mem && |s.mem[pa]| == ENTRIES && s.mem[pa] == PageAt(s.mem, r, v)
    ensures Usable(s0.mem, r, v)
  {
    hide Lookup, Valid, UserBit, Ppn, Tree, Readable, Flags;
    VpnOrder();
    HeapPages(s, free, own);
  }

  lemma OverSize(page: Page, base: int, dst: int, src: seq<nat>)
    requires |page| == ENTRIES
    ensures |Over(page, base, dst, src)| == ENTRIES
  {
  }

  lemma StoreSound(s0: Ram, s: Ram, free: seq<int>, own: Owner, r: int, v: int, pa: nat, page: Page)
    requires Sound(s, free, own) && UserPage(own, pa, r, v) && |page| == ENTRIES
    requires SameLookups(s0.mem, s.mem, own) && Apart(s0, own, s, own, r)
    ensures
      var s' := s.(mem := s.mem[pa := page]);
      Sound(s', free, own) && SameLookups(s0.mem, s'.mem, own) && Apart(s0, own, s', own, r)
  {
    hide Sound, Lookup;
    FillSound(s, free, own, pa, page);
  }

  /** The next piece: no other page of r is kept in the same physical page. */
  lemma CopiedNext(s0: Ram, s: Ram, free: seq<int>, own: Owner, r: int, dst: nat, src: seq<nat>, n: nat, k: nat,
          v: int, pa: nat)
    requires Sound(s, free, own) && SameLookups(s0.mem, s.mem, own) && IsRoot(own, r) && UserPage(own, pa, r, v)
    requires n + k <= |src| && k > 0 && 0 <= v < TRAPFRAME && Copied(s0.mem, s.mem, r, dst, src[..n])
    requires v * 4096 <= dst + n && dst + n + k <= v * 4096 + 4096 && (n == 0 || dst + n == v * 4096)
    requires pa in s.mem && |s.mem[pa]| == ENTRIES && s.mem[pa] == PageAt(s.mem, r, v)
    ensures
      var page := Over(s.mem[pa], v * 4096, dst + n, src[n..n + k]);
      Copied(s0.mem, s.mem[pa := page], r, dst, src[..n + k])
  {
    hide Lookup, Valid, Heap, Tree, Ppn, Flags, Over;
    var page := Over(s.mem[pa], v * 4096, dst + n, src[n..n + k]);
    OverSize(s.mem[pa], v * 4096, dst + n, src[n..n + k]);
    FillSound(s, free, own, pa, page);
    var mem := s.mem[pa := page];
    VpnOrder();
    forall u | 0 <= u < TRAPFRAME && Valid(Lookup(s0.mem, r, u))
      ensures PageAt(mem, r, u) == Over(PageAt(s0.mem, r, u), u * 4096, dst, src[..n + k])
    {
      assert Lookup(mem, r, u) == Lookup(s.mem, r, u) == Lookup(s0.mem, r, u);
      assert UserPage(own, Ppn(Lookup(s.mem, r, u)), r, u);
      if u == v {
        OverPiece(PageAt(s0.mem, r, u), u * 4096, dst, src, n, k);
      } else {
        OverElsewhere(PageAt(s0.mem, r, u), u * 4096, v * 4096, dst, src, n, k);
      }
    }
  }

  lemma ReachedNext(mem: Mem, r: int, dst: nat, n: nat, k: nat, v: int)
    requires Reachable(mem, r, dst, n) && Usable(mem, r, v) && (n == 0 || dst + n == v * 4096)
    requires v * 4096 <= dst + n && dst + n + k <= v * 4096 + 4096
    ensures Reachable(mem, r, dst, n + k)
  {
    hide Usable;
    forall u | dst / 4096 <= u && u * 4096 < dst + n + k ensures Usable(mem, r, u) {
      if u * 4096 >= dst + n || n == 0 {
        assert u == v;
      }
    }
  }
}
