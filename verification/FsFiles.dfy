/**
 Files as byte sequences over the block structure: bmap, the body of writei, itrunc, and
 what they do to the bytes of every file and to the invariant of FsBlocks.
 */
module FsFiles {
  import opened FsBlocks

  // ---- balloc and bmap

  /** The first unmarked block at or after k, or the size of the bitmap. */
  function FirstFree(marked: seq<bool>, k: nat): (b: int)
    requires k <= |marked|
    ensures k <= b <= |marked| && (b < |marked| ==> !marked[b])
    ensures forall a :: k <= a < b ==> marked[a]
    decreases |marked| - k
  {
    if k == |marked| || !marked[k] then k else FirstFree(marked, k + 1)
  }

  /** A state with an address found in it and the blocks logged on the way, or no space. */
  datatype Mapped = Full | Mapped(s: Fs, addr: int, log: set<int>)

  function Balloc(sb: Super, s: Fs): Mapped
    requires |s.marked| == |s.blocks|
  {
    var b := FirstFree(s.marked, 0);
    if b == |s.marked| then Full else Mapped(Alloc(s, b), b, {BitmapBlock(sb, b), b})
  }

  /** Fill slot t with a new block unless it has one. */
  ghost function Ensure(sb: Super, s: Fs, t: Slot): (m: Mapped)
    requires Shaped(sb, s) && sb.size < 0x1_0000_0000 && ValidSlot(|s.inodes|, t)
    ensures m.Mapped? ==> Shaped(sb, m.s) && |m.s.inodes| == |s.inodes|
  {
    if Addr(s, t) != 0 then Mapped(s, Addr(s, t), {})
    else
      match Balloc(sb, s)
      case Full => Full
      case Mapped(s1, b, log) => Mapped(SetSlot(s1, t, b), b, log)
  }

  /** bmap: the address of block bn of file i, allocating it and the indirect table on demand. */
  ghost function Bmap(sb: Super, s: Fs, i: int, bn: int): Mapped
    requires Shaped(sb, s) && sb.size < 0x1_0000_0000 && 0 <= i < |s.inodes| && 0 <= bn < MAXFILE
  {
    if bn < NDIRECT then Ensure(sb, s, Direct(i, bn))
    else
      match Ensure(sb, s, Table(i))
      case Full => Full
      case Mapped(s1, table, log1) =>
        var t := Entry(i, bn - NDIRECT);
        match Ensure(sb, s1, t)
        case Full => Full
        case Mapped(s2, b, log2) =>
          Mapped(s2, b, log1 + log2 + if Addr(s1, t) == 0 then {table} else {})
  }

  // ---- bytes

  /** The block that holds byte p of a file, and the position in it. */
  function BlockNo(p: int): int { p / BSIZE }
  function InBlock(p: int): int { p % BSIZE }

  lemma BlockRange(p: int)
    requires 0 <= p < MAXFILE * BSIZE
    ensures 0 <= BlockNo(p) < MAXFILE && 0 <= InBlock(p) < BSIZE && p == BlockNo(p) * BSIZE + InBlock(p)
  {
  }

  /** Byte p of file i; a block that is not there reads as zeros. */
  function ByteAt(s: Fs, i: int, p: int): Byte
    requires 0 <= i < |s.inodes| && 0 <= p < MAXFILE * BSIZE
  {
    var a := Addr(s, BlockSlot(i, BlockNo(p)));
    if 0 < a < |s.blocks| then s.blocks[a][InBlock(p)] else 0
  }

  /** The two states have the same files, byte for byte, past the end included. */
  ghost predicate SameBytes(s: Fs, s': Fs) {
    && |s'.inodes| == |s.inodes|
    && forall i, p :: 0 <= i < |s.inodes| && 0 <= p < MAXFILE * BSIZE ==> ByteAt(s', i, p) == ByteAt(s, i, p)
  }

  /** Only addresses of inode i may differ. */
  ghost predicate SameInodes(s: Fs, s': Fs, i: int) {
    && |s'.inodes| == |s.inodes|
    && (forall j :: 0 <= j < |s.inodes| && j != i ==> s'.inodes[j] == s.inodes[j])
    && (0 <= i < |s.inodes| ==> s'.inodes[i] == s.inodes[i].(addrs := s'.inodes[i].addrs))
  }

  /** Slots that hold an address keep it. */
  ghost predicate Grown(s: Fs, s': Fs) {
    && |s'.inodes| == |s.inodes|
    && forall t :: ValidSlot(|s.inodes|, t) && Addr(s, t) != 0 ==> Addr(s', t) == Addr(s, t)
  }

  lemma EnsureAddrs(sb: Super, s: Fs, owner: Owner, t: Slot, u: Slot)
    requires Owned(sb, s, owner, {}) && ValidSlot(|s.inodes|, t) && ValidSlot(|s.inodes|, u)
    requires t.Entry? ==> Addr(s, Table(t.i)) != 0
    requires Ensure(sb, s, t).Mapped?
    ensures
      var m := Ensure(sb, s, t);
      && |m.s.inodes| == |s.inodes| && Addr(m.s, t) == m.addr
      && Addr(m.s, u) == (if u == t then m.addr else Addr(s, u))
  {
    if Addr(s, t) == 0 {
      var b := FirstFree(s.marked, 0);
      AllocOwned(sb, s, owner, {}, b);
      AllocAddr(sb, s, owner, {}, b, t);
      AllocAddr(sb, s, owner, {}, b, u);
      if t.Entry? {
        AllocAddr(sb, s, owner, {}, b, Table(t.i));
      }
      hide Owned;
      SetSlotAddr(sb, Alloc(s, b), owner, {} + {b}, t, b, u);
      SetSlotAddr(sb, Alloc(s, b), owner, {} + {b}, t, b, t);
    }
  }

  /** Filling a slot keeps the ownership invariant, whatever the slot. */
  lemma EnsureOwned(sb: Super, s: Fs, owner: Owner, t: Slot) returns (owner': Owner)
    requires Owned(sb, s, owner, {}) && ValidSlot(|s.inodes|, t)
    requires t.Entry? ==> Addr(s, Table(t.i)) != 0
    requires Ensure(sb, s, t).Mapped?
    ensures
      var m := Ensure(sb, s, t);
      && Owned(sb, m.s, owner', {}) && sb.datastart <= m.addr < sb.size && SameInodes(s, m.s, t.i)
  {
    if Addr(s, t) != 0 {
      owner' := owner;
      assert Addr(s, t) in owner;
    } else {
      var b := FirstFree(s.marked, 0);
      AllocOwned(sb, s, owner, {}, b);
      AllocAddr(sb, s, owner, {}, b, t);
      if t.Entry? {
        AllocAddr(sb, s, owner, {}, b, Table(t.i));
      }
      hide Held, Holds, Marks;
      AttachOwned(sb, Alloc(s, b), owner, {} + {b}, t, b);
      owner' := owner[b := t];
      assert {} + {b} - {b} == {};
    }
  }

  /** A block owned as file data is untouched when a slot is filled; a new block is zero. */
  lemma EnsureBlocks(sb: Super, s: Fs, owner: Owner, t: Slot, a: int)
    requires Owned(sb, s, owner, {}) && ValidSlot(|s.inodes|, t)
    requires t.Entry? ==> Addr(s, Table(t.i)) != 0
    requires Ensure(sb, s, t).Mapped?
    ensures
      var m := Ensure(sb, s, t);
      && (a in owner && !owner[a].Table? ==> 0 < a < |s.blocks| && m.s.blocks[a] == s.blocks[a])
      && (Addr(s, t) == 0 && 0 < m.addr < |s.blocks| ==> m.s.blocks[m.addr] == ZeroBytes())
  {
    hide Marks;
    if Addr(s, t) == 0 {
      var b := FirstFree(s.marked, 0);
      AllocOwned(sb, s, owner, {}, b);
      if t.Entry? {
        assert Addr(s, Table(t.i)) in owner && owner[Addr(s, Table(t.i))] == Table(t.i);
        AllocAddr(sb, s, owner, {}, b, Table(t.i));
      }
    }
  }

  lemma EnsureByte(sb: Super, s: Fs, owner: Owner, t: Slot, j: int, p: int)
    requires Owned(sb, s, owner, {}) && ValidSlot(|s.inodes|, t)
    requires t.Entry? ==> Addr(s, Table(t.i)) != 0
    requires Ensure(sb, s, t).Mapped? && 0 <= j < |s.inodes| && 0 <= p < MAXFILE * BSIZE
    ensures ByteAt(Ensure(sb, s, t).s, j, p) == ByteAt(s, j, p)
  {
    var u := BlockSlot(j, BlockNo(p));
    var a := Addr(s, u);
    EnsureAddrs(sb, s, owner, t, u);
    EnsureBlocks(sb, s, owner, t, a);
    assert a != 0 ==> a in owner && owner[a] == u;
  }

  lemma EnsureKeeps(sb: Super, s: Fs, owner: Owner, t: Slot)
    requires Owned(sb, s, owner, {}) && ValidSlot(|s.inodes|, t)
    requires t.Entry? ==> Addr(s, Table(t.i)) != 0
    requires Ensure(sb, s, t).Mapped?
    ensures var m := Ensure(sb, s, t); SameBytes(s, m.s) && Grown(s, m.s) && Addr(m.s, t) == m.addr
  {
    hide Held, Holds, Marks;
    var m := Ensure(sb, s, t);
    forall j, p | 0 <= j < |s.inodes| && 0 <= p < MAXFILE * BSIZE ensures ByteAt(m.s, j, p) == ByteAt(s, j, p) {
      EnsureByte(sb, s, owner, t, j, p);
    }
    forall u | ValidSlot(|s.inodes|, u) && Addr(s, u) != 0 ensures Addr(m.s, u) == Addr(s, u) {
      EnsureAddrs(sb, s, owner, t, u);
    }
    EnsureAddrs(sb, s, owner, t, t);
  }

  /**
   bmap keeps the ownership invariant and every byte of every file, takes no address from
   any slot, and returns the address that block bn of file i has from then on.
   */
  lemma BmapSound(sb: Super, s: Fs, owner: Owner, i: int, bn: int) returns (owner': Owner)
    requires Owned(sb, s, owner, {}) && 0 <= i < |s.inodes| && 0 <= bn < MAXFILE
    requires Bmap(sb, s, i, bn).Mapped?
    ensures
      var m := Bmap(sb, s, i, bn);
      && Owned(sb, m.s, owner', {}) && SameInodes(s, m.s, i) && SameBytes(s, m.s) && Grown(s, m.s)
      && Addr(m.s, BlockSlot(i, bn)) == m.addr && 0 < sb.datastart <= m.addr < sb.size
  {
    hide Held, Holds, Marks, ByteAt, Addr, Ensure;
    if bn < NDIRECT {
      EnsureKeeps(sb, s, owner, Direct(i, bn));
      owner' := EnsureOwned(sb, s, owner, Direct(i, bn));
    } else {
      var m1 := Ensure(sb, s, Table(i));
      EnsureKeeps(sb, s, owner, Table(i));
      var owner1 := EnsureOwned(sb, s, owner, Table(i));
      EnsureKeeps(sb, m1.s, owner1, Entry(i, bn - NDIRECT));
      owner' := EnsureOwned(sb, m1.s, owner1, Entry(i, bn - NDIRECT));
    }
  }

  // ---- writing into a block

  /** Store `data` at position lo of block a. */
  function Patch(s: Fs, a: int, lo: int, data: seq<Byte>): (r: Fs)
    requires 0 <= a < |s.blocks| && 0 <= lo && lo + |data| <= BSIZE
    ensures r.inodes == s.inodes && r.marked == s.marked && |r.blocks| == |s.blocks|
  {
    s.(blocks := s.blocks[a := s.blocks[a][..lo] + data + s.blocks[a][lo + |data|..]])
  }

  lemma PatchAddr(sb: Super, s: Fs, owner: Owner, i: int, bn: int, lo: int, data: seq<Byte>, t: Slot)
    requires Owned(sb, s, owner, {}) && 0 <= i < |s.inodes| && 0 <= bn < MAXFILE && Addr(s, BlockSlot(i, bn)) != 0
    requires 0 <= lo && lo + |data| <= BSIZE && ValidSlot(|s.inodes|, t)
    ensures 0 < Addr(s, BlockSlot(i, bn)) < |s.blocks|
    ensures Addr(Patch(s, Addr(s, BlockSlot(i, bn)), lo, data), t) == Addr(s, t)
  {
    hide Marks;
    var a := Addr(s, BlockSlot(i, bn));
    assert a in owner && owner[a] == BlockSlot(i, bn);
    if t.Entry? {
      assert Addr(s, Table(t.i)) != a;
    }
  }

  lemma PatchOwned(sb: Super, s: Fs, owner: Owner, i: int, bn: int, lo: int, data: seq<Byte>)
    requires Owned(sb, s, owner, {}) && 0 <= i < |s.inodes| && 0 <= bn < MAXFILE && Addr(s, BlockSlot(i, bn)) != 0
    requires 0 <= lo && lo + |data| <= BSIZE
    ensures 0 < Addr(s, BlockSlot(i, bn)) < |s.blocks|
    ensures var s' := Patch(s, Addr(s, BlockSlot(i, bn)), lo, data); Owned(sb, s', owner, {}) && Grown(s, s')
  {
    PatchAddr(sb, s, owner, i, bn, lo, data, BlockSlot(i, bn));
    var s' := Patch(s, Addr(s, BlockSlot(i, bn)), lo, data);
    forall t | ValidSlot(|s.inodes|, t) ensures Addr(s', t) == Addr(s, t) {
      PatchAddr(sb, s, owner, i, bn, lo, data, t);
    }
  }

  /** Writing into block bn of file i changes exactly those bytes of that file. */
  lemma PatchByte(sb: Super, s: Fs, owner: Owner, i: int, bn: int, lo: int, data: seq<Byte>,
          j: int, p: int)
    requires Owned(sb, s, owner, {}) && 0 <= i < |s.inodes| && 0 <= bn < MAXFILE && Addr(s, BlockSlot(i, bn)) != 0
    requires 0 <= lo && lo + |data| <= BSIZE && 0 <= j < |s.inodes| && 0 <= p < MAXFILE * BSIZE
    ensures 0 < Addr(s, BlockSlot(i, bn)) < |s.blocks|
    ensures
      var s', at := Patch(s, Addr(s, BlockSlot(i, bn)), lo, data), bn * BSIZE + lo;
      ByteAt(s', j, p) == if j == i && at <= p < at + |data| then data[p - at] else ByteAt(s, j, p)
  {
    var u := BlockSlot(j, BlockNo(p));
    var t := BlockSlot(i, bn);
    PatchAddr(sb, s, owner, i, bn, lo, data, u);
    hide Marks, Addr;
    assert Addr(s, u) == Addr(s, t) ==> u == t;
    assert u == t <==> j == i && BlockNo(p) == bn;
  }

  // ---- the body of writei

  function Min(a: int, b: int): int {
    if a < b then a else b
  }

  /** Bytes [off, off + tot) of file i are src[..tot]; every other byte of every file is as in s0. */
  ghost predicate Spliced(s0: Fs, s: Fs, i: int, off: int, src: seq<Byte>, tot: int)
    requires 0 <= off && 0 <= tot <= |src| && off + |src| <= MAXFILE * BSIZE
  {
    && |s.inodes| == |s0.inodes|
    && forall j, p :: 0 <= j < |s0.inodes| && 0 <= p < MAXFILE * BSIZE ==>
         ByteAt(s, j, p) == if j == i && off <= p < off + tot then src[p - off] else ByteAt(s0, j, p)
  }

  /** The blocks of bytes [off, off + tot) of file i are allocated. */
  ghost predicate Backed(s: Fs, i: int, off: int, tot: int)
    requires 0 <= i < |s.inodes| && 0 <= off && off + tot <= MAXFILE * BSIZE
  {
    forall p :: off <= p < off + tot ==> Addr(s, BlockSlot(i, BlockNo(p))) != 0
  }

  lemma SplicedNext(sb: Super, s0: Fs, s: Fs, s1: Fs, owner: Owner, i: int, off: int,
          src: seq<Byte>, tot: int, m: int)
    requires 0 <= off && 0 <= tot < tot + m <= |src| && off + |src| <= MAXFILE * BSIZE
    requires Owned(sb, s1, owner, {}) && 0 <= i < |s0.inodes|
    requires Spliced(s0, s, i, off, src, tot) && SameBytes(s, s1)
    requires var at := off + tot; InBlock(at) + m <= BSIZE && Addr(s1, BlockSlot(i, BlockNo(at))) != 0
    ensures
      var at := off + tot;
      && 0 < Addr(s1, BlockSlot(i, BlockNo(at))) < |s1.blocks|
      && Spliced(s0, Patch(s1, Addr(s1, BlockSlot(i, BlockNo(at))), InBlock(at), src[tot..tot + m]), i, off, src,
            tot + m)
  {
    hide ByteAt, Addr, Owned;
    var at := off + tot;
    PatchByte(sb, s1, owner, i, BlockNo(at), InBlock(at), src[tot..tot + m], i, 0);
    var s' := Patch(s1, Addr(s1, BlockSlot(i, BlockNo(at))), InBlock(at), src[tot..tot + m]);
    forall j, p | 0 <= j < |s0.inodes| && 0 <= p < MAXFILE * BSIZE
      ensures ByteAt(s', j, p) == if j == i && off <= p < off + tot + m then src[p - off] else ByteAt(s0, j, p)
    {
      PatchByte(sb, s1, owner, i, BlockNo(at), InBlock(at), src[tot..tot + m], j, p);
    }
  }

  lemma BackedNext(s: Fs, s1: Fs, s2: Fs, i: int, off: int, tot: int, m: int)
    requires 0 <= i < |s.inodes| && 0 <= off && 0 <= tot && 0 < m && off + tot + m <= MAXFILE * BSIZE
    requires InBlock(off + tot) + m <= BSIZE
    requires Backed(s, i, off, tot) && Grown(s, s1) && Grown(s1, s2)
    requires Addr(s1, BlockSlot(i, BlockNo(off + tot))) != 0
    ensures Backed(s2, i, off, tot + m)
  {
    hide Addr;
    forall p | off <= p < off + tot + m ensures Addr(s2, BlockSlot(i, BlockNo(p))) != 0 {
      if p >= off + tot {
        assert BlockNo(p) == BlockNo(off + tot);
      }
    }
  }

  // ---- the invariant of a quiet file system

  const MAXBYTES: int := MAXFILE * BSIZE

  /** Every block below a file's size is allocated. */
  ghost predicate Covered(s: Fs) {
    forall i :: 0 <= i < |s.inodes| ==>
      0 <= s.inodes[i].size <= MAXBYTES && Backed(s, i, 0, s.inodes[i].size)
  }

  /** A free inode holds no block. */
  ghost predicate FreeInodesEmpty(s: Fs) {
    forall i :: 0 <= i < |s.inodes| && s.inodes[i].kind == 0 ==>
      s.inodes[i].size == 0 && forall k :: 0 <= k < |s.inodes[i].addrs| ==> s.inodes[i].addrs[k] == 0
  }

  ghost predicate FsInv(sb: Super, s: Fs, owner: Owner) {
    Owned(sb, s, owner, {}) && Covered(s) && FreeInodesEmpty(s)
  }

  /** A file as its readers see it. */
  ghost function Contents(s: Fs, i: int): (c: seq<Byte>)
    requires 0 <= i < |s.inodes| && 0 <= s.inodes[i].size <= MAXBYTES
    ensures |c| == s.inodes[i].size
  {
    seq(s.inodes[i].size, p requires 0 <= p < s.inodes[i].size => ByteAt(s, i, p))
  }

  function Splice(c: seq<Byte>, off: int, d: seq<Byte>): seq<Byte>
    requires 0 <= off <= |c|
  {
    c[..off] + d + if off + |d| < |c| then c[off + |d|..] else []
  }

  /** No other file changed: neither its inode nor a byte of it. */
  ghost predicate OthersKept(s: Fs, s': Fs, i: int)
    requires Covered(s)
  {
    && |s'.inodes| == |s.inodes|
    && forall j :: 0 <= j < |s.inodes| && j != i ==> s'.inodes[j] == s.inodes[j] && Contents(s', j) == Contents(s, j)
  }

  function SetInode(s: Fs, i: int, ip: Dinode): Fs
    requires 0 <= i < |s.inodes|
  {
    s.(inodes := s.inodes[i := ip])
  }

  /** Addresses do not depend on type, size or link count. */
  lemma SetInodeAddr(s: Fs, i: int, ip: Dinode, t: Slot)
    requires 0 <= i < |s.inodes| && ip.addrs == s.inodes[i].addrs && ValidSlot(|s.inodes|, t)
    ensures Addr(SetInode(s, i, ip), t) == Addr(s, t)
  {
  }

  lemma SetInodeOwned(sb: Super, s: Fs, owner: Owner, i: int, ip: Dinode)
    requires Owned(sb, s, owner, {}) && 0 <= i < |s.inodes| && ip.addrs == s.inodes[i].addrs
    ensures var s' := SetInode(s, i, ip); Owned(sb, s', owner, {}) && Grown(s, s') && SameBytes(s, s')
  {
    var s' := SetInode(s, i, ip);
    forall t | ValidSlot(|s.inodes|, t) ensures Addr(s', t) == Addr(s, t) {
      SetInodeAddr(s, i, ip, t);
    }
  }

  lemma BackedGrown(s: Fs, s': Fs, i: int, off: int, tot: int)
    requires 0 <= i < |s.inodes| && 0 <= off && off + tot <= MAXFILE * BSIZE
    requires Backed(s, i, off, tot) && Grown(s, s')
    ensures Backed(s', i, off, tot)
  {
  }

  // ---- writei

  /** writei's last step: the size grows to the end of the data written. */
  function Resized(s: Fs, i: int, end: int): Fs
    requires 0 <= i < |s.inodes|
  {
    if end > s.inodes[i].size then SetInode(s, i, s.inodes[i].(size := end)) else s
  }

  /** What holds between the iterations of writei's loop. */
  ghost predicate Writing(sb: Super, s0: Fs, s: Fs, owner: Owner, i: int, off: int, src: seq<Byte>, tot: int) {
    && 0 <= off && 0 <= tot <= |src| && off + |src| <= MAXBYTES && 0 <= i < |s0.inodes|
    && Owned(sb, s, owner, {}) && SameInodes(s0, s, i) && Grown(s0, s)
    && Spliced(s0, s, i, off, src, tot) && Backed(s, i, off, tot)
  }

  lemma WritingStart(sb: Super, s: Fs, owner: Owner, i: int, off: int, src: seq<Byte>)
    requires Owned(sb, s, owner, {}) && 0 <= off && off + |src| <= MAXBYTES && 0 <= i < |s.inodes|
    ensures Writing(sb, s, s, owner, i, off, src, 0)
  {
    hide Owned;
  }

  /** How many bytes the iteration at tot copies. */
  function ChunkLen(off: int, n: int, tot: int): int {
    Min(n - tot, BSIZE - InBlock(off + tot))
  }

  lemma ChunkRange(off: int, n: int, tot: int)
    requires 0 <= off && 0 <= tot < n && off + n <= MAXBYTES
    ensures 0 <= BlockNo(off + tot) < MAXFILE && 0 <= InBlock(off + tot) < BSIZE
    ensures 0 < ChunkLen(off, n, tot) && tot + ChunkLen(off, n, tot) <= n
    ensures InBlock(off + tot) + ChunkLen(off, n, tot) <= BSIZE
  {
    BlockRange(off + tot);
  }

  /** One iteration of writei: bmap, then the copy into the block, which is logged. */
  ghost function Stepped(sb: Super, s: Fs, i: int, off: int, src: seq<Byte>, tot: int): Mapped
    requires Shaped(sb, s) && sb.size < 0x1_0000_0000 && 0 <= i < |s.inodes|
    requires 0 <= off && 0 <= tot < |src| && off + |src| <= MAXBYTES
  {
    ChunkRange(off, |src|, tot);
    match Bmap(sb, s, i, BlockNo(off + tot))
    case Full => Full
    case Mapped(s1, a, log) =>
      if !(0 <= a < |s1.blocks|) then Full
      else
        var data := src[tot..tot + ChunkLen(off, |src|, tot)];
        Mapped(Patch(s1, a, InBlock(off + tot), data), a, log + {a})
  }

  lemma WritingNext(sb: Super, s0: Fs, s: Fs, owner: Owner, i: int, off: int, src: seq<Byte>,
          tot: int)
      returns (owner': Owner)
    requires Writing(sb, s0, s, owner, i, off, src, tot) && tot < |src|
    requires Stepped(sb, s, i, off, src, tot).Mapped?
    ensures |Stepped(sb, s, i, off, src, tot).s.inodes| == |s0.inodes|
    ensures Writing(sb, s0, Stepped(sb, s, i, off, src, tot).s, owner', i, off, src, tot + ChunkLen(off, |src|, tot))
  {
    var at := off + tot;
    var m := ChunkLen(off, |src|, tot);
    ChunkRange(off, |src|, tot);
    hide Bmap, Held, Holds, Marks, ByteAt, Addr, Spliced, Backed, Grown, SameInodes, SameBytes, BlockSlot, BlockNo,
         InBlock, Patch, ChunkLen;
    var r := Bmap(sb, s, i, BlockNo(at));
    owner' := BmapSound(sb, s, owner, i, BlockNo(at));
    var s' := Patch(r.s, r.addr, InBlock(at), src[tot..tot + m]);
    PatchOwned(sb, r.s, owner', i, BlockNo(at), InBlock(at), src[tot..tot + m]);
    SameInodesCount(s, r.s, i);
    SameInodesCount(s0, s, i);
    SplicedNext(sb, s0, s, r.s, owner', i, off, src, tot, m);
    BackedNext(s, r.s, s', i, off, tot, m);
    KeptThrough(s0, s, r.s, s', i);
  }

  /** What Stepped is, in terms of what Bmap returned. */
  lemma SteppedIs(sb: Super, s: Fs, owner: Owner, i: int, off: int, src: seq<Byte>, tot: int)
    requires Owned(sb, s, owner, {}) && 0 <= i < |s.inodes|
    requires 0 <= off && 0 <= tot < |src| && off + |src| <= MAXBYTES
    requires 0 <= BlockNo(off + tot) < MAXFILE && Bmap(sb, s, i, BlockNo(off + tot)).Mapped?
    ensures
      var r := Bmap(sb, s, i, BlockNo(off + tot));
      && 0 <= r.addr < |r.s.blocks|
      && 0 <= InBlock(off + tot) && InBlock(off + tot) + ChunkLen(off, |src|, tot) <= BSIZE
      && 0 < ChunkLen(off, |src|, tot) && tot + ChunkLen(off, |src|, tot) <= |src|
      && Stepped(sb, s, i, off, src, tot) ==
         Mapped(Patch(r.s, r.addr, InBlock(off + tot), src[tot..tot + ChunkLen(off, |src|, tot)]), r.addr,
             r.log + {r.addr})
  {
    hide Held, Holds, Marks, Bmap, Patch, BlockNo, InBlock, ChunkLen;
    ChunkRange(off, |src|, tot);
    var owner' := BmapSound(sb, s, owner, i, BlockNo(off + tot));
  }

  lemma SameInodesCount(s: Fs, s': Fs, i: int)
    requires SameInodes(s, s', i)
    ensures |s'.inodes| == |s.inodes|
  {
  }

  lemma KeptThrough(s0: Fs, s: Fs, s1: Fs, s2: Fs, i: int)
    requires SameInodes(s0, s, i) && SameInodes(s, s1, i) && s2.inodes == s1.inodes
    requires Grown(s0, s) && Grown(s, s1) && Grown(s1, s2)
    ensures SameInodes(s0, s2, i) && Grown(s0, s2)
  {
    hide Addr;
  }

  /** After the last iteration and the size update, the file is the old one with src spliced in. */
  lemma WritingDone(sb: Super, s0: Fs, s: Fs, owner0: Owner, owner: Owner, i: int, off: int,
          src: seq<Byte>)
    requires FsInv(sb, s0, owner0) && Writing(sb, s0, s, owner, i, off, src, |src|)
    requires off <= s0.inodes[i].size && s0.inodes[i].kind != 0
    ensures
      var s' := Resized(s, i, off + |src|);
      && FsInv(sb, s', owner)
      && Contents(s', i) == Splice(Contents(s0, i), off, src) && OthersKept(s0, s', i)
      && s'.inodes[i].kind == s0.inodes[i].kind && s'.inodes[i].nlink == s0.inodes[i].nlink
  {
    var s' := Resized(s, i, off + |src|);
    hide Held, Holds, Marks, Addr, ByteAt, Spliced, Backed, SameBytes;
    SetInodeOwned(sb, s, owner, i, s'.inodes[i]);
    assert s' == SetInode(s, i, s'.inodes[i]);
    WrittenContents(s0, s, s', i, off, src);
    forall j | 0 <= j < |s0.inodes| ensures Backed(s', j, 0, s'.inodes[j].size) {
      WrittenBacked(s0, s, s', i, off, |src|, j);
    }
  }

  lemma WrittenContents(s0: Fs, s: Fs, s': Fs, i: int, off: int, src: seq<Byte>)
    requires Covered(s0) && 0 <= i < |s0.inodes| && 0 <= off <= s0.inodes[i].size && off + |src| <= MAXBYTES
    requires SameInodes(s0, s, i) && Spliced(s0, s, i, off, src, |src|) && SameBytes(s, s')
    requires s' == Resized(s, i, off + |src|)
    ensures Contents(s', i) == Splice(Contents(s0, i), off, src) && OthersKept(s0, s', i)
  {
    hide ByteAt, Backed;
    forall j | 0 <= j < |s0.inodes| && j != i ensures Contents(s', j) == Contents(s0, j) {
    }
  }

  lemma WrittenBacked(s0: Fs, s: Fs, s': Fs, i: int, off: int, n: int, j: int)
    requires Covered(s0) && 0 <= i < |s0.inodes| && 0 <= j < |s0.inodes| && 0 <= n && 0 <= off <= s0.inodes[i].size
    requires off + n <= MAXBYTES
    requires Grown(s0, s) && Grown(s, s') && Backed(s, i, off, n)
    requires s'.inodes[j].size == if j == i && off + n > s0.inodes[j].size then off + n else s0.inodes[j].size
    ensures Backed(s', j, 0, s'.inodes[j].size)
  {
    hide Addr;
    forall p | 0 <= p < s'.inodes[j].size ensures Addr(s', BlockSlot(j, BlockNo(p))) != 0 {
      if p < s0.inodes[j].size {
        assert Addr(s0, BlockSlot(j, BlockNo(p))) != 0;
      } else {
        assert Addr(s, BlockSlot(i, BlockNo(p))) != 0;
      }
    }
  }
}
