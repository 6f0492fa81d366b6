/**
 The block structure of the file system (kernel/fs.c, kernel/fs.h): the free bitmap, inodes
 with direct and indirect addresses, and block contents, as the current transaction sees
 them. Every place that can hold a block address is a slot; the invariant says that a
 non-zero address is a data block in range, marked in use, and held by exactly one slot.
 */
module FsBlocks {

  const BSIZE: int := 1024
  const NDIRECT: int := 12
  const NINDIRECT: int := 256
  const MAXFILE: int := NDIRECT + NINDIRECT
  const BPB: int := 8192
  const IPB: int := 16

  type Byte = x: int | 0 <= x < 256

  type Bytes = b: seq<Byte> | |b| == BSIZE witness seq(BSIZE, _ => 0)

  /** The layout mkfs writes: metadata occupies the blocks below `datastart`. */
  datatype Super = Super(size: nat, ninodes: nat, inodestart: nat, bmapstart: nat, datastart: nat)

  ghost predicate ValidSuper(sb: Super) {
    0 < sb.datastart <= sb.size < 0x1_0000_0000
  }

  /** IBLOCK and BBLOCK */
  function InodeBlock(sb: Super, i: int): int { i / IPB + sb.inodestart }
  function BitmapBlock(sb: Super, b: int): int { b / BPB + sb.bmapstart }

  /** `kind` is the type field, 0 for a free inode; addrs[NDIRECT] is the indirect table. */
  datatype Dinode = Dinode(kind: int, nlink: int, size: int, addrs: seq<int>)

  datatype Fs = Fs(marked: seq<bool>, blocks: seq<Bytes>, inodes: seq<Dinode>)

  ghost predicate Shaped(sb: Super, s: Fs) {
    && |s.marked| == |s.blocks| == sb.size
    && forall i :: 0 <= i < |s.inodes| ==> |s.inodes[i].addrs| == NDIRECT + 1
  }

  // ---- words of a block

  function Word(b: Bytes, j: int): int
    requires 0 <= j < NINDIRECT
  {
    (b[4 * j] as int) + 0x100 * (b[4 * j + 1] as int) + 0x1_0000 * (b[4 * j + 2] as int)
        + 0x100_0000 * (b[4 * j + 3] as int)
  }

  function SetWord(b: Bytes, j: int, w: int): Bytes
    requires 0 <= j < NINDIRECT && 0 <= w < 0x1_0000_0000
  {
    b[4 * j := w % 0x100][4 * j + 1 := w / 0x100 % 0x100]
      [4 * j + 2 := w / 0x1_0000 % 0x100][4 * j + 3 := w / 0x100_0000]
  }

  lemma WordBytes(w: int)
    requires 0 <= w < 0x1_0000_0000
    ensures w == w % 0x100 + 0x100 * (w / 0x100 % 0x100) + 0x1_0000 * (w / 0x1_0000 % 0x100)
            + 0x100_0000 * (w / 0x100_0000)
  {
    var h := w / 0x100;
    assert w / 0x1_0000 == h / 0x100;
    assert w / 0x100_0000 == h / 0x100 / 0x100;
  }

  lemma SetWordWord(b: Bytes, j: int, w: int, k: int)
    requires 0 <= j < NINDIRECT && 0 <= k < NINDIRECT && 0 <= w < 0x1_0000_0000
    ensures Word(SetWord(b, j, w), k) == if k == j then w else Word(b, k)
  {
    WordBytes(w);
  }

  function ZeroBytes(): Bytes {
    seq(BSIZE, _ => 0)
  }

  // ---- slots

  datatype Slot = Direct(i: int, k: int) | Table(i: int) | Entry(i: int, j: int)

  predicate ValidSlot(n: nat, t: Slot) {
    && 0 <= t.i < n
    && (t.Direct? ==> 0 <= t.k < NDIRECT)
    && (t.Entry? ==> 0 <= t.j < NINDIRECT)
  }

  function TableAddr(s: Fs, i: int): int
    requires 0 <= i < |s.inodes|
  {
    if |s.inodes[i].addrs| == NDIRECT + 1 then s.inodes[i].addrs[NDIRECT] else 0
  }

  /** The address a slot holds; 0 means none. */
  function Addr(s: Fs, t: Slot): int
    requires ValidSlot(|s.inodes|, t)
  {
    match t
    case Direct(i, k) => if k < |s.inodes[i].addrs| then s.inodes[i].addrs[k] else 0
    case Table(i) => TableAddr(s, i)
    case Entry(i, j) =>
      var a := TableAddr(s, i);
      if 0 < a < |s.blocks| then Word(s.blocks[a], j) else 0
  }

  /** The slot of block bn of file i, as bmap finds it. */
  function BlockSlot(i: int, bn: int): Slot {
    if bn < NDIRECT then Direct(i, bn) else Entry(i, bn - NDIRECT)
  }

  type Owner = map<int, Slot>

  /** Every non-zero address belongs to the slot that holds it, and to no other. */
  ghost predicate Held(s: Fs, owner: Owner) {
    forall t :: ValidSlot(|s.inodes|, t) && Addr(s, t) != 0 ==>
      Addr(s, t) in owner && owner[Addr(s, t)] == t
  }

  ghost predicate Holds(sb: Super, s: Fs, owner: Owner) {
    forall a :: a in owner ==>
      && sb.datastart <= a < sb.size
      && ValidSlot(|s.inodes|, owner[a]) && Addr(s, owner[a]) == a
  }

  /** A block is marked exactly when it is metadata, owned, or just being allocated or freed. */
  ghost predicate Marks(sb: Super, s: Fs, owner: Owner, extra: set<int>) {
    forall a {:trigger s.marked[a]} :: 0 <= a < |s.marked| ==>
      (s.marked[a] <==> a < sb.datastart || a in owner || a in extra)
  }

  ghost predicate Owned(sb: Super, s: Fs, owner: Owner, extra: set<int>) {
    && ValidSuper(sb) && Shaped(sb, s)
    && Held(s, owner) && Holds(sb, s, owner) && Marks(sb, s, owner, extra)
  }

  // ---- allocating

  function Alloc(s: Fs, b: int): Fs
    requires 0 <= b < |s.marked| == |s.blocks|
  {
    s.(marked := s.marked[b := true], blocks := s.blocks[b := ZeroBytes()])
  }

  /** Zeroing a block no slot holds changes no address. */
  lemma AllocAddr(sb: Super, s: Fs, owner: Owner, extra: set<int>, b: int, t: Slot)
    requires Owned(sb, s, owner, extra) && 0 <= b < sb.size && !s.marked[b] && ValidSlot(|s.inodes|, t)
    ensures Addr(Alloc(s, b), t) == Addr(s, t) != b && b !in owner
  {
    assert b !in owner;
    if t.Entry? {
      assert Addr(s, Table(t.i)) != b;
    }
  }

  lemma AllocOwned(sb: Super, s: Fs, owner: Owner, extra: set<int>, b: int)
    requires Owned(sb, s, owner, extra) && 0 <= b < sb.size && !s.marked[b]
    ensures sb.datastart <= b && b !in owner && Owned(sb, Alloc(s, b), owner, extra + {b})
  {
    hide Marks;
    AllocMarks(sb, s, owner, extra, b);
    var s' := Alloc(s, b);
    forall t | ValidSlot(|s.inodes|, t) ensures Addr(s', t) == Addr(s, t) {
      AllocAddr(sb, s, owner, extra, b, t);
    }
  }

  lemma AllocMarks(sb: Super, s: Fs, owner: Owner, extra: set<int>, b: int)
    requires |s.marked| == |s.blocks| == sb.size && Marks(sb, s, owner, extra) && 0 <= b < sb.size && !s.marked[b]
    ensures sb.datastart <= b && b !in owner && Marks(sb, Alloc(s, b), owner, extra + {b})
  {
    var s' := Alloc(s, b);
    forall a | 0 <= a < |s'.marked| ensures s'.marked[a] <==> a < sb.datastart || a in owner || a in extra + {b} {
      assert s.marked[a] <==> a < sb.datastart || a in owner || a in extra;
    }
  }

  /** Store address b into a slot. */
  function SetSlot(s: Fs, t: Slot, b: int): Fs
    requires ValidSlot(|s.inodes|, t) && |s.inodes[t.i].addrs| == NDIRECT + 1 && 0 <= b < 0x1_0000_0000
  {
    var ip := s.inodes[t.i];
    match t
    case Direct(i, k) => s.(inodes := s.inodes[i := ip.(addrs := ip.addrs[k := b])])
    case Table(i) => s.(inodes := s.inodes[i := ip.(addrs := ip.addrs[NDIRECT := b])])
    case Entry(i, j) =>
      var a := TableAddr(s, i);
      if 0 < a < |s.blocks| then s.(blocks := s.blocks[a := SetWord(s.blocks[a], j, b)]) else s
  }

  ghost predicate CanAttach(sb: Super, s: Fs, owner: Owner, extra: set<int>, t: Slot, b: int) {
    && Owned(sb, s, owner, extra) && ValidSlot(|s.inodes|, t) && Addr(s, t) == 0
    && sb.datastart <= b < sb.size && b in extra && b !in owner
    && (t.Table? ==> s.blocks[b] == ZeroBytes())
    && (t.Entry? ==> Addr(s, Table(t.i)) != 0)
  }

  /** Filling an empty slot changes the address of no other slot. */
  lemma SetSlotAddr(sb: Super, s: Fs, owner: Owner, extra: set<int>, t: Slot, b: int, u: Slot)
    requires CanAttach(sb, s, owner, extra, t, b) && ValidSlot(|s.inodes|, u)
    ensures Addr(SetSlot(s, t, b), u) == if u == t then b else Addr(s, u)
  {
    hide Marks;
    if t.Entry? && u.Entry? {
      SetWordWord(s.blocks[TableAddr(s, t.i)], t.j, b, u.j);
      if u.i != t.i {
        assert Addr(s, Table(u.i)) == 0 || Addr(s, Table(u.i)) != Addr(s, Table(t.i));
      }
    }
  }

  lemma AttachOwned(sb: Super, s: Fs, owner: Owner, extra: set<int>, t: Slot, b: int)
    requires CanAttach(sb, s, owner, extra, t, b)
    ensures Owned(sb, SetSlot(s, t, b), owner[b := t], extra - {b})
  {
    var s' := SetSlot(s, t, b);
    forall u | ValidSlot(|s.inodes|, u) ensures Addr(s', u) == if u == t then b else Addr(s, u) {
      SetSlotAddr(sb, s, owner, extra, t, b, u);
    }
    assert Marks(sb, s', owner[b := t], extra - {b}) by {
      forall a | 0 <= a < |s'.marked|
        ensures s'.marked[a] <==> a < sb.datastart || a in owner[b := t] || a in extra - {b}
      {
        assert s.marked[a] <==> a < sb.datastart || a in owner || a in extra;
      }
    }
  }
}
