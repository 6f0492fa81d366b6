/**
 mkfs/mkfs.c: the initial image. Blocks are handed out by a counter and the bitmap is written
 at the very end, so the running state stands for the file system whose bitmap marks
 everything below the counter; appending to a file is then the kernel's write at its end.
 */
module Mkfs {
  import opened FsBlocks
  import opened FsFiles
  import opened FsTruncate
  import opened FsRoom

  const FSSIZE: int := 1000
  const NINODES: int := 200
  const LOGSIZE: int := 30
  const NBITMAP: int := FSSIZE / BPB + 1
  const NINODEBLOCKS: int := NINODES / IPB + 1
  const NMETA: int := 2 + LOGSIZE + NINODEBLOCKS + NBITMAP

  /** The super block: boot block, super block, log, inodes, bitmap, then data. */
  const SUPER: Super := Super(FSSIZE, NINODES, 2 + LOGSIZE, 2 + LOGSIZE + NINODEBLOCKS, NMETA)

  /** The inode blocks hold every inode, the bitmap every block, and neither reaches its neighbour. */
  lemma LayoutFits(i: int, b: int)
    requires 0 <= i < SUPER.ninodes && 0 <= b < SUPER.size
    ensures ValidSuper(SUPER)
    ensures SUPER.inodestart <= InodeBlock(SUPER, i) < SUPER.bmapstart <= BitmapBlock(SUPER, b) < SUPER.datastart
  {
    assert i / IPB <= NINODES / IPB;
    assert b / BPB <= FSSIZE / BPB;
  }

  const ROOTINO: int := 1
  const T_DIR: int := 1
  const T_FILE: int := 2
  const DIRENT: int := 16

  /** The bitmap that marks the blocks below n. */
  function UpTo(n: int, size: nat): (m: seq<bool>)
    ensures |m| == size && forall a :: 0 <= a < size ==> m[a] == (a < n)
  {
    seq(size, a => a < n)
  }

  lemma {:induction false} FirstFreeUpTo(n: int, size: nat, k: nat)
    requires k <= n <= size
    ensures FirstFree(UpTo(n, size), k) == n
    decreases n - k
  {
    if k < n {
      FirstFreeUpTo(n, size, k + 1);
    }
  }

  /** What the image under construction stands for. */
  ghost function View(free: int, blocks: seq<Bytes>, inodes: seq<Dinode>): Fs {
    Fs(UpTo(free, |blocks|), blocks, inodes)
  }

  /** Blocks not handed out yet are as mkfs zeroed them. */
  ghost predicate ZeroAbove(free: int, blocks: seq<Bytes>) {
    0 <= free <= |blocks| && forall a :: free <= a < |blocks| ==> blocks[a] == ZeroBytes()
  }

  /** Taking the next block from the counter is what balloc would do. */
  lemma CounterIsBalloc(sb: Super, free: int, blocks: seq<Bytes>, inodes: seq<Dinode>)
    requires ZeroAbove(free, blocks)
    ensures
      var m := Balloc(sb, View(free, blocks, inodes));
      if free == |blocks| then m.Full?
      else m == Mapped(View(free + 1, blocks, inodes), free, {BitmapBlock(sb, free), free})
  {
    FirstFreeUpTo(free, |blocks|, 0);
    if free < |blocks| {
      assert UpTo(free, |blocks|)[free := true] == UpTo(free + 1, |blocks|);
      assert blocks[free := ZeroBytes()] == blocks;
    }
  }

  lemma {:induction false} UnmarkedUpTo(n: int, size: nat)
    requires 0 <= n <= size
    ensures Unmarked(UpTo(n, size)) == size - n
    decreases size
  {
    if size > 0 {
      var m := UpTo(n, size);
      var k := if n < size then n else size - 1;
      assert m[..size - 1] == UpTo(k, size - 1);
      UnmarkedUpTo(k, size - 1);
    }
  }

  /** The blocks from the counter on are the free ones. */
  lemma FreeAbove(free: int, blocks: seq<Bytes>, inodes: seq<Dinode>)
    requires ZeroAbove(free, blocks)
    ensures 0 <= free <= |blocks| && Unmarked(View(free, blocks, inodes).marked) == |blocks| - free
  {
    UnmarkedUpTo(free, |blocks|);
  }

  /** No block of file i at or after block number bn is allocated, nor a table if none is needed. */
  ghost predicate NoneFrom(s: Fs, i: int, bn: int)
    requires 0 <= i < |s.inodes|
  {
    && (forall k :: bn <= k < MAXFILE && 0 <= k ==> Addr(s, BlockSlot(i, k)) == 0)
    && (bn <= NDIRECT ==> Addr(s, Table(i)) == 0)
  }

  function BlocksFor(size: int): int {
    (size + BSIZE - 1) / BSIZE
  }

  /** The blocks of a file of this size, its indirect table included. */
  function BlocksOf(size: int): int {
    BlocksFor(size) + if BlocksFor(size) > NDIRECT then 1 else 0
  }

  /** Files of the image have exactly the blocks their size needs. */
  ghost predicate Tight(s: Fs) {
    forall i :: 0 <= i < |s.inodes| ==> NoneFrom(s, i, BlocksFor(s.inodes[i].size))
  }

  // ---- iappend

  /** Between the iterations of iappend's loop. */
  ghost predicate Appending(sb: Super, s0: Fs, s: Fs, owner: Owner, i: int, data: seq<Byte>, tot: int) {
    && 0 <= i < |s0.inodes| && Writing(sb, s0, s, owner, i, s0.inodes[i].size, data, tot)
    && forall j :: 0 <= j < |s0.inodes| ==>
         NoneFrom(s, j, BlocksFor(s0.inodes[j].size + if j == i then tot else 0))
  }

  lemma AppendingNext(sb: Super, s0: Fs, s: Fs, owner: Owner, i: int, data: seq<Byte>, tot: int)
      returns (owner': Owner)
    requires Appending(sb, s0, s, owner, i, data, tot) && tot < |data|
    requires 0 <= i < |s.inodes| == |s0.inodes| && Shaped(sb, s) && sb.size < 0x1_0000_0000 && 0 <= s0.inodes[i].size
    requires s0.inodes[i].size + |data| <= MAXBYTES && 0 <= tot
    requires Stepped(sb, s, i, s0.inodes[i].size, data, tot).Mapped?
    ensures |Stepped(sb, s, i, s0.inodes[i].size, data, tot).s.inodes| == |s0.inodes|
    ensures Appending(sb, s0, Stepped(sb, s, i, s0.inodes[i].size, data, tot).s, owner', i, data,
            tot + ChunkLen(s0.inodes[i].size, |data|, tot))
  {
    hide *;
    AppendReady(sb, s0, s, owner, i, data, tot, i);
    var off := s0.inodes[i].size;
    owner' := WritingNext(sb, s0, s, owner, i, off, data, tot);
    forall j | 0 <= j < |s0.inodes|
      ensures NoneFrom(Stepped(sb, s, i, off, data, tot).s, j,
              BlocksFor(s0.inodes[j].size + if j == i then tot + ChunkLen(off, |data|, tot) else 0))
    {
      StepTight(sb, s0, s, owner, i, data, tot, j);
    }
    AppendingFold(sb, s0, Stepped(sb, s, i, off, data, tot).s, owner', i, data, tot + ChunkLen(off, |data|, tot));
  }

  lemma AppendingFold(sb: Super, s0: Fs, s: Fs, owner: Owner, i: int, data: seq<Byte>, tot: int)
    requires 0 <= i < |s0.inodes| == |s.inodes| && Writing(sb, s0, s, owner, i, s0.inodes[i].size, data, tot)
    requires forall j :: 0 <= j < |s0.inodes| ==>
      NoneFrom(s, j, BlocksFor(s0.inodes[j].size + if j == i then tot else 0))
    ensures Appending(sb, s0, s, owner, i, data, tot)
  {
    hide Writing, NoneFrom, BlocksFor;
  }

  lemma StepTight(sb: Super, s0: Fs, s: Fs, owner: Owner, i: int, data: seq<Byte>, tot: int, j: int)
    requires Appending(sb, s0, s, owner, i, data, tot) && tot < |data| && 0 <= j < |s0.inodes|
    requires Stepped(sb, s, i, s0.inodes[i].size, data, tot).Mapped?
    ensures |Stepped(sb, s, i, s0.inodes[i].size, data, tot).s.inodes| == |s0.inodes|
    ensures NoneFrom(Stepped(sb, s, i, s0.inodes[i].size, data, tot).s, j,
                     BlocksFor(s0.inodes[j].size + if j == i then tot + ChunkLen(s0.inodes[i].size, |data|, tot)
                         else 0))
  {
    AppendReady(sb, s0, s, owner, i, data, tot, j);
    hide Appending, Writing, Stepped, NoneFrom, Addr, Owned, Shaped, BlocksFor, ChunkLen, BlockNo;
    var off := s0.inodes[i].size;
    var s' := Stepped(sb, s, i, off, data, tot).s;
    var bn := BlockNo(off + tot);
    assert |s'.inodes| == |s0.inodes| by {
      var _ := WritingNext(sb, s0, s, owner, i, off, data, tot);
    }
    forall k | 0 <= k < MAXFILE && !(j == i && k == bn)
      ensures Addr(s', BlockSlot(j, k)) == Addr(s, BlockSlot(j, k))
    {
      StepOthers(sb, s, owner, i, off, data, tot, j, k);
    }
    StepTables(sb, s, owner, i, off, data, tot, j);
    AppendRoom(off, |data|, tot);
    NoneFromNext(s, s', i, bn, j, BlocksFor(s0.inodes[j].size + if j == i then tot else 0),
                 BlocksFor(s0.inodes[j].size + if j == i then tot + ChunkLen(off, |data|, tot) else 0));
  }

  lemma AppendReady(sb: Super, s0: Fs, s: Fs, owner: Owner, i: int, data: seq<Byte>, tot: int,
          j: int)
    requires Appending(sb, s0, s, owner, i, data, tot) && tot < |data| && 0 <= j < |s0.inodes|
    ensures Writing(sb, s0, s, owner, i, s0.inodes[i].size, data, tot) && Owned(sb, s, owner, {})
    ensures 0 <= i < |s.inodes| == |s0.inodes| && 0 <= s0.inodes[i].size && 0 <= tot
    ensures s0.inodes[i].size + |data| <= MAXBYTES
    ensures Shaped(sb, s) && sb.size < 0x1_0000_0000
    ensures NoneFrom(s, j, BlocksFor(s0.inodes[j].size + if j == i then tot else 0))
  {
  }

  lemma NoneFromNext(s: Fs, s': Fs, i: int, bn: int, j: int, a: int, b: int)
    requires 0 <= j < |s.inodes| == |s'.inodes| && NoneFrom(s, j, a) && a <= b && (j == i ==> bn < b)
    requires forall k :: 0 <= k < MAXFILE && !(j == i && k == bn) ==>
               Addr(s', BlockSlot(j, k)) == Addr(s, BlockSlot(j, k))
    requires !(j == i && bn >= NDIRECT) ==> Addr(s', Table(j)) == Addr(s, Table(j))
    ensures NoneFrom(s', j, b)
  {
    hide Addr;
  }

  lemma AppendRoom(off: int, n: int, tot: int)
    requires 0 <= off && 0 <= tot < n && off + n <= MAXBYTES
    ensures BlocksFor(off + tot) <= BlocksFor(off + tot + ChunkLen(off, n, tot))
    ensures BlockNo(off + tot) < BlocksFor(off + tot + ChunkLen(off, n, tot))
  {
    BlockRange(off + tot);
  }

  lemma BlocksGrow(a: int, b: int)
    requires 0 <= a <= b
    ensures 0 <= BlocksOf(a) <= BlocksOf(b) && BlocksOf(0) == 0
  {
  }

  lemma {:induction false} HolesAll(s: Fs, i: int, a: int, b: int)
    requires 0 <= i < |s.inodes| && 0 <= a <= b <= MAXFILE
    requires forall k :: a <= k < b ==> Addr(s, BlockSlot(i, k)) == 0
    ensures Holes(s, i, a, b) == b - a
    decreases b - a
  {
    hide Addr, BlockSlot;
    if a < b {
      HolesAll(s, i, a, b - 1);
    }
  }

  /** In a tight image n more bytes need the blocks by which the file grows. */
  lemma TightNeed(sb: Super, free: int, blocks: seq<Bytes>, inodes: seq<Dinode>, owner: Owner, i: int, n: int)
    requires Sound(sb, free, blocks, inodes, owner) && 0 <= i < |inodes|
    requires 0 <= inodes[i].size && 0 <= n && inodes[i].size + n <= MAXBYTES
    ensures
      var size := inodes[i].size;
      NeedFor(View(free, blocks, inodes), i, size, n) == BlocksOf(size + n) - BlocksOf(size)
  {
    var s := View(free, blocks, inodes);
    var size := inodes[i].size;
    ViewIs(free, blocks, inodes);
    SoundFile(sb, free, blocks, inodes, owner, i);
    hide View, Sound;
    if n > 0 {
      GrowRange(size, n);
      TightHoles(s, i, size, BlocksFor(size + n));
    }
  }

  lemma SoundFile(sb: Super, free: int, blocks: seq<Bytes>, inodes: seq<Dinode>, owner: Owner, i: int)
    requires Sound(sb, free, blocks, inodes, owner) && 0 <= i < |inodes|
    ensures
      var s := View(free, blocks, inodes);
      && |s.inodes| == |inodes| && NoneFrom(s, i, BlocksFor(inodes[i].size)) && 0 <= inodes[i].size <= MAXBYTES
      && Backed(s, i, 0, inodes[i].size)
  {
    hide NoneFrom, Owned, ZeroAbove, BlocksFor;
  }

  lemma GrowRange(size: int, n: int)
    requires 0 <= size && 0 < n && size + n <= MAXBYTES
    ensures EndBlock(size, n) == BlocksFor(size + n)
    ensures 0 <= BlockNo(size) <= BlocksFor(size) <= BlocksFor(size + n) <= MAXFILE
    ensures BlockNo(size) < BlocksFor(size + n)
  {
  }

  lemma TightHoles(s: Fs, i: int, size: int, end: int)
    requires 0 <= i < |s.inodes| && 0 <= size <= MAXBYTES && 0 <= BlockNo(size) <= BlocksFor(size) <= end <= MAXFILE
    requires NoneFrom(s, i, BlocksFor(size)) && Backed(s, i, 0, size) && BlockNo(size) < end
    ensures
      Need(s, i, BlockNo(size), end) ==
        end - BlocksFor(size) + if end > NDIRECT && BlocksFor(size) <= NDIRECT then 1 else 0
  {
    var b := BlocksFor(size);
    forall k | 0 <= k < b ensures Addr(s, BlockSlot(i, k)) != 0 {
      LastByte(size, k);
      assert BlockNo(if k * BSIZE < size then k * BSIZE else size - 1) == k;
    }
    hide Addr, Holes, BlocksFor, BlockNo;
    HolesNone(s, i, BlockNo(size), b);
    HolesAll(s, i, b, end);
    HolesSplit(s, i, BlockNo(size), b, end);
    if b > NDIRECT {
      assert BlockSlot(i, b - 1) == Entry(i, b - 1 - NDIRECT) && Addr(s, BlockSlot(i, b - 1)) != 0;
      TableFirst(s, i, b - 1 - NDIRECT);
    }
  }

  lemma LastByte(size: int, k: int)
    requires 0 <= k < BlocksFor(size) && 0 <= size
    ensures k * BSIZE < size && BlockNo(k * BSIZE) == k
  {
  }

  // ---- the image object

  ghost predicate Sound(sb: Super, free: int, blocks: seq<Bytes>, inodes: seq<Dinode>, owner: Owner) {
    && |blocks| == sb.size && ZeroAbove(free, blocks)
    && FsInv(sb, View(free, blocks, inodes), owner) && Tight(View(free, blocks, inodes))
  }

  class Image {
    const sb: Super
    var blocks: seq<Bytes>
    var inodes: seq<Dinode>
    var freeinode: int
    var freeblock: int
    ghost var owner: Owner

    /** iappend's choice of block, taking new ones from the counter; -1 when the image is full. */
    method MapBlock(i: int, fbn: int) returns (x: int)
      requires |blocks| == sb.size && ZeroAbove(freeblock, blocks)
      requires Owned(sb, View(freeblock, blocks, inodes), owner, {})
      requires 0 <= i < |inodes| && 0 <= fbn < MAXFILE
      modifies `inodes, `blocks, `freeblock
      ensures x == -1 <==> Bmap(sb, old(View(freeblock, blocks, inodes)), i, fbn).Full?
      ensures x != -1 ==>
                && |blocks| == sb.size && ZeroAbove(freeblock, blocks) && old(freeblock) <= freeblock
                && var m := Bmap(sb, old(View(freeblock, blocks, inodes)), i, fbn);
                      m.Mapped? && View(freeblock, blocks, inodes) == m.s && x == m.addr && 0 <= x < freeblock
    {
      hide Held, Holds, Marks, ZeroBytes, SetWord, Word, BitmapBlock, FirstFree, UpTo;
      CounterIsBalloc(sb, freeblock, blocks, inodes);
      if fbn < NDIRECT {
        AddrBelow(sb, freeblock, blocks, inodes, owner, Direct(i, fbn));
        if inodes[i].addrs[fbn] == 0 {
          if freeblock == |blocks| {
            return -1;
          }
          inodes := inodes[i := inodes[i].(addrs := inodes[i].addrs[fbn := freeblock])];
          freeblock := freeblock + 1;
        }
        return inodes[i].addrs[fbn];
      }
      x := MapIndirect(i, fbn - NDIRECT);
    }

    method MapIndirect(i: int, j: int) returns (x: int)
      requires |blocks| == sb.size && ZeroAbove(freeblock, blocks)
      requires Owned(sb, View(freeblock, blocks, inodes), owner, {})
      requires 0 <= i < |inodes| && 0 <= j < NINDIRECT
      modifies `inodes, `blocks, `freeblock
      ensures x == -1 <==> Bmap(sb, old(View(freeblock, blocks, inodes)), i, NDIRECT + j).Full?
      ensures x != -1 ==>
                && |blocks| == sb.size && ZeroAbove(freeblock, blocks) && old(freeblock) <= freeblock
                && var m := Bmap(sb, old(View(freeblock, blocks, inodes)), i, NDIRECT + j);
                      m.Mapped? && View(freeblock, blocks, inodes) == m.s && x == m.addr && 0 <= x < freeblock
    {
      hide Held, Holds, Marks, ZeroBytes, SetWord, Word, BitmapBlock, FirstFree, UpTo;
      CounterIsBalloc(sb, freeblock, blocks, inodes);
      AddrBelow(sb, freeblock, blocks, inodes, owner, Table(i));
      ghost var m1 := Ensure(sb, View(freeblock, blocks, inodes), Table(i));
      if inodes[i].addrs[NDIRECT] == 0 {
        if freeblock == |blocks| {
          return -1;
        }
        inodes := inodes[i := inodes[i].(addrs := inodes[i].addrs[NDIRECT := freeblock])];
        freeblock := freeblock + 1;
      }
      assert View(freeblock, blocks, inodes) == m1.s;
      var table := inodes[i].addrs[NDIRECT];
      ghost var owner1 := EnsureOwned(sb, old(View(freeblock, blocks, inodes)), owner, Table(i));
      AddrBelow(sb, freeblock, blocks, inodes, owner1, Entry(i, j));
      CounterIsBalloc(sb, freeblock, blocks, inodes);
      if Word(blocks[table], j) == 0 {
        if freeblock == |blocks| {
          return -1;
        }
        x := freeblock;
        blocks := blocks[table := SetWord(blocks[table], j, freeblock)];
        freeblock := freeblock + 1;
      } else {
        x := Word(blocks[table], j);
      }
    }
  
    /** iappend: the file grows by `data`; false exactly when the blocks for it do not fit the image. */
    method Iappend(i: int, data: seq<Byte>) returns (ok: bool)
      requires Sound(sb, freeblock, blocks, inodes, owner)
      requires 0 <= i < |inodes| && inodes[i].kind != 0 && 0 <= inodes[i].size && inodes[i].size + |data| <= MAXBYTES
      modifies `inodes, `blocks, `freeblock, `owner
      ensures ok ==> Sound(sb, freeblock, blocks, inodes, owner) && |inodes| == |old(inodes)|
      ensures ok ==> Appended(old(View(freeblock, blocks, inodes)), View(freeblock, blocks, inodes), i, data)
      ensures
        var more := BlocksOf(old(inodes[i].size) + |data|) - BlocksOf(old(inodes[i].size));
        (ok <==> old(freeblock) + more <= sb.size) && (ok ==> freeblock == old(freeblock) + more)
    {
      hide *;
      ghost var s0, owner0, free0 := View(freeblock, blocks, inodes), owner, freeblock;
      ViewIs(freeblock, blocks, inodes);
      AppendingStart(sb, freeblock, blocks, inodes, owner, i, data);
      TightNeed(sb, freeblock, blocks, inodes, owner, i, |data|);
      GrewNone(s0, i, inodes[i].size);
      var off, tot := inodes[i].size, 0;
      while tot < |data|
        invariant 0 <= tot <= |data| && Appending(sb, s0, View(freeblock, blocks, inodes), owner, i, data, tot)
        invariant View(freeblock, blocks, inodes).blocks == blocks && View(freeblock, blocks, inodes).inodes == inodes
        invariant |inodes| == |s0.inodes|
        invariant ZeroAbove(freeblock, blocks) && |blocks| == sb.size
        invariant Grew(s0, View(freeblock, blocks, inodes), i, off, tot)
      {
        AppendReady(sb, s0, View(freeblock, blocks, inodes), owner, i, data, tot, i);
        ChunkRange(off, |data|, tot);
        ghost var was := View(freeblock, blocks, inodes);
        var x := MapBlock(i, BlockNo(off + tot));
        if x == -1 {
          StepFull(sb, s0, was, owner, i, off, data, tot);
          FreeAbove(free0, old(blocks), old(inodes));
          return false;
        }
        ViewIs(freeblock, blocks, inodes);
        SteppedIs(sb, was, owner, i, off, data, tot);
        StepGrew(sb, was, owner, i, off, data, tot);
        owner := AppendingNext(sb, s0, was, owner, i, data, tot);
        var m := ChunkLen(off, |data|, tot);
        PatchView(freeblock, blocks, inodes, x, InBlock(off + tot), data[tot..tot + m]);
        var buf := blocks[x];
        blocks := blocks[x := buf[..InBlock(off + tot)] + data[tot..tot + m] + buf[InBlock(off + tot) + m..]];
        ViewIs(freeblock, blocks, inodes);
        GrewNext(s0, was, View(freeblock, blocks, inodes), i, off, tot, m);
        tot := tot + m;
      }
      GrewRoom(s0, View(freeblock, blocks, inodes), i, off, |data|);
      FreeAbove(free0, old(blocks), old(inodes));
      FreeAbove(freeblock, blocks, inodes);
      AppendDone(sb, s0, owner0, freeblock, blocks, inodes, owner, i, data);
      inodes := inodes[i := inodes[i].(size := off + |data|)];
      ok := true;
    }
  
    /** ialloc: the next inode number, with one link. */
    method Ialloc(kind: int) returns (inum: int)
      requires Sound(sb, freeblock, blocks, inodes, owner) && kind != 0
      requires 0 <= freeinode < |inodes| && inodes[freeinode].kind == 0
      modifies `inodes, `freeinode
      ensures Sound(sb, freeblock, blocks, inodes, owner)
      ensures inum == old(freeinode) && freeinode == inum + 1
      ensures inodes == old(inodes)[inum := Dinode(kind, 1, 0, NoAddrs())]
      ensures Covered(View(freeblock, blocks, old(inodes)))
      ensures OthersKept(View(freeblock, blocks, old(inodes)), View(freeblock, blocks, inodes), inum)
      ensures BytesKept(View(freeblock, blocks, old(inodes)), View(freeblock, blocks, inodes), inum, 0)
    {
      hide BytesKept, NoAddrs, UpTo, Addr, ByteAt, Owned, Backed, ZeroAbove, NoneFrom, BlocksFor;
      inum := freeinode;
      freeinode := freeinode + 1;
      ghost var s := View(freeblock, blocks, inodes);
      FreeInodeIsEmpty(sb, s, owner, inum);
      RetypeInv(sb, s, owner, inum, kind, 1);
      forall j | 0 <= j < |inodes|
        ensures NoneFrom(SetInode(s, inum, s.inodes[inum].(kind := kind, nlink := 1)), j, BlocksFor(inodes[j].size))
      {
        SetInodeNone(s, inum, s.inodes[inum].(kind := kind, nlink := 1), j, BlocksFor(inodes[j].size));
      }
      inodes := inodes[inum := Dinode(kind, 1, 0, seq(NDIRECT + 1, _ => 0))];
      assert inodes[inum] == s.inodes[inum].(kind := kind, nlink := 1);
      SetInodeBytes(s, inum, inodes[inum]);
    }

    /** Copy one host file into the image, in reads of at most BSIZE bytes. */
    method CopyFile(inum: int, content: seq<Byte>) returns (ok: bool)
      requires Sound(sb, freeblock, blocks, inodes, owner) && |content| <= MAXBYTES
      requires 0 <= inum < |inodes| && inodes[inum].kind != 0 && inodes[inum].size == 0
      modifies `inodes, `blocks, `freeblock, `owner
      ensures ok <==> old(freeblock) + BlocksOf(|content|) <= sb.size
      ensures ok ==> freeblock == old(freeblock) + BlocksOf(|content|)
      ensures ok ==> Sound(sb, freeblock, blocks, inodes, owner) && |inodes| == |old(inodes)|
      ensures ok ==> Appended(old(View(freeblock, blocks, inodes)), View(freeblock, blocks, inodes), inum, content)
    {
      hide *;
      ghost var s0 := View(freeblock, blocks, inodes);
      ViewIs(freeblock, blocks, inodes);
      AppendedNone(sb, freeblock, blocks, inodes, owner, inum);
      SoundCovered(sb, freeblock, blocks, inodes, owner);
      BlocksGrow(0, |content|);
      var pos := 0;
      while pos < |content|
        invariant 0 <= pos <= |content| && Sound(sb, freeblock, blocks, inodes, owner) && |inodes| == |old(inodes)|
        invariant Appended(s0, View(freeblock, blocks, inodes), inum, content[..pos])
        invariant freeblock == old(freeblock) + BlocksOf(pos) <= sb.size
      {
        var cc :| 1 <= cc <= |content| - pos && cc <= 1024;
        ghost var s1 := View(freeblock, blocks, inodes);
        AppendedRoom(s0, freeblock, blocks, inodes, inum, content, pos);
        BlocksGrow(pos + cc, |content|);
        ok := Iappend(inum, content[pos..pos + cc]);
        if !ok {
          return;
        }
        AppendedTwice(s0, s1, View(freeblock, blocks, inodes), inum, content[..pos], content[pos..pos + cc]);
        assert content[..pos] + content[pos..pos + cc] == content[..pos + cc];
        pos := pos + cc;
      }
      assert content[..|content|] == content;
      ok := true;
    }
  
    /** balloc(used): write the bitmap that marks the first `used` blocks; false is its assertion failing. */
    method Balloc(used: int) returns (ok: bool, bits: seq<bool>)
      requires 0 <= used <= sb.size
      ensures ok <==> used < BPB
      ensures ok ==> bits == UpTo(used, sb.size)
    {
      bits := seq(sb.size, _ => false);
      if used >= BPB {
        return false, bits;
      }
      ok := true;
      var i := 0;
      while i < used
        invariant 0 <= i <= used && |bits| == sb.size
        invariant forall a :: 0 <= a < sb.size ==> bits[a] == (a < i)
      {
        bits := bits[i := true];
        i := i + 1;
      }
    }

    /** All sectors zeroed, no inode in use, the counters at their start. */
    constructor (sb: Super)
      requires ValidSuper(sb) && sb.ninodes > ROOTINO
      ensures this.sb == sb && freeinode == 1 && |inodes| == sb.ninodes
      ensures Sound(sb, freeblock, blocks, inodes, owner) && freeblock == sb.datastart
      ensures forall j :: 0 <= j < |inodes| ==> inodes[j] == Dinode(0, 0, 0, NoAddrs())
    {
      this.sb := sb;
      blocks := seq(sb.size, _ => ZeroBytes());
      inodes := seq(sb.ninodes, _ => Dinode(0, 0, 0, NoAddrs()));
      freeinode, freeblock := 1, sb.datastart;
      owner := map[];
      new;
      EmptySound(sb);
    }

    /**
     main: the root directory, then for each host file an inode, a directory entry and its
     contents; the root's size is rounded up to whole blocks and the bitmap written last.
     The image satisfies the kernel's invariant exactly when the root's entries do not end
     on a block boundary, and is finished exactly when the blocks fit, bitmap included.
     */
    method Build(files: seq<HostFile>) returns (ok: bool, image: Fs)
      requires Sound(sb, freeblock, blocks, inodes, owner) && freeinode == ROOTINO && Fits(files, |inodes|)
      requires forall j :: 0 <= j < |inodes| ==> inodes[j].kind == 0
      modifies this
      ensures ok <==> old(freeblock) + BlocksUsed(files, |files|) <= sb.size
                      && old(freeblock) + BlocksUsed(files, |files|) < BPB
      ensures ok ==> ((exists own :: FsInv(sb, image, own)) <==> DIRENT * (2 + |files|) % BSIZE != 0)
      ensures ok ==> forall k :: 0 <= k < |files| ==> FileIs(image, ROOTINO + 1 + k, files[k].content)
      ensures ok && Rounded(DIRENT * (2 + |files|)) <= MAXBYTES ==> RootPadded(image, RootEntries(files, |files|))
    {
      hide *;
      image := Fs([], [], []);
      UsedGrows(files, 0, |files|);
      ok := MakeRoot(files);
      if !ok {
        return;
      }
      var k := 0;
      while k < |files|
        invariant 0 <= k <= |files| && Built(sb, freeblock, blocks, inodes, owner, freeinode, files, k)
        invariant freeblock == old(freeblock) + BlocksUsed(files, k)
      {
        UsedGrows(files, k + 1, |files|);
        ok := AddFile(files, k);
        if !ok {
          return;
        }
        k := k + 1;
      }
      RoundRoot(sb, freeblock, blocks, inodes, owner, freeinode, files);
      var off := inodes[ROOTINO].size;
      inodes := inodes[ROOTINO := inodes[ROOTINO].(size := Rounded(off))];
      var bits;
      ok, bits := Balloc(freeblock);
      if !ok {
        return;
      }
      image := Fs(bits, blocks, inodes);
    }

    /** The root inode with its "." and ".." entries. */
    method MakeRoot(files: seq<HostFile>) returns (ok: bool)
      requires Sound(sb, freeblock, blocks, inodes, owner) && freeinode == ROOTINO && Fits(files, |inodes|)
      requires forall j :: 0 <= j < |inodes| ==> inodes[j].kind == 0
      modifies this
      ensures ok ==> Built(sb, freeblock, blocks, inodes, owner, freeinode, files, 0)
      ensures ok <==> old(freeblock) + BlocksUsed(files, 0) <= sb.size
      ensures ok ==> freeblock == old(freeblock) + BlocksUsed(files, 0)
    {
      hide Sound, NoAddrs, Contents, Covered, OthersKept, UpTo, DirentBytes, BytesKept, RootIs, View;
      ViewIs(freeblock, blocks, inodes);
      var root := Ialloc(T_DIR);
      ghost var s1 := View(freeblock, blocks, inodes);
      ViewIs(freeblock, blocks, inodes);
      RootNew(s1);
      ok := Iappend(root, DirentBytes(root, [46]));
      if ok {
        ghost var s2 := View(freeblock, blocks, inodes);
        ViewIs(freeblock, blocks, inodes);
        KindsKept(s1, s2, root);
        RootAppended(s1, s2, [], DirentBytes(root, [46]));
        ok := Iappend(root, DirentBytes(root, [46, 46]));
        if ok {
          ViewIs(freeblock, blocks, inodes);
          KindsKept(s2, View(freeblock, blocks, inodes), root);
          assert [] + DirentBytes(root, [46]) == DirentBytes(root, [46]);
          RootAppended(s2, View(freeblock, blocks, inodes), DirentBytes(root, [46]), DirentBytes(root, [46, 46]));
        }
      }
    }

    /** One host file: an inode, an entry in the root, the contents. */
    method AddFile(files: seq<HostFile>, k: int) returns (ok: bool)
      requires Built(sb, freeblock, blocks, inodes, owner, freeinode, files, k) && 0 <= k < |files|
      modifies this
      ensures ok ==> Built(sb, freeblock, blocks, inodes, owner, freeinode, files, k + 1)
      ensures
        var more := BlocksUsed(files, k + 1) - BlocksUsed(files, k);
        (ok <==> old(freeblock) + more <= sb.size) && (ok ==> freeblock == old(freeblock) + more)
    {
      hide *;
      BuiltNext(sb, freeblock, blocks, inodes, owner, freeinode, files, k);
      UsedNext(files, k);
      ghost var free0, blocks0, inodes0, owner0 := freeblock, blocks, inodes, owner;
      ghost var s0 := View(freeblock, blocks, inodes);
      var inum := Ialloc(T_FILE);
      ghost var s1 := View(freeblock, blocks, inodes);
      ViewIs(freeblock, blocks, inodes);
      SoundCovered(sb, freeblock, blocks, inodes, owner);
      ok := Iappend(ROOTINO, DirentBytes(inum, files[k].name));
      if !ok {
        return;
      }
      ghost var s2 := View(freeblock, blocks, inodes);
      ViewIs(freeblock, blocks, inodes);
      AppendedOther(s1, s2, ROOTINO, inum, DirentBytes(inum, files[k].name));
      ok := CopyFile(inum, files[k].content);
      if ok {
        ViewIs(freeblock, blocks, inodes);
        AddFileDone(sb, s0, s1, s2, DirentBytes(inum, files[k].name), free0, blocks0, inodes0, owner0,
                    freeblock, blocks, inodes, owner, files, k);
      }
    }
  }

  datatype HostFile = HostFile(name: seq<Byte>, content: seq<Byte>)

  /** A directory entry: the inode number in two bytes, then the name cut or padded to 14. */
  function DirentBytes(inum: int, name: seq<Byte>): (d: seq<Byte>)
    requires 0 <= inum
    ensures |d| == DIRENT
  {
    [inum % 256, inum / 256 % 256] +
    if |name| >= DIRENT - 2 then name[..DIRENT - 2] else name + seq(DIRENT - 2 - |name|, _ => 0)
  }

  /** The C string at the start of these bytes, all of them if there is no zero. */
  function UpToZero(b: seq<Byte>): seq<Byte>
    decreases |b|
  {
    if b == [] || b[0] == 0 then [] else [b[0]] + UpToZero(b[1..])
  }

  lemma {:induction false} UpToZeroPadded(name: seq<Byte>, n: nat)
    requires forall k :: 0 <= k < |name| ==> name[k] != 0
    ensures UpToZero(name + seq(n, _ => 0)) == name
    decreases |name|
  {
    var b := name + seq(n, _ => 0);
    if name != [] {
      assert b[1..] == name[1..] + seq(n, _ => 0);
      UpToZeroPadded(name[1..], n);
      assert name == [name[0]] + name[1..];
    }
  }

  /** Reading an entry as dirlookup does gives its inode number, and its name cut to 14 characters. */
  lemma DirentReads(inum: int, name: seq<Byte>)
    requires 0 <= inum < 0x1_0000 && forall k :: 0 <= k < |name| ==> name[k] != 0
    ensures
      var d := DirentBytes(inum, name);
      && (d[0] as int) + 256 * (d[1] as int) == inum
      && UpToZero(d[2..]) == if |name| < DIRENT - 2 then name else name[..DIRENT - 2]
  {
    var d := DirentBytes(inum, name);
    var short := if |name| < DIRENT - 2 then name else name[..DIRENT - 2];
    assert d[2..] == short + seq(DIRENT - 2 - |short|, _ => 0);
    UpToZeroPadded(short, DIRENT - 2 - |short|);
  }

  /** The blocks the root directory and the first k files take. */
  function BlocksUsed(files: seq<HostFile>, k: nat): (n: nat)
    requires k <= |files|
    decreases k
  {
    BlocksOf(DIRENT * (2 + k)) + FilesUsed(files, k)
  }

  function FilesUsed(files: seq<HostFile>, k: nat): nat
    requires k <= |files|
    decreases k
  {
    if k == 0 then 0 else FilesUsed(files, k - 1) + BlocksOf(|files[k - 1].content|)
  }

  lemma UsedNext(files: seq<HostFile>, k: nat)
    requires k < |files|
    ensures BlocksUsed(files, k + 1) == BlocksUsed(files, k) + BlocksOf(|files[k].content|)
            + (BlocksOf(DIRENT * (2 + k) + DIRENT) - BlocksOf(DIRENT * (2 + k)))
    ensures BlocksOf(DIRENT * (2 + k)) <= BlocksOf(DIRENT * (2 + k) + DIRENT) && BlocksOf(|files[k].content|) >= 0
  {
    hide BlocksOf;
    assert DIRENT * (2 + (k + 1)) == DIRENT * (2 + k) + DIRENT;
    BlocksGrow(DIRENT * (2 + k), DIRENT * (2 + k) + DIRENT);
    BlocksGrow(0, |files[k].content|);
  }

  lemma {:induction false} UsedGrows(files: seq<HostFile>, j: nat, k: nat)
    requires j <= k <= |files|
    ensures BlocksUsed(files, j) <= BlocksUsed(files, k)
    decreases k - j
  {
    hide BlocksUsed;
    if j < k {
      UsedGrows(files, j, k - 1);
      UsedNext(files, k - 1);
    }
  }

  ghost predicate Fits(files: seq<HostFile>, ninodes: nat) {
    && ROOTINO + |files| < ninodes && DIRENT * (2 + |files|) <= MAXBYTES
    && forall k :: 0 <= k < |files| ==> |files[k].content| <= MAXBYTES
  }

  /** Inode i is a file with one link and these contents. */
  ghost predicate FileIs(s: Fs, i: int, content: seq<Byte>) {
    && 0 <= i < |s.inodes| && 0 <= s.inodes[i].size <= MAXBYTES
    && s.inodes[i].kind == T_FILE && s.inodes[i].nlink == 1 && Contents(s, i) == content
  }

  /** The root directory holds these bytes, with zeros after them. */
  ghost predicate RootIs(s: Fs, d: seq<Byte>) {
    && ROOTINO < |s.inodes| && s.inodes[ROOTINO].size == |d| <= MAXBYTES
    && Contents(s, ROOTINO) == d && ZeroPast(s, ROOTINO, |d|)
  }

  /** The root and the first k files are in the image. */
  ghost predicate Built(sb: Super, free: int, blocks: seq<Bytes>, inodes: seq<Dinode>, owner: Owner, freeinode: int,
          files: seq<HostFile>, k: int) {
    && Sound(sb, free, blocks, inodes, owner) && Fits(files, |inodes|)
    && 0 <= k <= |files| && freeinode == ROOTINO + 1 + k
    && inodes[ROOTINO].kind == T_DIR && inodes[ROOTINO].size == DIRENT * (2 + k)
    && RootIs(View(free, blocks, inodes), RootEntries(files, k))
    && (forall j :: freeinode <= j < |inodes| ==> inodes[j].kind == 0)
    && forall j :: 0 <= j < k ==> FileIs(View(free, blocks, inodes), ROOTINO + 1 + j, files[j].content)
  }

  // ---- the root directory

  lemma SetInodeBytes(s: Fs, i: int, ip: Dinode)
    requires 0 <= i < |s.inodes| && ip.addrs == s.inodes[i].addrs
    ensures BytesKept(s, SetInode(s, i, ip), i, 0)
  {
    var s' := SetInode(s, i, ip);
    forall j, p | 0 <= j < |s.inodes| && 0 <= p < MAXBYTES ensures ByteAt(s', j, p) == ByteAt(s, j, p) {
      SetInodeAddr(s, i, ip, BlockSlot(j, BlockNo(p)));
    }
  }

  lemma RootNew(s: Fs)
    requires ROOTINO < |s.inodes| && s.inodes[ROOTINO].size == 0 && s.inodes[ROOTINO].addrs == NoAddrs()
    ensures RootIs(s, [])
  {
  }

  lemma RootAppended(s: Fs, s': Fs, d: seq<Byte>, data: seq<Byte>)
    requires RootIs(s, d) && Appended(s, s', ROOTINO, data) && |d| + |data| <= MAXBYTES
    ensures RootIs(s', d + data)
  {
    hide Covered, OthersKept, ByteAt;
  }

  /** Changing another file leaves the root alone, past its end too. */
  lemma RootKept(s: Fs, s': Fs, i: int, n: int, d: seq<Byte>)
    requires RootIs(s, d) && i != ROOTINO && BytesKept(s, s', i, n) && s'.inodes[ROOTINO] == s.inodes[ROOTINO]
    ensures RootIs(s', d)
  {
    hide ByteAt;
  }

  lemma KindsKept(s: Fs, s': Fs, i: int)
    requires Covered(s) && OthersKept(s, s', i)
    ensures |s'.inodes| == |s.inodes| && forall j :: 0 <= j < |s.inodes| && j != i ==> s'.inodes[j] == s.inodes[j]
  {
    hide Contents, Covered;
  }

  lemma BuiltNext(sb: Super, free: int, blocks: seq<Bytes>, inodes: seq<Dinode>, owner: Owner,
          freeinode: int, files: seq<HostFile>, k: int)
    requires Built(sb, free, blocks, inodes, owner, freeinode, files, k) && 0 <= k < |files|
    ensures Sound(sb, free, blocks, inodes, owner) && freeinode == ROOTINO + 1 + k
    ensures 0 <= ROOTINO < freeinode < |inodes|
    ensures inodes[freeinode].kind == 0 && T_FILE != 0 && inodes[ROOTINO].kind != 0
    ensures 0 <= inodes[ROOTINO].size && inodes[ROOTINO].size + DIRENT <= MAXBYTES && |files[k].content| <= MAXBYTES
    ensures inodes[ROOTINO].size == DIRENT * (2 + k)
  {
    hide Sound, View, FileIs;
  }

  lemma AppendedOther(s: Fs, s': Fs, i: int, j: int, data: seq<Byte>)
    requires Appended(s, s', i, data) && 0 <= j < |s.inodes| && j != i
    ensures |s'.inodes| == |s.inodes| && s'.inodes[j] == s.inodes[j]
  {
    hide Contents, Covered;
  }

  lemma FileKept(s: Fs, s': Fs, i: int, j: int, data: seq<Byte>, content: seq<Byte>)
    requires Appended(s, s', i, data) && j != i && FileIs(s, j, content)
    ensures FileIs(s', j, content)
  {
    hide Covered;
  }

  lemma FileAdded(s0: Fs, s1: Fs, s2: Fs, s3: Fs, inum: int, entry: seq<Byte>, content: seq<Byte>)
    requires Covered(s0) && OthersKept(s0, s1, inum) && Covered(s1)
    requires 0 <= inum < |s1.inodes| && inum != ROOTINO && s1.inodes[inum] == Dinode(T_FILE, 1, 0, NoAddrs())
    requires Appended(s1, s2, ROOTINO, entry) && Appended(s2, s3, inum, content)
    ensures FileIs(s3, inum, content)
    ensures |s3.inodes| == |s0.inodes| && s3.inodes[ROOTINO].kind == s0.inodes[ROOTINO].kind
    ensures s3.inodes[ROOTINO].size == s0.inodes[ROOTINO].size + |entry|
    ensures forall j :: 0 <= j < |s0.inodes| && j != ROOTINO && j != inum ==> s3.inodes[j] == s0.inodes[j]
  {
    KindsKept(s0, s1, inum);
    AppendedOther(s1, s2, ROOTINO, inum, entry);
    AppendedOther(s2, s3, inum, ROOTINO, content);
    KindsKept(s1, s2, ROOTINO);
    KindsKept(s2, s3, inum);
    assert Contents(s2, inum) == [];
  }

  lemma OldFileKept(s0: Fs, s1: Fs, s2: Fs, s3: Fs, inum: int, entry: seq<Byte>,
          content: seq<Byte>, j: int, c: seq<Byte>)
    requires Covered(s0) && OthersKept(s0, s1, inum) && Covered(s1)
    requires Appended(s1, s2, ROOTINO, entry) && Appended(s2, s3, inum, content)
    requires j != ROOTINO && j != inum && FileIs(s0, j, c)
    ensures FileIs(s3, j, c)
  {
    hide Covered;
    assert FileIs(s1, j, c);
    FileKept(s1, s2, ROOTINO, j, entry, c);
    FileKept(s2, s3, inum, j, content, c);
  }

  lemma RootGrown(s0: Fs, s1: Fs, s2: Fs, s3: Fs, inum: int, d: seq<Byte>, entry: seq<Byte>,
          content: seq<Byte>)
    requires RootIs(s0, d) && inum != ROOTINO && |d| + |entry| <= MAXBYTES
    requires Covered(s0) && OthersKept(s0, s1, inum) && BytesKept(s0, s1, inum, 0)
    requires Appended(s1, s2, ROOTINO, entry) && Appended(s2, s3, inum, content)
    ensures RootIs(s3, d + entry)
  {
    hide RootIs, BytesKept, OthersKept, Contents, Covered;
    RootRange(s0, d);
    KindsKept(s0, s1, inum);
    RootKept(s0, s1, inum, 0, d);
    RootAppended(s1, s2, d, entry);
    AppendedOther(s2, s3, inum, ROOTINO, content);
    RootKept(s2, s3, inum, |content|, d + entry);
  }

  lemma RootRange(s: Fs, d: seq<Byte>)
    requires RootIs(s, d)
    ensures 0 <= ROOTINO < |s.inodes|
  {
  }

  lemma AddFileDone(sb: Super, s0: Fs, s1: Fs, s2: Fs, entry: seq<Byte>, free0: int,
          blocks0: seq<Bytes>, inodes0: seq<Dinode>, owner0: Owner, free: int, blocks: seq<Bytes>,
          inodes: seq<Dinode>, owner: Owner, files: seq<HostFile>, k: int)
    requires 0 <= k < |files| && s0 == View(free0, blocks0, inodes0)
    requires Built(sb, free0, blocks0, inodes0, owner0, ROOTINO + 1 + k, files, k)
    requires Covered(s0) && OthersKept(s0, s1, ROOTINO + 1 + k) && Covered(s1) && BytesKept(s0, s1, ROOTINO + 1 + k, 0)
    requires |s1.inodes| == |inodes0| && s1.inodes[ROOTINO + 1 + k] == Dinode(T_FILE, 1, 0, NoAddrs())
    requires Appended(s1, s2, ROOTINO, entry) && entry == DirentBytes(ROOTINO + 1 + k, files[k].name)
    requires Appended(s2, View(free, blocks, inodes), ROOTINO + 1 + k, files[k].content)
    requires Sound(sb, free, blocks, inodes, owner)
    ensures Built(sb, free, blocks, inodes, owner, ROOTINO + 2 + k, files, k + 1)
  {
    var inum := ROOTINO + 1 + k;
    var s3 := View(free, blocks, inodes);
    ViewIs(free, blocks, inodes);
    ViewIs(free0, blocks0, inodes0);
    hide Sound, View, Covered, OthersKept, Appended, FileIs, NoAddrs, RootIs, BytesKept, DirentBytes;
    FileAdded(s0, s1, s2, s3, inum, entry, files[k].content);
    RootGrown(s0, s1, s2, s3, inum, RootEntries(files, k), entry, files[k].content);
    forall j | 0 <= j < k + 1 ensures FileIs(s3, ROOTINO + 1 + j, files[j].content) {
      if j < k {
        OldFileKept(s0, s1, s2, s3, inum, entry, files[k].content, ROOTINO + 1 + j, files[j].content);
      }
    }
  }

  lemma SoundCovered(sb: Super, free: int, blocks: seq<Bytes>, inodes: seq<Dinode>, owner: Owner)
    requires Sound(sb, free, blocks, inodes, owner)
    ensures Covered(View(free, blocks, inodes)) && 0 <= free <= sb.size
  {
  }

  // ---- the size of the root directory

  /** mkfs rounds the root's size up to the next block boundary, always past its end. */
  function Rounded(off: int): int {
    (off / BSIZE + 1) * BSIZE
  }

  lemma RoundedRange(off: int)
    requires 0 < off <= MAXBYTES
    ensures off < Rounded(off) && Rounded(off) <= MAXBYTES + BSIZE
    ensures off % BSIZE != 0 ==> Rounded(off) <= MAXBYTES && Rounded(off) == BlocksFor(off) * BSIZE
    ensures off % BSIZE == 0 && off < MAXBYTES ==> BlockNo(off) == BlocksFor(off) < MAXFILE
    ensures off % BSIZE == 0 && off == MAXBYTES ==> Rounded(off) > MAXBYTES
  {
  }

  lemma RoundBacked(s: Fs, i: int, off: int)
    requires 0 <= i < |s.inodes| && 0 < off <= MAXBYTES && off % BSIZE != 0 && Backed(s, i, 0, off)
    ensures Rounded(off) <= MAXBYTES && Backed(s, i, 0, Rounded(off))
  {
    RoundedRange(off);
    hide Addr;
    forall p | 0 <= p < Rounded(off) ensures Addr(s, BlockSlot(i, BlockNo(p))) != 0 {
      var q := if p < off then p else off - 1;
      assert BlockNo(q) == BlockNo(p);
    }
  }

  /** With the rounded size the image keeps the invariant iff the last block is partly filled. */
  lemma RoundIff(sb: Super, s: Fs, owner: Owner, i: int, off: int)
    requires FsInv(sb, s, owner) && Tight(s) && 0 <= i < |s.inodes| && s.inodes[i].size == off && 0 < off <= MAXBYTES
    requires s.inodes[i].kind != 0
    ensures
      var s' := SetInode(s, i, s.inodes[i].(size := Rounded(off)));
      (exists own :: FsInv(sb, s', own)) <==> off % BSIZE != 0
  {
    var s' := SetInode(s, i, s.inodes[i].(size := Rounded(off)));
    RoundedRange(off);
    hide Held, Holds, Marks, Rounded, BlocksFor;
    SetInodeOwned(sb, s, owner, i, s'.inodes[i]);
    if off % BSIZE != 0 {
      RoundBacked(s, i, off);
      forall j | 0 <= j < |s.inodes| ensures Backed(s', j, 0, s'.inodes[j].size) {
        BackedGrown(s, s', j, 0, s'.inodes[j].size);
      }
      assert FsInv(sb, s', owner);
    } else if off < MAXBYTES {
      assert NoneFrom(s, i, BlocksFor(off));
      assert Addr(s, BlockSlot(i, BlockNo(off))) == 0;
      SetInodeAddr(s, i, s'.inodes[i], BlockSlot(i, BlockNo(off)));
      assert !Backed(s', i, 0, s'.inodes[i].size);
    }
  }

  /** Resizing the root leaves the other files alone. */
  lemma ResizeKeepsFile(s: Fs, i: int, size: int, j: int, content: seq<Byte>)
    requires 0 <= i < |s.inodes| && j != i && FileIs(s, j, content)
    ensures FileIs(SetInode(s, i, s.inodes[i].(size := size)), j, content)
  {
    var s' := SetInode(s, i, s.inodes[i].(size := size));
    forall p | 0 <= p < s.inodes[j].size ensures ByteAt(s', j, p) == ByteAt(s, j, p) {
      SetInodeAddr(s, i, s'.inodes[i], BlockSlot(j, BlockNo(p)));
    }
  }

  /** The root directory of the image: the entries, then zeros to the end of the block. */
  ghost predicate RootPadded(s: Fs, d: seq<Byte>) {
    && ROOTINO < |s.inodes| && s.inodes[ROOTINO].size == Rounded(|d|) && |d| <= Rounded(|d|) <= MAXBYTES
    && Contents(s, ROOTINO) == d + seq(Rounded(|d|) - |d|, _ => 0)
  }

  lemma RootRounded(s: Fs, d: seq<Byte>, off: int)
    requires RootIs(s, d) && off == |d| < Rounded(off) <= MAXBYTES
    ensures RootPadded(SetInode(s, ROOTINO, s.inodes[ROOTINO].(size := Rounded(off))), d)
  {
    hide ByteAt, Rounded;
    var ip := s.inodes[ROOTINO].(size := Rounded(off));
    SetInodeBytes(s, ROOTINO, ip);
  }

  lemma RoundRoot(sb: Super, free: int, blocks: seq<Bytes>, inodes: seq<Dinode>, owner: Owner,
          freeinode: int, files: seq<HostFile>)
    requires Built(sb, free, blocks, inodes, owner, freeinode, files, |files|)
    ensures 0 <= ROOTINO < |inodes| && inodes[ROOTINO].size == DIRENT * (2 + |files|) && 0 <= free <= sb.size
    ensures
      var root := inodes[ROOTINO].(size := Rounded(inodes[ROOTINO].size));
      var image := Fs(UpTo(free, sb.size), blocks, inodes[ROOTINO := root]);
      && ((exists own :: FsInv(sb, image, own)) <==> DIRENT * (2 + |files|) % BSIZE != 0)
      && (forall k :: 0 <= k < |files| ==> FileIs(image, ROOTINO + 1 + k, files[k].content))
      && (Rounded(DIRENT * (2 + |files|)) <= MAXBYTES ==> RootPadded(image, RootEntries(files, |files|)))
  {
    var s := View(free, blocks, inodes);
    var off := inodes[ROOTINO].size;
    var image := Fs(UpTo(free, sb.size), blocks, inodes[ROOTINO := inodes[ROOTINO].(size := Rounded(off))]);
    assert image == SetInode(s, ROOTINO, s.inodes[ROOTINO].(size := Rounded(off)));
    hide FsInv, Tight, FileIs, Rounded, UpTo, ZeroAbove, RootIs, RootPadded;
    RoundIff(sb, s, owner, ROOTINO, off);
    if Rounded(off) <= MAXBYTES {
      RoundedRange(off);
      RootRounded(s, RootEntries(files, |files|), off);
    }
    forall k | 0 <= k < |files| ensures FileIs(image, ROOTINO + 1 + k, files[k].content) {
      ResizeKeepsFile(s, ROOTINO, Rounded(off), ROOTINO + 1 + k, files[k].content);
    }
  }

  // ---- the empty image

  lemma EmptySound(sb: Super)
    requires ValidSuper(sb)
    ensures Sound(sb, sb.datastart, seq(sb.size, _ => ZeroBytes()), seq(sb.ninodes, _ => Dinode(0, 0, 0, NoAddrs())),
            map[])
  {
    var s := View(sb.datastart, seq(sb.size, _ => ZeroBytes()), seq(sb.ninodes, _ => Dinode(0, 0, 0, NoAddrs())));
    forall t | ValidSlot(|s.inodes|, t) ensures Addr(s, t) == 0 {
    }
  }

  lemma AppendedNone(sb: Super, free: int, blocks: seq<Bytes>, inodes: seq<Dinode>, owner: Owner,
          i: int)
    requires Sound(sb, free, blocks, inodes, owner) && 0 <= i < |inodes|
    ensures var s := View(free, blocks, inodes); Appended(s, s, i, [])
  {
    hide Owned, Tight, ByteAt, Backed;
    var s := View(free, blocks, inodes);
    assert Contents(s, i) + [] == Contents(s, i);
  }

  lemma AppendedRoom(s0: Fs, free: int, blocks: seq<Bytes>, inodes: seq<Dinode>, i: int,
          content: seq<Byte>, pos: int)
    requires 0 <= pos <= |content| && Appended(s0, View(free, blocks, inodes), i, content[..pos])
    requires s0.inodes[i].size == 0 && s0.inodes[i].kind != 0
    ensures 0 <= i < |inodes| && inodes[i].kind != 0 && inodes[i].size == pos
  {
    hide Contents, Covered, OthersKept, UpTo;
  }

  lemma AppendedTwice(s0: Fs, s1: Fs, s2: Fs, i: int, a: seq<Byte>, b: seq<Byte>)
    requires Appended(s0, s1, i, a) && Appended(s1, s2, i, b)
    ensures Appended(s0, s2, i, a + b)
  {
    hide ByteAt, Backed;
    assert Contents(s0, i) + a + b == Contents(s0, i) + (a + b);
  }

  /** Every byte of every file but n new ones of file i is as it was, past the ends included. */
  ghost predicate BytesKept(s0: Fs, s: Fs, i: int, n: int) {
    && 0 <= i < |s0.inodes| == |s.inodes|
    && forall j, p :: 0 <= j < |s0.inodes| && 0 <= p < MAXBYTES
                      && !(j == i && s0.inodes[i].size <= p < s0.inodes[i].size + n) ==>
         ByteAt(s, j, p) == ByteAt(s0, j, p)
  }

  /** Nothing but zeros after the first `size` bytes of file i. */
  ghost predicate ZeroPast(s: Fs, i: int, size: int) {
    0 <= size && 0 <= i < |s.inodes| && forall p :: size <= p < MAXBYTES ==> ByteAt(s, i, p) == 0
  }

  /** The root directory: the two dots, then one entry per file. */
  function RootEntries(files: seq<HostFile>, k: nat): (d: seq<Byte>)
    requires k <= |files|
    ensures |d| == DIRENT * (2 + k)
    decreases k
  {
    if k == 0 then DirentBytes(ROOTINO, [46]) + DirentBytes(ROOTINO, [46, 46])
    else RootEntries(files, k - 1) + DirentBytes(ROOTINO + k, files[k - 1].name)
  }

  ghost predicate Appended(s0: Fs, s: Fs, i: int, data: seq<Byte>) {
    && Covered(s0) && Covered(s) && 0 <= i < |s0.inodes| == |s.inodes|
    && Contents(s, i) == Contents(s0, i) + data && OthersKept(s0, s, i) && BytesKept(s0, s, i, |data|)
    && s.inodes[i] == s0.inodes[i].(size := s0.inodes[i].size + |data|, addrs := s.inodes[i].addrs)
  }

  lemma ViewIs(free: int, blocks: seq<Bytes>, inodes: seq<Dinode>)
    ensures var s := View(free, blocks, inodes); s.blocks == blocks && s.inodes == inodes
  {
  }

  lemma AppendingStart(sb: Super, free: int, blocks: seq<Bytes>, inodes: seq<Dinode>, owner: Owner,
          i: int, data: seq<Byte>)
    requires Sound(sb, free, blocks, inodes, owner) && 0 <= i < |inodes|
    requires 0 <= inodes[i].size && inodes[i].size + |data| <= MAXBYTES
    ensures Appending(sb, View(free, blocks, inodes), View(free, blocks, inodes), owner, i, data, 0)
    ensures ZeroAbove(free, blocks) && |blocks| == sb.size && FsInv(sb, View(free, blocks, inodes), owner)
  {
    hide Owned, NoneFrom, UpTo;
    WritingStart(sb, View(free, blocks, inodes), owner, i, inodes[i].size, data);
  }

  lemma PatchView(free: int, blocks: seq<Bytes>, inodes: seq<Dinode>, x: int, lo: int,
          data: seq<Byte>)
    requires ZeroAbove(free, blocks) && 0 <= x < free && 0 <= lo && lo + |data| <= BSIZE
    ensures |blocks[x][..lo] + data + blocks[x][lo + |data|..]| == BSIZE && |blocks[x]| == BSIZE
    ensures
      var blocks' := blocks[x := blocks[x][..lo] + data + blocks[x][lo + |data|..]];
      && Patch(View(free, blocks, inodes), x, lo, data) == View(free, blocks', inodes)
      && ZeroAbove(free, blocks') && |blocks'| == |blocks|
  {
  }

  lemma AppendDone(sb: Super, s0: Fs, owner0: Owner, free: int, blocks: seq<Bytes>,
          inodes: seq<Dinode>, owner: Owner, i: int, data: seq<Byte>)
    requires FsInv(sb, s0, owner0) && Appending(sb, s0, View(free, blocks, inodes), owner, i, data, |data|)
    requires ZeroAbove(free, blocks) && |blocks| == sb.size && 0 <= i < |inodes| == |s0.inodes|
    requires s0.inodes[i].kind != 0
    ensures
      var inodes' := inodes[i := inodes[i].(size := s0.inodes[i].size + |data|)];
      && Sound(sb, free, blocks, inodes', owner) && Appended(s0, View(free, blocks, inodes'), i, data)
  {
    var s := View(free, blocks, inodes);
    var inodes' := inodes[i := inodes[i].(size := s0.inodes[i].size + |data|)];
    assert View(free, blocks, inodes') == SetInode(s, i, inodes'[i]);
    hide FsInv, Tight, Appended, Appending, ZeroAbove, UpTo;
    AppendMeaning(sb, s0, owner0, s, owner, i, data);
    AppendTight(sb, s0, s, owner, i, data);
  }

  lemma AppendMeaning(sb: Super, s0: Fs, owner0: Owner, s: Fs, owner: Owner, i: int, data: seq<Byte>)
    requires FsInv(sb, s0, owner0) && Appending(sb, s0, s, owner, i, data, |data|) && 0 <= i < |s.inodes| == |s0.inodes|
    requires s0.inodes[i].kind != 0
    ensures
      var s' := SetInode(s, i, s.inodes[i].(size := s0.inodes[i].size + |data|));
      FsInv(sb, s', owner) && Appended(s0, s', i, data)
  {
    hide *;
    AppendingInode(sb, s0, s, owner, i, data);
    WritingDone(sb, s0, s, owner0, owner, i, s0.inodes[i].size, data);
    ResizedIs(s, i, s0.inodes[i].size, |data|);
    WrittenBytes(sb, s0, s, owner, i, data);
    AppendedIntro(sb, s0, owner0, SetInode(s, i, s.inodes[i].(size := s0.inodes[i].size + |data|)), owner, i, data);
  }

  lemma WrittenBytes(sb: Super, s0: Fs, s: Fs, owner: Owner, i: int, data: seq<Byte>)
    requires 0 <= i < |s.inodes| == |s0.inodes| && Writing(sb, s0, s, owner, i, s0.inodes[i].size, data, |data|)
    ensures BytesKept(s0, SetInode(s, i, s.inodes[i].(size := s0.inodes[i].size + |data|)), i, |data|)
  {
    hide Owned, ByteAt, Backed, Grown;
    SetInodeBytes(s, i, s.inodes[i].(size := s0.inodes[i].size + |data|));
  }

  lemma ResizedIs(s: Fs, i: int, off: int, n: nat)
    requires 0 <= i < |s.inodes| && s.inodes[i].size == off
    ensures
      var s' := SetInode(s, i, s.inodes[i].(size := off + n));
      Resized(s, i, off + n) == s' && |s'.inodes| == |s.inodes| && s'.inodes[i] == s.inodes[i].(size := off + n)
  {
  }

  lemma AppendedIntro(sb: Super, s0: Fs, owner0: Owner, s: Fs, owner: Owner, i: int, data: seq<Byte>)
    requires FsInv(sb, s0, owner0) && FsInv(sb, s, owner) && 0 <= i < |s0.inodes| == |s.inodes| && OthersKept(s0, s, i)
    requires Contents(s, i) == Splice(Contents(s0, i), s0.inodes[i].size, data)
    requires s.inodes[i] == s0.inodes[i].(size := s0.inodes[i].size + |data|, addrs := s.inodes[i].addrs)
    requires BytesKept(s0, s, i, |data|)
    ensures Appended(s0, s, i, data)
  {
    SpliceAtEnd(Contents(s0, i), data);
    hide BytesKept, Owned, Contents, Splice, OthersKept, Backed, FreeInodesEmpty;
  }

  lemma AppendTight(sb: Super, s0: Fs, s: Fs, owner: Owner, i: int, data: seq<Byte>)
    requires Appending(sb, s0, s, owner, i, data, |data|) && 0 <= i < |s.inodes| == |s0.inodes|
    ensures Tight(SetInode(s, i, s.inodes[i].(size := s0.inodes[i].size + |data|)))
  {
    var s' := SetInode(s, i, s.inodes[i].(size := s0.inodes[i].size + |data|));
    AppendingInode(sb, s0, s, owner, i, data);
    AppendingSizes(sb, s0, s, owner, i, data);
    hide Writing, NoneFrom, BlocksFor;
    forall j | 0 <= j < |s'.inodes| ensures NoneFrom(s', j, BlocksFor(s'.inodes[j].size)) {
      SetInodeNone(s, i, s'.inodes[i], j, BlocksFor(s'.inodes[j].size));
    }
  }

  lemma AppendingSizes(sb: Super, s0: Fs, s: Fs, owner: Owner, i: int, data: seq<Byte>)
    requires Appending(sb, s0, s, owner, i, data, |data|) && |s.inodes| == |s0.inodes|
    ensures forall j :: 0 <= j < |s0.inodes| && j != i ==> s.inodes[j] == s0.inodes[j]
  {
    hide NoneFrom, Owned, Spliced, Backed, Grown;
  }

  lemma SpliceAtEnd(c: seq<Byte>, d: seq<Byte>)
    ensures Splice(c, |c|, d) == c + d
  {
  }

  lemma AppendingInode(sb: Super, s0: Fs, s: Fs, owner: Owner, i: int, data: seq<Byte>)
    requires Appending(sb, s0, s, owner, i, data, |data|)
    ensures Writing(sb, s0, s, owner, i, s0.inodes[i].size, data, |data|)
    ensures |s.inodes| == |s0.inodes| && s.inodes[i] == s0.inodes[i].(addrs := s.inodes[i].addrs)
  {
    hide NoneFrom, Owned, Spliced, Backed, Grown;
  }

  lemma SetInodeNone(s: Fs, i: int, ip: Dinode, j: int, bn: int)
    requires 0 <= i < |s.inodes| && ip.addrs == s.inodes[i].addrs && 0 <= j < |s.inodes| && NoneFrom(s, j, bn)
    ensures NoneFrom(SetInode(s, i, ip), j, bn)
  {
    var s' := SetInode(s, i, ip);
    forall k | bn <= k < MAXFILE && 0 <= k ensures Addr(s', BlockSlot(j, k)) == 0 {
      SetInodeAddr(s, i, ip, BlockSlot(j, k));
    }
    SetInodeAddr(s, i, ip, Table(j));
  }

  /** Every address in the image comes from the counter. */
  lemma AddrBelow(sb: Super, free: int, blocks: seq<Bytes>, inodes: seq<Dinode>, owner: Owner,
          t: Slot)
    requires Owned(sb, View(free, blocks, inodes), owner, {}) && ValidSlot(|inodes|, t)
    ensures
      var a := Addr(View(free, blocks, inodes), t);
      a == 0 || 0 < a < free
  {
    var s := View(free, blocks, inodes);
    var a := Addr(s, t);
    if a != 0 {
      assert a in owner;
      assert s.marked[a];
    }
  }
}
