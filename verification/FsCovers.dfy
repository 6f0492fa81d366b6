/**
 What log_write must be told (kernel/fs.c): a transaction covers its changes when every block
 that differs on disk, be it a data block, an inode's or a bitmap bit's, has been logged.
 */
module FsCovers {
  import opened FsBlocks
  import opened FsFiles

  ghost predicate SameSizes(s: Fs, s': Fs) {
    |s'.marked| == |s.marked| && |s'.blocks| == |s.blocks| && |s'.inodes| == |s.inodes|
  }

  /** Nothing that block b of the disk holds differs. */
  ghost predicate SamePiece(sb: Super, s: Fs, s': Fs, b: int) {
    && SameSizes(s, s')
    && (0 <= b < |s.blocks| ==> s'.blocks[b] == s.blocks[b])
    && (forall i :: 0 <= i < |s.inodes| && InodeBlock(sb, i) == b ==> s'.inodes[i] == s.inodes[i])
    && (forall a :: 0 <= a < |s.marked| && BitmapBlock(sb, a) == b ==> s'.marked[a] == s.marked[a])
  }

  ghost predicate Covers(sb: Super, s: Fs, s': Fs, log: set<int>) {
    SameSizes(s, s') && forall b :: b !in log ==> SamePiece(sb, s, s', b)
  }

  lemma CoversNone(sb: Super, s: Fs, log: set<int>)
    ensures Covers(sb, s, s, log)
  {
  }

  lemma CoversThrough(sb: Super, s: Fs, s1: Fs, s2: Fs, log1: set<int>, log2: set<int>, log: set<int>)
    requires Covers(sb, s, s1, log1) && Covers(sb, s1, s2, log2) && log1 <= log && log2 <= log
    ensures Covers(sb, s, s2, log)
  {
    hide InodeBlock, BitmapBlock;
    forall b | b !in log ensures SamePiece(sb, s, s2, b) {
      assert SamePiece(sb, s, s1, b) && SamePiece(sb, s1, s2, b);
    }
  }

  lemma BallocCovers(sb: Super, s: Fs)
    requires |s.marked| == |s.blocks| && Balloc(sb, s).Mapped?
    ensures Covers(sb, s, Balloc(sb, s).s, Balloc(sb, s).log)
  {
    hide InodeBlock, BitmapBlock, ZeroBytes;
  }

  lemma SetInodeCovers(sb: Super, s: Fs, i: int, ip: Dinode)
    requires 0 <= i < |s.inodes|
    ensures Covers(sb, s, SetInode(s, i, ip), {InodeBlock(sb, i)})
  {
    hide InodeBlock, BitmapBlock;
  }

  lemma SetBlockCovers(sb: Super, s: Fs, a: int, data: Bytes)
    requires 0 <= a < |s.blocks|
    ensures Covers(sb, s, s.(blocks := s.blocks[a := data]), {a})
  {
    hide InodeBlock, BitmapBlock;
  }

  lemma SetSlotCovers(sb: Super, s: Fs, t: Slot, b: int)
    requires ValidSlot(|s.inodes|, t) && |s.inodes[t.i].addrs| == NDIRECT + 1 && 0 <= b < 0x1_0000_0000
    ensures Covers(sb, s, SetSlot(s, t, b), if t.Entry? then {TableAddr(s, t.i)} else {InodeBlock(sb, t.i)})
  {
    hide InodeBlock, BitmapBlock, SetWord;
    var ip := s.inodes[t.i];
    match t
    case Direct(i, k) => SetInodeCovers(sb, s, i, ip.(addrs := ip.addrs[k := b]));
    case Table(i) => SetInodeCovers(sb, s, i, ip.(addrs := ip.addrs[NDIRECT := b]));
    case Entry(i, j) =>
      var a := TableAddr(s, i);
      if 0 < a < |s.blocks| {
        SetBlockCovers(sb, s, a, SetWord(s.blocks[a], j, b));
      } else {
        CoversNone(sb, s, {a});
      }
  }

  /** What Ensure changes besides what it logs: the slot itself. */
  lemma EnsureCovers(sb: Super, s: Fs, t: Slot)
    requires Shaped(sb, s) && sb.size < 0x1_0000_0000 && ValidSlot(|s.inodes|, t) && Ensure(sb, s, t).Mapped?
    ensures
      var m := Ensure(sb, s, t);
      Covers(sb, s, m.s, m.log + if !t.Entry? then {InodeBlock(sb, t.i)}
                                 else if Addr(s, t) == 0 then {TableAddr(s, t.i)} else {})
  {
    hide Covers, InodeBlock, SetSlot;
    var m := Ensure(sb, s, t);
    var slot := if t.Entry? then {TableAddr(s, t.i)} else {InodeBlock(sb, t.i)};
    if Addr(s, t) != 0 {
      CoversNone(sb, s, m.log + if !t.Entry? then {InodeBlock(sb, t.i)} else {});
    } else {
      var m1 := Balloc(sb, s);
      BallocCovers(sb, s);
      assert TableAddr(m1.s, t.i) == TableAddr(s, t.i);
      SetSlotCovers(sb, m1.s, t, m1.addr);
      CoversThrough(sb, s, m1.s, m.s, m1.log, slot, m1.log + slot);
    }
  }

  /** bmap logs what it changes but for the inode, which its caller writes back. */
  lemma BmapCovers(sb: Super, s: Fs, i: int, bn: int)
    requires Shaped(sb, s) && sb.size < 0x1_0000_0000 && 0 <= i < |s.inodes| && 0 <= bn < MAXFILE
    requires Bmap(sb, s, i, bn).Mapped?
    ensures Covers(sb, s, Bmap(sb, s, i, bn).s, Bmap(sb, s, i, bn).log + {InodeBlock(sb, i)})
  {
    hide Covers, InodeBlock, Ensure;
    if bn < NDIRECT {
      EnsureCovers(sb, s, Direct(i, bn));
    } else {
      var m1 := Ensure(sb, s, Table(i));
      var t := Entry(i, bn - NDIRECT);
      EnsureCovers(sb, s, Table(i));
      EnsureCovers(sb, m1.s, t);
      EnsureTable(sb, s, i);
      var m := Bmap(sb, s, i, bn);
      CoversThrough(sb, s, m1.s, m.s, m1.log + {InodeBlock(sb, i)},
                    Ensure(sb, m1.s, t).log + (if Addr(m1.s, t) == 0 then {TableAddr(m1.s, i)} else {}),
                    m.log + {InodeBlock(sb, i)});
    }
  }

  lemma EnsureTable(sb: Super, s: Fs, i: int)
    requires Shaped(sb, s) && sb.size < 0x1_0000_0000 && 0 <= i < |s.inodes| && Ensure(sb, s, Table(i)).Mapped?
    ensures TableAddr(Ensure(sb, s, Table(i)).s, i) == Ensure(sb, s, Table(i)).addr
  {
  }

  /** One round of writei's loop. */
  lemma SteppedCovers(sb: Super, s0: Fs, s: Fs, i: int, off: int, src: seq<Byte>, tot: int, log: set<int>)
    requires Shaped(sb, s) && sb.size < 0x1_0000_0000 && 0 <= i < |s.inodes|
    requires 0 <= off && 0 <= tot < |src| && off + |src| <= MAXBYTES && Stepped(sb, s, i, off, src, tot).Mapped?
    requires Covers(sb, s0, s, log + {InodeBlock(sb, i)})
    ensures
      var m := Stepped(sb, s, i, off, src, tot);
      Covers(sb, s0, m.s, log + m.log + {InodeBlock(sb, i)})
  {
    hide Covers, InodeBlock, Bmap;
    ChunkRange(off, |src|, tot);
    var m1 := Bmap(sb, s, i, BlockNo(off + tot));
    var m := Stepped(sb, s, i, off, src, tot);
    BmapCovers(sb, s, i, BlockNo(off + tot));
    var iblock := {InodeBlock(sb, i)};
    CoversThrough(sb, s0, s, m1.s, log + iblock, m1.log + iblock, log + m1.log + iblock);
    SetBlockCovers(sb, m1.s, m.addr, m.s.blocks[m.addr]);
    assert m.s == m1.s.(blocks := m1.s.blocks[m.addr := m.s.blocks[m.addr]]);
    CoversThrough(sb, s0, m1.s, m.s, log + m1.log + iblock, {m.addr}, log + m.log + iblock);
  }
}
