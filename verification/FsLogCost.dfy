/**
 How many different blocks one writei logs: data blocks, the bitmap blocks of new blocks,
 the indirect table and the inode block, for a bitmap of any size.
 */
module FsLogCost {
  import opened FsBlocks
  import opened FsFiles

  const MAXOPBLOCKS: int := 10

  /**
   After T blocks of a write, `logged` has at most two blocks for each (one for the first
   if it existed already) and `extra` more for the table and the table's bitmap block.
   */
  ghost predicate Charged(s: Fs, i: int, logged: set<int>, T: int, firstExists: bool, extra: int)
    requires 0 <= i < |s.inodes|
  {
    && 0 <= T && 0 <= extra <= 2
    && |logged| <= 2 * T - (if firstExists && T > 0 then 1 else 0) + extra
    && (extra > 0 ==> Addr(s, Table(i)) != 0 && Addr(s, Table(i)) in logged)
  }

  lemma AddTwo(logged: set<int>, a: int, b: int)
    ensures |logged + {a, b}| <= |logged| + 2
  {
    assert logged + {a, b} == logged + {a} + {b};
  }

  lemma AddThree(logged: set<int>, a: int, b: int, c: int)
    ensures |logged + {a, b, c}| <= |logged| + 3
    ensures c in logged ==> |logged + {a, b, c}| <= |logged| + 2
  {
    AddTwo(logged, a, b);
    assert logged + {a, b, c} == logged + {a, b} + {c};
    if c in logged {
      assert logged + {a, b, c} == logged + {a, b};
    }
  }

  lemma AddFour(logged: set<int>, a: int, b: int, c: int, d: int)
    ensures |logged + {a, b, c, d}| <= |logged| + 4
  {
    AddTwo(logged, a, b);
    AddTwo(logged + {a, b}, c, d);
    assert logged + {a, b, c, d} == logged + {a, b} + {c, d};
  }

  /** What bmap logs, by case. */
  lemma BmapLog(sb: Super, s: Fs, owner: Owner, i: int, bn: int)
    requires Owned(sb, s, owner, {}) && 0 <= i < |s.inodes| && 0 <= bn < MAXFILE && Bmap(sb, s, i, bn).Mapped?
    ensures
      var m := Bmap(sb, s, i, bn);
      var table := Addr(s, Table(i));
      && (Addr(s, BlockSlot(i, bn)) != 0 ==> m.log == {} && m.s == s)
      && (Addr(s, BlockSlot(i, bn)) == 0 && bn < NDIRECT ==> m.log == {BitmapBlock(sb, m.addr), m.addr})
      && (Addr(s, BlockSlot(i, bn)) == 0 && bn >= NDIRECT && table != 0 ==>
            m.log == {BitmapBlock(sb, m.addr), m.addr, table})
      && (Addr(s, BlockSlot(i, bn)) == 0 && bn >= NDIRECT && table == 0 ==>
            var t := Addr(m.s, Table(i));
            t != 0 && m.log == {BitmapBlock(sb, t), t, BitmapBlock(sb, m.addr), m.addr})
      && (table != 0 || bn < NDIRECT ==> Addr(m.s, Table(i)) == table)
  {
    hide Held, Holds, Marks;
    if bn < NDIRECT {
      EnsureAddrs(sb, s, owner, Direct(i, bn), Table(i));
    } else {
      var m1 := Ensure(sb, s, Table(i));
      EnsureAddrs(sb, s, owner, Table(i), Table(i));
      EnsureAddrs(sb, s, owner, Table(i), Entry(i, bn - NDIRECT));
      var owner1 := EnsureOwned(sb, s, owner, Table(i));
      EnsureAddrs(sb, m1.s, owner1, Entry(i, bn - NDIRECT), Table(i));
    }
  }

  /** One iteration of writei: bmap's log writes and the data block's own. */
  lemma ChargeNext(sb: Super, s: Fs, owner: Owner, i: int, bn: int, logged: set<int>, T: int,
          firstExists: bool, extra: int)
    returns (extra': int)
    requires Owned(sb, s, owner, {}) && 0 <= i < |s.inodes| && 0 <= bn < MAXFILE && Bmap(sb, s, i, bn).Mapped?
    requires Charged(s, i, logged, T, firstExists, extra)
    requires firstExists && T == 0 ==> Addr(s, BlockSlot(i, bn)) != 0
    ensures
      var m := Bmap(sb, s, i, bn);
      |m.s.inodes| == |s.inodes| && Charged(m.s, i, logged + m.log + {m.addr}, T + 1, firstExists, extra')
  {
    var m := Bmap(sb, s, i, bn);
    var table := Addr(s, Table(i));
    BmapLog(sb, s, owner, i, bn);
    hide Owned, Addr, Bmap, BitmapBlock, BlockSlot;
    extra' := extra;
    if Addr(s, BlockSlot(i, bn)) != 0 {
      assert logged + m.log + {m.addr} == logged + {m.addr};
      return;
    }
    Twice(logged, m.log, m.addr);
    if bn < NDIRECT {
      AddTwo(logged, BitmapBlock(sb, m.addr), m.addr);
    } else if table != 0 {
      AddThree(logged, BitmapBlock(sb, m.addr), m.addr, table);
      extra' := if extra == 0 then 1 else extra;
    } else {
      var t := Addr(m.s, Table(i));
      AddFour(logged, BitmapBlock(sb, t), t, BitmapBlock(sb, m.addr), m.addr);
      extra' := 2;
    }
  }

  /** Logging a block again changes nothing. */
  lemma Twice(logged: set<int>, log: set<int>, x: int)
    requires x in log
    ensures logged + log + {x} == logged + log
  {
  }

  /** The number of blocks that bytes [off, off + n) lie in. */
  function Touched(off: int, n: int): int {
    if n <= 0 then 0 else BlockNo(off + n - 1) - BlockNo(off) + 1
  }

  lemma TouchedNext(off: int, tot: int, n: int)
    requires 0 <= off && 0 <= tot < n && (tot == 0 || InBlock(off + tot) == 0)
    ensures Touched(off, tot + ChunkLen(off, n, tot)) == Touched(off, tot) + 1
    ensures tot + ChunkLen(off, n, tot) < n ==>
              InBlock(off + tot + ChunkLen(off, n, tot)) == 0
  {
  }

  /** The largest chunk of filewrite. */
  const MAXCHUNK: int := (MAXOPBLOCKS - 1 - 1 - 2) / 2 * BSIZE

  /** A chunk of filewrite, inode block included, fits one operation's share of the log. */
  lemma ChunkFits(s: Fs, i: int, logged: set<int>, off: int, n: int, extra: int, inodeBlock: int)
    requires 0 <= i < |s.inodes| && 0 <= off && 0 < n <= MAXCHUNK
    requires Charged(s, i, logged, Touched(off, n), InBlock(off) != 0, extra)
    ensures |logged + {inodeBlock}| <= MAXOPBLOCKS
  {
    assert Touched(off, n) <= if InBlock(off) != 0 then 4 else 3;
  }
}
