/**
 How many blocks a write needs (kernel/fs.c): one for each block of the range the file does not
 have, and one for the indirect table if the range reaches past the direct blocks and there is
 none. bmap and writei run out of space exactly when fewer blocks than that are free.
 */
module FsRoom {
  import opened FsBlocks
  import opened FsFiles

  // ---- free blocks

  /** How many blocks are free. */
  function Unmarked(marked: seq<bool>): nat
    decreases |marked|
  {
    if marked == [] then 0
    else Unmarked(marked[..|marked| - 1]) + if marked[|marked| - 1] then 0 else 1
  }

  lemma {:induction false} UnmarkedSet(marked: seq<bool>, b: int)
    requires 0 <= b < |marked| && !marked[b]
    ensures Unmarked(marked[b := true]) == Unmarked(marked) - 1
    decreases |marked|
  {
    var n := |marked| - 1;
    var m' := marked[b := true];
    if b == n {
      assert m'[..n] == marked[..n];
    } else {
      assert m'[..n] == marked[..n][b := true];
      UnmarkedSet(marked[..n], b);
    }
  }

  lemma {:induction false} UnmarkedNone(marked: seq<bool>)
    ensures Unmarked(marked) == 0 <==> forall a :: 0 <= a < |marked| ==> marked[a]
    decreases |marked|
  {
    if marked != [] {
      var n := |marked| - 1;
      UnmarkedNone(marked[..n]);
      assert forall a :: 0 <= a < n ==> marked[..n][a] == marked[a];
    }
  }

  lemma FullIff(marked: seq<bool>)
    ensures FirstFree(marked, 0) == |marked| <==> Unmarked(marked) == 0
  {
    hide Unmarked, FirstFree;
    UnmarkedNone(marked);
  }

  // ---- missing blocks

  /** 1 for a slot without an address. */
  function Lack(s: Fs, t: Slot): nat
    requires ValidSlot(|s.inodes|, t)
  {
    if Addr(s, t) == 0 then 1 else 0
  }

  /** The blocks from a up to b that file i does not have. */
  function Holes(s: Fs, i: int, a: int, b: int): nat
    requires 0 <= i < |s.inodes| && 0 <= a && b <= MAXFILE
    decreases b - a
  {
    if a >= b then 0 else Holes(s, i, a, b - 1) + Lack(s, BlockSlot(i, b - 1))
  }

  /** The blocks to allocate before file i has its blocks from a up to b. */
  function Need(s: Fs, i: int, a: int, b: int): nat
    requires 0 <= i < |s.inodes| && 0 <= a && b <= MAXFILE
  {
    Holes(s, i, a, b) + if a < b && b > NDIRECT then Lack(s, Table(i)) else 0
  }

  /** One past the last block that n bytes from off on touch. */
  function EndBlock(off: int, n: int): int { if n == 0 then BlockNo(off) else BlockNo(off + n - 1) + 1 }

  lemma EndRange(off: int, n: int)
    requires 0 <= off && 0 <= n && off + n <= MAXBYTES
    ensures 0 <= BlockNo(off) <= EndBlock(off, n) && (off < MAXBYTES ==> EndBlock(off, n) <= MAXFILE)
    ensures off == MAXBYTES ==> n == 0
  {
  }

  /** The blocks to allocate before n bytes can be written to file i at off. */
  function NeedFor(s: Fs, i: int, off: int, n: int): nat
    requires 0 <= i < |s.inodes| && 0 <= off && 0 <= n && off + n <= MAXBYTES
  {
    EndRange(off, n);
    if n == 0 then 0 else Need(s, i, BlockNo(off), EndBlock(off, n))
  }

  lemma {:induction false} HolesAgree(s: Fs, s': Fs, i: int, a: int, b: int)
    requires 0 <= i < |s.inodes| == |s'.inodes| && 0 <= a && b <= MAXFILE
    requires forall k :: a <= k < b ==> Lack(s, BlockSlot(i, k)) == Lack(s', BlockSlot(i, k))
    ensures Holes(s, i, a, b) == Holes(s', i, a, b)
    decreases b - a
  {
    hide Lack, BlockSlot;
    if a < b {
      HolesAgree(s, s', i, a, b - 1);
    }
  }

  lemma {:induction false} HolesNone(s: Fs, i: int, a: int, b: int)
    requires 0 <= i < |s.inodes| && 0 <= a && b <= MAXFILE
    requires forall k :: a <= k < b ==> Lack(s, BlockSlot(i, k)) == 0
    ensures Holes(s, i, a, b) == 0
    decreases b - a
  {
    hide Lack, BlockSlot;
    if a < b {
      HolesNone(s, i, a, b - 1);
    }
  }

  lemma {:induction false} HolesSplit(s: Fs, i: int, a: int, b: int, c: int)
    requires 0 <= i < |s.inodes| && 0 <= a <= b <= c <= MAXFILE
    ensures Holes(s, i, a, c) == Holes(s, i, a, b) + Holes(s, i, b, c)
    decreases c - b
  {
    hide Lack, BlockSlot;
    if b < c {
      HolesSplit(s, i, a, b, c - 1);
    }
  }

  lemma NeedGrows(s: Fs, i: int, a: int, b: int, c: int)
    requires 0 <= i < |s.inodes| && 0 <= a <= b <= c <= MAXFILE
    ensures Need(s, i, a, b) <= Need(s, i, a, c)
  {
    hide Lack, Holes;
    HolesSplit(s, i, a, b, c);
  }

  // ---- files that have grown

  /** File i now has the blocks from a up to b; its other blocks are as they were. */
  ghost predicate Filled(s0: Fs, s: Fs, i: int, a: int, b: int) {
    && 0 <= i < |s0.inodes| == |s.inodes| && 0 <= a <= b <= MAXFILE
    && (forall k :: a <= k < b ==> Addr(s, BlockSlot(i, k)) != 0)
    && (forall k :: 0 <= k < MAXFILE && !(a <= k < b) ==> Addr(s, BlockSlot(i, k)) == Addr(s0, BlockSlot(i, k)))
    && if a < b && b > NDIRECT then Addr(s, Table(i)) != 0 else Addr(s, Table(i)) == Addr(s0, Table(i))
  }

  lemma FilledMore(s0: Fs, s: Fs, s': Fs, i: int, a: int, b: int, b': int, c: int)
    requires Filled(s0, s, i, a, b) && Filled(s, s', i, b', c) && a <= b' <= b <= c
    ensures Filled(s0, s', i, a, c)
  {
    hide Addr, BlockSlot;
  }

  /** What is left to allocate once part of the range is there. */
  lemma NeedThrough(s0: Fs, s: Fs, i: int, a: int, b: int, b': int, c: int)
    requires Filled(s0, s, i, a, b) && a <= b' <= b <= c <= MAXFILE
    ensures Need(s0, i, a, c) == Need(s0, i, a, b) + Need(s, i, b', c)
  {
    hide Addr, BlockSlot, Holes;
    HolesSplit(s0, i, a, b, c);
    HolesSplit(s, i, b', b, c);
    HolesNone(s, i, b', b);
    HolesAgree(s0, s, i, b, c);
  }

  /** n bytes from off on now have their blocks, and those were taken from the free ones. */
  ghost predicate Grew(s0: Fs, s: Fs, i: int, off: int, n: int) {
    && 0 <= off && 0 <= n && off + n <= MAXBYTES && 0 <= i < |s0.inodes| == |s.inodes|
    && if n == 0 then s.marked == s0.marked && (forall t :: ValidSlot(|s.inodes|, t) ==> Addr(s, t) == Addr(s0, t))
       else
         && Filled(s0, s, i, BlockNo(off), EndBlock(off, n))
         && Unmarked(s.marked) + NeedFor(s0, i, off, n) == Unmarked(s0.marked)
  }

  lemma GrewNone(s: Fs, i: int, off: int)
    requires 0 <= i < |s.inodes| && 0 <= off <= MAXBYTES
    ensures Grew(s, s, i, off, 0)
  {
  }

  lemma BlockSteps(off: int, tot: int, m: int)
    requires 0 <= off && 0 < tot && 0 < m
    ensures BlockNo(off) <= BlockNo(off + tot) <= EndBlock(off, tot) <= EndBlock(off, tot + m)
    ensures EndBlock(off + tot, m) == EndBlock(off, tot + m)
  {
  }

  /** What the next m bytes need, when the first tot have their blocks. */
  lemma NeedNext(s0: Fs, s: Fs, i: int, off: int, tot: int, m: int)
    requires Grew(s0, s, i, off, tot) && 0 < m && off + tot + m <= MAXBYTES
    ensures NeedFor(s0, i, off, tot + m) == NeedFor(s0, i, off, tot) + NeedFor(s, i, off + tot, m)
    ensures Unmarked(s.marked) + NeedFor(s0, i, off, tot) == Unmarked(s0.marked)
  {
    hide Addr, BlockSlot, Need, BlockNo, EndBlock, Unmarked;
    EndRange(off, tot + m);
    if tot == 0 {
      NeedSame(s0, s, i, BlockNo(off), EndBlock(off, m));
    } else {
      BlockSteps(off, tot, m);
      NeedThrough(s0, s, i, BlockNo(off), EndBlock(off, tot), BlockNo(off + tot), EndBlock(off, tot + m));
    }
  }

  lemma NeedSame(s0: Fs, s: Fs, i: int, a: int, b: int)
    requires 0 <= i < |s0.inodes| == |s.inodes| && 0 <= a && b <= MAXFILE
    requires forall t :: ValidSlot(|s.inodes|, t) ==> Addr(s, t) == Addr(s0, t)
    ensures Need(s0, i, a, b) == Need(s, i, a, b)
  {
    hide Addr, Holes;
    forall k | a <= k < b ensures Lack(s0, BlockSlot(i, k)) == Lack(s, BlockSlot(i, k)) {
      assert ValidSlot(|s.inodes|, BlockSlot(i, k));
    }
    HolesAgree(s0, s, i, a, b);
    assert ValidSlot(|s.inodes|, Table(i));
  }

  lemma GrewNext(s0: Fs, s: Fs, s': Fs, i: int, off: int, tot: int, m: int)
    requires Grew(s0, s, i, off, tot) && Grew(s, s', i, off + tot, m) && 0 < m
    ensures Grew(s0, s', i, off, tot + m)
  {
    NeedNext(s0, s, i, off, tot, m);
    EndRange(off, tot + m);
    if tot == 0 {
      hide BlockNo, EndBlock, Unmarked, NeedFor;
      FilledSame(s0, s, s', i, BlockNo(off), EndBlock(off, m));
    } else {
      BlockSteps(off, tot, m);
      hide Addr, BlockSlot, BlockNo, EndBlock, Unmarked, NeedFor, Filled;
      FilledMore(s0, s, s', i, BlockNo(off), EndBlock(off, tot), BlockNo(off + tot), EndBlock(off, tot + m));
    }
  }

  lemma FilledSame(s0: Fs, s: Fs, s': Fs, i: int, a: int, b: int)
    requires |s0.inodes| == |s.inodes| && forall t :: ValidSlot(|s.inodes|, t) ==> Addr(s, t) == Addr(s0, t)
    requires Filled(s, s', i, a, b)
    ensures Filled(s0, s', i, a, b)
  {
    hide Addr;
    forall k | 0 <= k < MAXFILE ensures Addr(s, BlockSlot(i, k)) == Addr(s0, BlockSlot(i, k)) {
      assert ValidSlot(|s.inodes|, BlockSlot(i, k));
    }
    assert ValidSlot(|s.inodes|, Table(i));
  }

  lemma NeedForGrows(s: Fs, i: int, off: int, n: int, n': int)
    requires 0 <= i < |s.inodes| && 0 <= off && 0 <= n <= n' && off + n' <= MAXBYTES
    ensures NeedFor(s, i, off, n) <= NeedFor(s, i, off, n')
  {
    hide Need;
    if 0 < n < n' {
      BlockSteps(off, n, n' - n);
      EndRange(off, n');
      NeedGrows(s, i, BlockNo(off), EndBlock(off, n), EndBlock(off, n'));
    }
  }

  // ---- one iteration of writei

  /** A slot is filled from the free blocks, and is left empty only if there are none. */
  lemma EnsureRoom(sb: Super, s: Fs, t: Slot)
    requires Shaped(sb, s) && sb.size < 0x1_0000_0000 && ValidSlot(|s.inodes|, t)
    ensures
      var m := Ensure(sb, s, t);
      && (m.Full? <==> Unmarked(s.marked) < Lack(s, t))
      && (m.Mapped? ==> Unmarked(m.s.marked) + Lack(s, t) == Unmarked(s.marked))
  {
    hide Unmarked, FirstFree, SetWord, ZeroBytes, Addr;
    FullIff(s.marked);
    var b := FirstFree(s.marked, 0);
    if b < |s.marked| {
      UnmarkedSet(s.marked, b);
    }
  }

  /** bmap runs out of space exactly when fewer blocks are free than it has to allocate. */
  lemma BmapRoom(sb: Super, s: Fs, owner: Owner, i: int, bn: int)
    requires Owned(sb, s, owner, {}) && 0 <= i < |s.inodes| && 0 <= bn < MAXFILE
    ensures
      var m := Bmap(sb, s, i, bn);
      && (m.Full? <==> Unmarked(s.marked) < Need(s, i, bn, bn + 1))
      && (m.Mapped? ==> Unmarked(m.s.marked) + Need(s, i, bn, bn + 1) == Unmarked(s.marked))
  {
    hide Held, Holds, Marks, Unmarked, Ensure, Addr;
    NeedOne(s, i, bn);
    if bn < NDIRECT {
      EnsureRoom(sb, s, Direct(i, bn));
    } else {
      var t := Entry(i, bn - NDIRECT);
      EnsureRoom(sb, s, Table(i));
      var m1 := Ensure(sb, s, Table(i));
      if m1.Mapped? {
        EnsureAddrs(sb, s, owner, Table(i), t);
        EnsureRoom(sb, m1.s, t);
      }
      TableFirst(s, i, bn - NDIRECT);
    }
  }

  lemma NeedOne(s: Fs, i: int, bn: int)
    requires 0 <= i < |s.inodes| && 0 <= bn < MAXFILE
    ensures Need(s, i, bn, bn + 1) == Lack(s, BlockSlot(i, bn)) + if bn >= NDIRECT then Lack(s, Table(i)) else 0
  {
    hide Addr;
    assert Holes(s, i, bn, bn) == 0;
  }

  /** Without a table there are no blocks in it. */
  lemma TableFirst(s: Fs, i: int, j: int)
    requires 0 <= i < |s.inodes| && 0 <= j < NINDIRECT
    ensures Lack(s, Table(i)) <= Lack(s, Entry(i, j))
  {
  }

  /** bmap touches the address of no other block of any file. */
  lemma BmapOthers(sb: Super, s: Fs, owner: Owner, i: int, bn: int, j: int, k: int)
    requires Owned(sb, s, owner, {}) && 0 <= i < |s.inodes| && 0 <= bn < MAXFILE && Bmap(sb, s, i, bn).Mapped?
    requires 0 <= j < |s.inodes| && 0 <= k < MAXFILE && !(j == i && k == bn)
    ensures var m := Bmap(sb, s, i, bn);
            |m.s.inodes| == |s.inodes| && Addr(m.s, BlockSlot(j, k)) == Addr(s, BlockSlot(j, k))
  {
    var u := BlockSlot(j, k);
    if bn < NDIRECT {
      EnsureAddrs(sb, s, owner, Direct(i, bn), u);
    } else {
      var m1 := Ensure(sb, s, Table(i));
      EnsureAddrs(sb, s, owner, Table(i), u);
      EnsureAddrs(sb, s, owner, Table(i), Table(i));
      var owner1 := EnsureOwned(sb, s, owner, Table(i));
      EnsureAddrs(sb, m1.s, owner1, Entry(i, bn - NDIRECT), u);
    }
  }

  /** The table of a file is allocated with the first block that needs it, and no other file's. */
  lemma BmapTables(sb: Super, s: Fs, owner: Owner, i: int, bn: int, j: int)
    requires Owned(sb, s, owner, {}) && 0 <= i < |s.inodes| && 0 <= bn < MAXFILE && Bmap(sb, s, i, bn).Mapped?
    requires 0 <= j < |s.inodes|
    ensures
      var m := Bmap(sb, s, i, bn);
      && |m.s.inodes| == |s.inodes|
      && if j == i && bn >= NDIRECT then Addr(m.s, Table(j)) != 0 else Addr(m.s, Table(j)) == Addr(s, Table(j))
  {
    var u := Table(j);
    if bn < NDIRECT {
      EnsureAddrs(sb, s, owner, Direct(i, bn), u);
    } else {
      var m1 := Ensure(sb, s, Table(i));
      EnsureAddrs(sb, s, owner, Table(i), u);
      EnsureAddrs(sb, s, owner, Table(i), Table(i));
      var owner1 := EnsureOwned(sb, s, owner, Table(i));
      EnsureAddrs(sb, m1.s, owner1, Entry(i, bn - NDIRECT), u);
    }
  }

  lemma BlockSlotValid(n: nat, j: int, k: int)
    requires 0 <= j < n && 0 <= k < MAXFILE
    ensures ValidSlot(n, BlockSlot(j, k))
  {
  }

  lemma StepOthers(sb: Super, s: Fs, owner: Owner, i: int, off: int, src: seq<Byte>, tot: int,
          j: int, k: int)
    requires Owned(sb, s, owner, {}) && 0 <= i < |s.inodes|
    requires 0 <= off && 0 <= tot < |src| && off + |src| <= MAXBYTES && Stepped(sb, s, i, off, src, tot).Mapped?
    requires 0 <= j < |s.inodes| && 0 <= k < MAXFILE && !(j == i && k == BlockNo(off + tot))
    ensures |Stepped(sb, s, i, off, src, tot).s.inodes| == |s.inodes|
    ensures Addr(Stepped(sb, s, i, off, src, tot).s, BlockSlot(j, k)) == Addr(s, BlockSlot(j, k))
  {
    var m, bn := ChunkLen(off, |src|, tot), BlockNo(off + tot);
    ChunkRange(off, |src|, tot);
    hide Held, Holds, Marks, Addr, Bmap, Patch, BlockSlot, BlockNo, InBlock, ChunkLen;
    var r := Bmap(sb, s, i, bn);
    var owner' := BmapSound(sb, s, owner, i, bn);
    BmapOthers(sb, s, owner, i, bn, j, k);
    BlockSlotValid(|s.inodes|, j, k);
    PatchAddr(sb, r.s, owner', i, bn, InBlock(off + tot), src[tot..tot + m], BlockSlot(j, k));
  }

  lemma StepTables(sb: Super, s: Fs, owner: Owner, i: int, off: int, src: seq<Byte>, tot: int, j: int)
    requires Owned(sb, s, owner, {}) && 0 <= i < |s.inodes|
    requires 0 <= off && 0 <= tot < |src| && off + |src| <= MAXBYTES && Stepped(sb, s, i, off, src, tot).Mapped?
    requires 0 <= j < |s.inodes|
    ensures
      var s' := Stepped(sb, s, i, off, src, tot).s;
      && |s'.inodes| == |s.inodes|
      && if j == i && BlockNo(off + tot) >= NDIRECT then Addr(s', Table(j)) != 0
         else Addr(s', Table(j)) == Addr(s, Table(j))
  {
    var m, bn := ChunkLen(off, |src|, tot), BlockNo(off + tot);
    ChunkRange(off, |src|, tot);
    hide Held, Holds, Marks, Addr, Bmap, Patch, BlockSlot, BlockNo, InBlock, ChunkLen;
    var r := Bmap(sb, s, i, bn);
    var owner' := BmapSound(sb, s, owner, i, bn);
    BmapTables(sb, s, owner, i, bn, j);
    PatchAddr(sb, r.s, owner', i, bn, InBlock(off + tot), src[tot..tot + m], Table(j));
  }

  lemma StepMapped(sb: Super, s: Fs, owner: Owner, i: int, off: int, src: seq<Byte>, tot: int)
    requires Owned(sb, s, owner, {}) && 0 <= i < |s.inodes|
    requires 0 <= off && 0 <= tot < |src| && off + |src| <= MAXBYTES && Stepped(sb, s, i, off, src, tot).Mapped?
    ensures
      var s' := Stepped(sb, s, i, off, src, tot).s;
      && 0 <= BlockNo(off + tot) < MAXFILE && Bmap(sb, s, i, BlockNo(off + tot)).Mapped?
      && |s'.inodes| == |s.inodes| && Addr(s', BlockSlot(i, BlockNo(off + tot))) != 0
      && s'.marked == Bmap(sb, s, i, BlockNo(off + tot)).s.marked
  {
    var m, bn := ChunkLen(off, |src|, tot), BlockNo(off + tot);
    ChunkRange(off, |src|, tot);
    hide Held, Holds, Marks, Addr, Bmap, Patch, BlockSlot, BlockNo, InBlock, ChunkLen;
    var r := Bmap(sb, s, i, bn);
    var owner' := BmapSound(sb, s, owner, i, bn);
    BlockSlotValid(|s.inodes|, i, bn);
    PatchAddr(sb, r.s, owner', i, bn, InBlock(off + tot), src[tot..tot + m], BlockSlot(i, bn));
  }

  /** One iteration of writei's loop allocates what its bytes need. */
  lemma StepGrew(sb: Super, s: Fs, owner: Owner, i: int, off: int, src: seq<Byte>, tot: int)
    requires Owned(sb, s, owner, {}) && 0 <= i < |s.inodes|
    requires 0 <= off && 0 <= tot < |src| && off + |src| <= MAXBYTES && Stepped(sb, s, i, off, src, tot).Mapped?
    ensures Grew(s, Stepped(sb, s, i, off, src, tot).s, i, off + tot, ChunkLen(off, |src|, tot))
  {
    var bn := BlockNo(off + tot);
    ChunkRange(off, |src|, tot);
    ChunkEnd(off, |src|, tot);
    hide *;
    StepMapped(sb, s, owner, i, off, src, tot);
    BmapRoom(sb, s, owner, i, bn);
    var s' := Stepped(sb, s, i, off, src, tot).s;
    assert Filled(s, s', i, bn, bn + 1) by {
      forall k | 0 <= k < MAXFILE && !(bn <= k < bn + 1)
        ensures Addr(s', BlockSlot(i, k)) == Addr(s, BlockSlot(i, k))
      {
        StepOthers(sb, s, owner, i, off, src, tot, i, k);
      }
      StepTables(sb, s, owner, i, off, src, tot, i);
      FilledOne(s, s', i, bn);
    }
    GrewOne(s, s', i, off + tot, ChunkLen(off, |src|, tot));
  }

  lemma FilledOne(s: Fs, s': Fs, i: int, bn: int)
    requires 0 <= i < |s.inodes| == |s'.inodes| && 0 <= bn < MAXFILE && Addr(s', BlockSlot(i, bn)) != 0
    requires forall k :: 0 <= k < MAXFILE && k != bn ==> Addr(s', BlockSlot(i, k)) == Addr(s, BlockSlot(i, k))
    requires if bn >= NDIRECT then Addr(s', Table(i)) != 0 else Addr(s', Table(i)) == Addr(s, Table(i))
    ensures Filled(s, s', i, bn, bn + 1)
  {
    hide Addr, BlockSlot;
  }

  lemma GrewOne(s: Fs, s': Fs, i: int, at: int, m: int)
    requires 0 <= at && 0 < m && at + m <= MAXBYTES && EndBlock(at, m) == BlockNo(at) + 1
    requires Filled(s, s', i, BlockNo(at), BlockNo(at) + 1)
    requires Unmarked(s'.marked) + Need(s, i, BlockNo(at), BlockNo(at) + 1) == Unmarked(s.marked)
    ensures Grew(s, s', i, at, m)
  {
    hide Filled, Need, Unmarked;
    FilledSize(s, s', i, BlockNo(at), BlockNo(at) + 1);
  }

  lemma FilledSize(s: Fs, s': Fs, i: int, a: int, b: int)
    requires Filled(s, s', i, a, b)
    ensures 0 <= i < |s.inodes| == |s'.inodes| && 0 <= a <= b <= MAXFILE
  {
  }

  /** The bytes one iteration copies lie in one block. */
  lemma ChunkEnd(off: int, n: int, tot: int)
    requires 0 <= off && 0 <= tot < n && off + n <= MAXBYTES
    ensures
      var m := ChunkLen(off, n, tot);
      0 < m && off + tot + m <= MAXBYTES && EndBlock(off + tot, m) == BlockNo(off + tot) + 1
  {
    BlockRange(off + tot);
  }

  lemma NeedForOne(s: Fs, i: int, at: int, m: int)
    requires 0 <= i < |s.inodes| && 0 <= at && 0 < m && at + m <= MAXBYTES && EndBlock(at, m) == BlockNo(at) + 1
    ensures 0 <= BlockNo(at) < MAXFILE && NeedFor(s, i, at, m) == Need(s, i, BlockNo(at), BlockNo(at) + 1)
  {
  }

  /** Where an iteration stops, the range asked for needs more blocks than there are. */
  lemma StepFull(sb: Super, s0: Fs, s: Fs, owner: Owner, i: int, off: int, src: seq<Byte>, tot: int)
    requires Owned(sb, s, owner, {}) && 0 <= off && 0 <= tot < |src| && off + |src| <= MAXBYTES
    requires Grew(s0, s, i, off, tot) && 0 <= i < |s.inodes| == |s0.inodes|
    requires 0 <= BlockNo(off + tot) < MAXFILE && Bmap(sb, s, i, BlockNo(off + tot)).Full?
    ensures Unmarked(s0.marked) < NeedFor(s0, i, off, |src|)
  {
    hide *;
    var m := ChunkLen(off, |src|, tot);
    ChunkRange(off, |src|, tot);
    ChunkEnd(off, |src|, tot);
    BmapRoom(sb, s, owner, i, BlockNo(off + tot));
    NeedForOne(s, i, off + tot, m);
    NeedNext(s0, s, i, off, tot, m);
    NeedForGrows(s0, i, off, tot + m, |src|);
  }

  lemma GrewRoom(s0: Fs, s: Fs, i: int, off: int, n: int)
    requires Grew(s0, s, i, off, n)
    ensures 0 <= off && 0 <= n && off + n <= MAXBYTES && 0 <= i < |s0.inodes| == |s.inodes|
    ensures Unmarked(s.marked) + NeedFor(s0, i, off, n) == Unmarked(s0.marked)
  {
    hide Unmarked, Filled;
  }

  /** Only the size of the file changes. */
  lemma GrewResized(s0: Fs, s: Fs, i: int, off: int, n: int, size: int)
    requires Grew(s0, s, i, off, n) && 0 <= i < |s.inodes|
    ensures Grew(s0, SetInode(s, i, s.inodes[i].(size := size)), i, off, n)
  {
    var s' := SetInode(s, i, s.inodes[i].(size := size));
    forall t | ValidSlot(|s.inodes|, t) ensures Addr(s', t) == Addr(s, t) {
      SetInodeAddr(s, i, s'.inodes[i], t);
    }
    hide Addr, Unmarked, NeedFor, BlockNo, EndBlock;
    if n > 0 {
      SameFilled(s0, s, s', i, BlockNo(off), EndBlock(off, n));
    }
  }

  lemma SameFilled(s0: Fs, s: Fs, s': Fs, i: int, a: int, b: int)
    requires |s'.inodes| == |s.inodes| && forall t :: ValidSlot(|s.inodes|, t) ==> Addr(s', t) == Addr(s, t)
    requires Filled(s0, s, i, a, b)
    ensures Filled(s0, s', i, a, b)
  {
    hide Addr;
    forall k | 0 <= k < MAXFILE ensures Addr(s', BlockSlot(i, k)) == Addr(s, BlockSlot(i, k)) {
      assert ValidSlot(|s.inodes|, BlockSlot(i, k));
    }
    assert ValidSlot(|s.inodes|, Table(i));
  }
}
