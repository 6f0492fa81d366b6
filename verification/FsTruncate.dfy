/** itrunc of kernel/fs.c: every block of a file is freed once, and no block of another file. */
module FsTruncate {
  import opened FsBlocks
  import opened FsFiles

  function Unmark(s: Fs, a: int): Fs
    requires 0 <= a < |s.marked|
  {
    s.(marked := s.marked[a := false])
  }

  // ---- direct blocks

  /** bfree of direct block k, and the slot cleared. */
  function DropDirect(s: Fs, i: int, k: int): Fs
    requires 0 <= i < |s.inodes| && |s.inodes[i].addrs| == NDIRECT + 1 && 0 <= k < NDIRECT
    requires 0 <= s.inodes[i].addrs[k] < |s.marked|
  {
    var ip := s.inodes[i];
    if ip.addrs[k] == 0 then s else SetInode(Unmark(s, ip.addrs[k]), i, ip.(addrs := ip.addrs[k := 0]))
  }

  lemma DropDirectAddr(s: Fs, i: int, k: int, t: Slot)
    requires 0 <= i < |s.inodes| && |s.inodes[i].addrs| == NDIRECT + 1 && 0 <= k < NDIRECT
    requires 0 <= s.inodes[i].addrs[k] < |s.marked| && ValidSlot(|s.inodes|, t)
    ensures Addr(DropDirect(s, i, k), t) == if t == Direct(i, k) then 0 else Addr(s, t)
  {
  }

  /** The block is marked, so bfree does not panic, and afterwards nobody owns it. */
  lemma DropDirectOwned(sb: Super, s: Fs, owner: Owner, i: int, k: int)
    requires Owned(sb, s, owner, {}) && 0 <= i < |s.inodes| && 0 <= k < NDIRECT
    ensures
      var a := s.inodes[i].addrs[k];
      && 0 <= a < |s.marked| && (a != 0 ==> s.marked[a])
      && Owned(sb, DropDirect(s, i, k), owner - {a}, {})
  {
    var a := s.inodes[i].addrs[k];
    assert a == Addr(s, Direct(i, k));
    if a == 0 {
      assert 0 !in owner;
      assert owner - {0} == owner;
    } else {
      assert a in owner && owner[a] == Direct(i, k);
      var s' := DropDirect(s, i, k);
      forall t | ValidSlot(|s.inodes|, t) ensures Addr(s', t) == if t == Direct(i, k) then 0 else Addr(s, t) {
        DropDirectAddr(s, i, k, t);
      }
      forall b | 0 <= b < |s'.marked| ensures s'.marked[b] <==> b < sb.datastart || b in owner - {a} {
        assert s.marked[b] <==> b < sb.datastart || b in owner;
      }
    }
  }

  // ---- the indirect table

  /** Block a is an entry of file i's table with an index below n. */
  ghost predicate EntryBelow(owner: Owner, i: int, n: int, a: int) {
    a in owner && owner[a].Entry? && owner[a].i == i && owner[a].j < n
  }

  /** Between the iterations of itrunc's second loop: the first n entries are unmarked. */
  ghost predicate Releasing(sb: Super, s0: Fs, s: Fs, owner: Owner, i: int, n: int) {
    && Owned(sb, s0, owner, {}) && 0 <= i < |s0.inodes| && Addr(s0, Table(i)) != 0 && 0 <= n <= NINDIRECT
    && s == s0.(marked := s.marked) && |s.marked| == |s0.marked|
    && forall a {:trigger s.marked[a]} :: 0 <= a < |s.marked| ==>
         (s.marked[a] <==> s0.marked[a] && !EntryBelow(owner, i, n, a))
  }

  function DropEntry(s: Fs, a: int): Fs
    requires 0 <= a < |s.marked|
  {
    if a == 0 then s else Unmark(s, a)
  }

  lemma ReleasingNext(sb: Super, s0: Fs, s: Fs, owner: Owner, i: int, n: int)
    requires Releasing(sb, s0, s, owner, i, n) && n < NINDIRECT
    ensures
      var table := Addr(s0, Table(i));
      && 0 < table < |s.blocks|
      && var a := Word(s.blocks[table], n);
      && 0 <= a < |s.marked| && (a != 0 ==> s.marked[a])
      && Releasing(sb, s0, DropEntry(s, a), owner, i, n + 1)
  {
    var table := Addr(s0, Table(i));
    assert table in owner;
    var a := Word(s.blocks[table], n);
    assert a == Addr(s0, Entry(i, n));
    if a != 0 {
      assert a in owner && owner[a] == Entry(i, n);
      assert s0.marked[a];
    }
    var s' := DropEntry(s, a);
    forall b | 0 <= b < |s'.marked| ensures s'.marked[b] <==> s0.marked[b] && !EntryBelow(owner, i, n + 1, b) {
      assert s.marked[b] <==> s0.marked[b] && !EntryBelow(owner, i, n, b);
      if b in owner && owner[b] == Entry(i, n) {
        assert Addr(s0, owner[b]) == b;
      }
    }
  }

  ghost predicate OfTable(i: int, t: Slot) {
    t == Table(i) || (t.Entry? && t.i == i)
  }

  ghost function WithoutTable(owner: Owner, i: int): Owner {
    map a | a in owner && !OfTable(i, owner[a]) :: owner[a]
  }

  /** bfree of the table itself, and its slot cleared. */
  function DropTable(s: Fs, i: int): Fs
    requires 0 <= i < |s.inodes| && |s.inodes[i].addrs| == NDIRECT + 1
    requires 0 <= s.inodes[i].addrs[NDIRECT] < |s.marked|
  {
    var ip := s.inodes[i];
    SetInode(Unmark(s, ip.addrs[NDIRECT]), i, ip.(addrs := ip.addrs[NDIRECT := 0]))
  }

  lemma DropTableAddr(s: Fs, i: int, t: Slot)
    requires 0 <= i < |s.inodes| && |s.inodes[i].addrs| == NDIRECT + 1
    requires 0 <= s.inodes[i].addrs[NDIRECT] < |s.marked| && ValidSlot(|s.inodes|, t)
    ensures Addr(DropTable(s, i), t) == if OfTable(i, t) then 0 else Addr(s, t)
  {
  }

  lemma ReleasingDone(sb: Super, s0: Fs, s: Fs, owner: Owner, i: int)
    requires Releasing(sb, s0, s, owner, i, NINDIRECT)
    ensures
      var a := s.inodes[i].addrs[NDIRECT];
      && 0 < a < |s.marked| && s.marked[a]
      && Owned(sb, DropTable(s, i), WithoutTable(owner, i), {})
  {
    var a := s.inodes[i].addrs[NDIRECT];
    assert a == Addr(s0, Table(i));
    assert a in owner && owner[a] == Table(i);
    assert s0.marked[a];
    var s', owner' := DropTable(s, i), WithoutTable(owner, i);
    forall t | ValidSlot(|s.inodes|, t) ensures Addr(s', t) == if OfTable(i, t) then 0 else Addr(s0, t) {
      DropTableAddr(s, i, t);
      SameBlocksSameAddr(s0, s, t);
    }
    hide Addr;
    DropTableMarks(sb, s0, s, owner, i);
  }

  lemma SameBlocksSameAddr(s: Fs, s': Fs, t: Slot)
    requires s' == s.(marked := s'.marked) && ValidSlot(|s.inodes|, t)
    ensures Addr(s', t) == Addr(s, t)
  {
  }

  lemma DropTableMarks(sb: Super, s0: Fs, s: Fs, owner: Owner, i: int)
    requires Releasing(sb, s0, s, owner, i, NINDIRECT)
    requires var a := s.inodes[i].addrs[NDIRECT]; 0 <= a < |s.marked| && a in owner && owner[a] == Table(i)
    ensures Marks(sb, DropTable(s, i), WithoutTable(owner, i), {})
  {
    var a := s.inodes[i].addrs[NDIRECT];
    var s', owner' := DropTable(s, i), WithoutTable(owner, i);
    forall b | 0 <= b < |s'.marked| ensures s'.marked[b] <==> b < sb.datastart || b in owner' {
      assert s0.marked[b] <==> b < sb.datastart || b in owner;
      assert s.marked[b] <==> s0.marked[b] && !EntryBelow(owner, i, NINDIRECT, b);
      if b in owner {
        assert ValidSlot(|s0.inodes|, owner[b]) && Addr(s0, owner[b]) == b;
      }
    }
  }

  // ---- the whole of itrunc

  /** Everything but file i's addresses and the marks is as in s0. */
  ghost predicate OnlyFreed(s0: Fs, s: Fs, i: int) {
    && s.blocks == s0.blocks && |s.marked| == |s0.marked| && SameInodes(s0, s, i)
  }

  /** Between the iterations of itrunc's first loop: the first n direct slots are empty. */
  ghost predicate Truncating(sb: Super, s0: Fs, s: Fs, owner: Owner, i: int, n: int) {
    && Owned(sb, s, owner, {}) && 0 <= i < |s0.inodes| && OnlyFreed(s0, s, i) && 0 <= n <= NDIRECT
    && forall k :: 0 <= k < n ==> s.inodes[i].addrs[k] == 0
  }

  lemma TruncatingStart(sb: Super, s: Fs, owner: Owner, i: int)
    requires FsInv(sb, s, owner) && 0 <= i < |s.inodes|
    ensures Truncating(sb, s, s, owner, i, 0)
  {
    hide Owned;
  }

  lemma TruncatingNext(sb: Super, s0: Fs, s: Fs, owner: Owner, i: int, n: int)
    requires Truncating(sb, s0, s, owner, i, n) && n < NDIRECT
    ensures 0 <= i < |s.inodes| && |s.inodes[i].addrs| == NDIRECT + 1
    ensures
      var a := s.inodes[i].addrs[n];
      && 0 <= a < |s.marked| && (a != 0 ==> s.marked[a])
      && Truncating(sb, s0, DropDirect(s, i, n), owner - {a}, i, n + 1)
  {
    hide Held, Holds, Marks;
    DropDirectOwned(sb, s, owner, i, n);
  }

  lemma ReleasingStart(sb: Super, s0: Fs, s: Fs, owner: Owner, i: int)
    requires Truncating(sb, s0, s, owner, i, NDIRECT)
    ensures 0 <= i < |s.inodes| && |s.inodes[i].addrs| == NDIRECT + 1
    ensures s.inodes[i].addrs[NDIRECT] != 0 ==>
              0 < s.inodes[i].addrs[NDIRECT] < |s.blocks| && Releasing(sb, s, s, owner, i, 0)
  {
    if s.inodes[i].addrs[NDIRECT] != 0 {
      assert Addr(s, Table(i)) in owner;
    }
  }

  lemma ReleasingMarks(sb: Super, s0: Fs, s: Fs, owner: Owner, i: int, n: int)
    requires Releasing(sb, s0, s, owner, i, n)
    ensures 0 <= i < |s.inodes| && s.blocks == s0.blocks && s.inodes == s0.inodes && |s.marked| == |s0.marked|
    ensures |s.inodes[i].addrs| == NDIRECT + 1 && Addr(s0, Table(i)) == s.inodes[i].addrs[NDIRECT]
  {
  }

  /** After the table is gone every slot of file i is empty. */
  lemma TableGone(sb: Super, s0: Fs, s1: Fs, s: Fs, owner: Owner, i: int)
    requires Truncating(sb, s0, s1, owner, i, NDIRECT) && Releasing(sb, s1, s, owner, i, NINDIRECT)
    ensures 0 <= i < |s.inodes| && |s.inodes[i].addrs| == NDIRECT + 1
    ensures
      var a := s.inodes[i].addrs[NDIRECT];
      && 0 < a < |s.marked| && s.marked[a]
      && Empty(sb, s0, DropTable(s, i), WithoutTable(owner, i), i)
  {
    hide Held, Holds, Marks, Addr;
    ReleasingDone(sb, s1, s, owner, i);
  }

  ghost predicate Empty(sb: Super, s0: Fs, s: Fs, owner: Owner, i: int) {
    && Owned(sb, s, owner, {}) && 0 <= i < |s0.inodes| && OnlyFreed(s0, s, i)
    && |s.inodes[i].addrs| == NDIRECT + 1 && forall k :: 0 <= k <= NDIRECT ==> s.inodes[i].addrs[k] == 0
  }

  lemma NoTable(sb: Super, s0: Fs, s: Fs, owner: Owner, i: int)
    requires Truncating(sb, s0, s, owner, i, NDIRECT) && 0 <= i < |s.inodes|
    requires |s.inodes[i].addrs| == NDIRECT + 1 && s.inodes[i].addrs[NDIRECT] == 0
    ensures Empty(sb, s0, s, owner, i)
  {
    hide Held, Holds, Marks;
  }

  /** File i ends empty and without blocks; no other file changed. */
  lemma TruncateDone(sb: Super, s0: Fs, s: Fs, owner0: Owner, owner: Owner, i: int)
    requires FsInv(sb, s0, owner0) && Empty(sb, s0, s, owner, i)
    ensures 0 <= i < |s.inodes| == |s0.inodes|
    ensures |SetInode(s, i, s.inodes[i].(size := 0)).inodes| == |s0.inodes|
    ensures
      var s' := SetInode(s, i, s.inodes[i].(size := 0));
      && FsInv(sb, s', owner) && OthersKept(s0, s', i)
      && s'.inodes[i] == s0.inodes[i].(size := 0, addrs := NoAddrs())
  {
    var s' := SetInode(s, i, s.inodes[i].(size := 0));
    assert s.inodes[i].addrs == NoAddrs();
    hide Held, Holds, Marks;
    SetInodeOwned(sb, s, owner, i, s'.inodes[i]);
    forall j | 0 <= j < |s0.inodes| && j != i
      ensures Contents(s', j) == Contents(s0, j) && Backed(s', j, 0, s'.inodes[j].size)
    {
      TruncatedOther(s0, s, s', i, j);
    }
  }

  function NoAddrs(): seq<int> {
    seq(NDIRECT + 1, _ => 0)
  }

  lemma TruncatedOther(s0: Fs, s: Fs, s': Fs, i: int, j: int)
    requires Covered(s0) && 0 <= i < |s0.inodes| && 0 <= j < |s0.inodes| && j != i && OnlyFreed(s0, s, i)
    requires s' == SetInode(s, i, s.inodes[i].(size := 0))
    ensures s'.inodes[j] == s0.inodes[j]
    ensures Contents(s', j) == Contents(s0, j) && Backed(s', j, 0, s'.inodes[j].size)
  {
    assert OnlyFreedAddr(s0, s', j);
    hide Addr, ByteAt;
    forall p | 0 <= p < s0.inodes[j].size
      ensures ByteAt(s', j, p) == ByteAt(s0, j, p)
      ensures Addr(s', BlockSlot(j, BlockNo(p))) == Addr(s0, BlockSlot(j, BlockNo(p)))
    {
      SameInodeSameByte(s0, s', j, p);
    }
  }

  ghost predicate OnlyFreedAddr(s0: Fs, s: Fs, j: int) {
    s.blocks == s0.blocks && |s.inodes| == |s0.inodes| && 0 <= j < |s0.inodes| && s.inodes[j] == s0.inodes[j]
  }

  lemma SameInodeSameByte(s0: Fs, s: Fs, j: int, p: int)
    requires OnlyFreedAddr(s0, s, j) && 0 <= p < MAXFILE * BSIZE
    ensures ByteAt(s, j, p) == ByteAt(s0, j, p)
    ensures Addr(s, BlockSlot(j, BlockNo(p))) == Addr(s0, BlockSlot(j, BlockNo(p)))
  {
  }

  // ---- freeing and allocating inodes

  /** Changing the type or link count of an inode keeps the invariant if a free inode is empty. */
  lemma RetypeInv(sb: Super, s: Fs, owner: Owner, i: int, kind: int, nlink: int)
    requires FsInv(sb, s, owner) && 0 <= i < |s.inodes|
    requires kind == 0 ==> s.inodes[i].size == 0 && s.inodes[i].addrs == NoAddrs()
    ensures var s' := SetInode(s, i, s.inodes[i].(kind := kind, nlink := nlink));
            FsInv(sb, s', owner) && OthersKept(s, s', i)
  {
    var s' := SetInode(s, i, s.inodes[i].(kind := kind, nlink := nlink));
    hide Held, Holds, Marks, Addr, ByteAt;
    SetInodeOwned(sb, s, owner, i, s'.inodes[i]);
    forall j | 0 <= j < |s.inodes| ensures Backed(s', j, 0, s'.inodes[j].size) {
      BackedGrown(s, s', j, 0, s.inodes[j].size);
    }
  }

  /** ialloc's memset of a free inode: it was empty already. */
  lemma FreeInodeIsEmpty(sb: Super, s: Fs, owner: Owner, i: int)
    requires FsInv(sb, s, owner) && 0 <= i < |s.inodes| && s.inodes[i].kind == 0
    ensures s.inodes[i].size == 0 && s.inodes[i].addrs == NoAddrs()
  {
  }
}
