/**
 kernel/fs.c and the write path of kernel/file.c as code, over the state of one running
 transaction. `logged` is the set of blocks passed to log_write since begin_op; a result of
 -1 from an allocator stands for its panic, after which nothing is committed.
 */
module FileSystem {
  import opened FsBlocks
  import opened FsFiles
  import opened FsTruncate
  import opened FsLogCost
  import opened FsCovers
  import opened FsRoom

  datatype WriteResult = Panicked | Refused | Wrote(n: int)

  /** The state a transaction commits and the blocks it logged. */
  datatype Committed = Committed(s: Fs, logged: set<int>)

  /** The sizes writei turns down: a gap before off, a 32-bit overflow, a file too large. */
  predicate WriteRefused(size: int, off: int, n: int) {
    off > size || off + n >= 0x1_0000_0000 || off + n > MAXBYTES
  }

  class Disk {
    const sb: Super
    var s: Fs
    var logged: set<int>
    ghost var owner: Owner
    /** Each transaction that ended so far with something to commit. */
    ghost var commits: seq<Committed>

    ghost predicate Valid()
      reads this
    {
      FsInv(sb, s, owner)
    }

    /** A file system as mkfs or an earlier run left it. */
    constructor (sb: Super, image: Fs, ghost owner: Owner)
      requires FsInv(sb, image, owner)
      ensures Valid() && this.sb == sb && s == image && logged == {} && commits == []
    {
      this.sb, s, logged := sb, image, {};
      this.owner, commits := owner, [];
    }

    // ---- blocks

    /** balloc: the first block whose bit is clear, marked and zeroed. */
    method Balloc() returns (b: int)
      requires |s.marked| == |s.blocks| == sb.size
      modifies `s, `logged
      ensures var m := FsFiles.Balloc(sb, old(s));
              if m.Full? then b == -1 && s == old(s) && logged == old(logged)
              else b == m.addr && s == m.s && logged == old(logged) + m.log
    {
      var base := 0;
      while base < sb.size
        invariant 0 <= base && s == old(s) && logged == old(logged)
        invariant base <= sb.size ==> FirstFree(s.marked, 0) == FirstFree(s.marked, base)
        invariant base > sb.size ==> FirstFree(s.marked, 0) == sb.size
      {
        var bi := 0;
        while bi < BPB && base + bi < sb.size
          invariant 0 <= bi <= BPB && base + bi <= sb.size && s == old(s) && logged == old(logged)
          invariant FirstFree(s.marked, 0) == FirstFree(s.marked, base + bi)
        {
          if !s.marked[base + bi] {
            b := base + bi;
            s := s.(marked := s.marked[b := true]);
            logged := logged + {BitmapBlock(sb, b)};
            s := s.(blocks := s.blocks[b := ZeroBytes()]);
            logged := logged + {b};
            return;
          }
          bi := bi + 1;
        }
        base := base + BPB;
      }
      b := -1;
    }

    /** bfree of a block that is in use. */
    method Bfree(b: int)
      requires 0 <= b < |s.marked| && s.marked[b]
      modifies `s, `logged
      ensures s == Unmark(old(s), b) && logged == old(logged) + {BitmapBlock(sb, b)}
    {
      s := s.(marked := s.marked[b := false]);
      logged := logged + {BitmapBlock(sb, b)};
    }

    method Bmap(i: int, bn: int) returns (addr: int)
      requires Owned(sb, s, owner, {}) && 0 <= i < |s.inodes| && 0 <= bn < MAXFILE
      modifies `s, `logged
      ensures var m := FsFiles.Bmap(sb, old(s), i, bn);
              if m.Full? then addr == -1
              else addr == m.addr && s == m.s && logged == old(logged) + m.log
    {
      hide Held, Holds, Marks, ZeroBytes, SetWord, Word, BitmapBlock, FirstFree;
      if bn < NDIRECT {
        addr := s.inodes[i].addrs[bn];
        if addr == 0 {
          addr := Balloc();
          if addr == -1 {
            return;
          }
          s := SetInode(s, i, s.inodes[i].(addrs := s.inodes[i].addrs[bn := addr]));
        }
        return;
      }
      var j := bn - NDIRECT;
      var table := s.inodes[i].addrs[NDIRECT];
      ghost var m1 := Ensure(sb, s, Table(i));
      if table == 0 {
        table := Balloc();
        if table == -1 {
          return -1;
        }
        s := SetInode(s, i, s.inodes[i].(addrs := s.inodes[i].addrs[NDIRECT := table]));
      }
      assert s == m1.s && table == m1.addr;
      TableInRange(sb, old(s), owner, i);
      addr := Word(s.blocks[table], j);
      if addr == 0 {
        addr := Balloc();
        if addr == -1 {
          return;
        }
        s := s.(blocks := s.blocks[table := SetWord(s.blocks[table], j, addr)]);
        logged := logged + {table};
      }
    }
  
    // ---- reading and writing

    /** readi: the slice of the file, and no change to anything. */
    method Readi(i: int, off: int, n: int) returns (data: seq<Byte>)
      requires Valid() && 0 <= i < |s.inodes| && 0 <= off < 0x1_0000_0000 && 0 <= n < 0x1_0000_0000
      modifies `s, `logged
      ensures s == old(s) && logged == old(logged)
      ensures data == if off > s.inodes[i].size || off + n >= 0x1_0000_0000 then []
                      else Contents(s, i)[off..Min(off + n, s.inodes[i].size)]
    {
      if off > s.inodes[i].size || off + n >= 0x1_0000_0000 {
        return [];
      }
      data := ReadBlocks(i, off, if off + n > s.inodes[i].size then s.inodes[i].size - off else n);
    }

    /** readi's loop. */
    method ReadBlocks(i: int, off: int, n: int) returns (data: seq<Byte>)
      requires FsInv(sb, s, owner) && 0 <= i < |s.inodes| && 0 <= off && 0 <= n
      requires off + n <= s.inodes[i].size <= MAXBYTES
      modifies `s, `logged
      ensures s == old(s) && logged == old(logged) && data == Contents(s, i)[off..off + n]
    {
      hide *;
      data := [];
      ghost var c := Contents(s, i);
      while |data| < n
        invariant s == old(s) && logged == old(logged) && |data| <= n
        invariant data == c[off..off + |data|]
        decreases n - |data|
      {
        var at := off + |data|;
        ReadStep(sb, s, owner, i, off, n, |data|);
        var addr := Bmap(i, BlockNo(at));
        var m := ChunkLen(off, n, |data|);
        ReadsFromIs(s, i, at, m, addr);
        SliceAppend(c, off, at, at + m);
        data := data + s.blocks[addr][InBlock(at)..InBlock(at) + m];
      }
    }

    /**
     writei with every copy succeeding: the data is spliced into the file at off, no other
     file changes, every block that differs is logged, and a chunk of filewrite's size logs
     at most MAXOPBLOCKS blocks. It panics exactly when fewer blocks are free than it needs.
     */
    method Writei(i: int, off: int, src: seq<Byte>) returns (r: WriteResult)
      requires FsInv(sb, s, owner) && 0 <= i < |s.inodes| && s.inodes[i].kind != 0 && 0 <= off
      modifies `s, `logged, `owner
      ensures r.Refused? <==> WriteRefused(old(s).inodes[i].size, off, |src|)
      ensures r.Refused? ==> s == old(s) && owner == old(owner) && logged == old(logged)
      ensures r.Panicked? <==>
                && !WriteRefused(old(s).inodes[i].size, off, |src|)
                && Unmarked(old(s).marked) < NeedFor(old(s), i, off, |src|)
      ensures r.Wrote? ==> Grew(old(s), s, i, off, |src|)
      ensures r.Wrote? ==>
                && r.n == |src| && FsInv(sb, s, owner) && OthersKept(old(s), s, i) && |s.inodes| == |old(s).inodes|
                && s.inodes[i].kind == old(s).inodes[i].kind && s.inodes[i].nlink == old(s).inodes[i].nlink
                && Contents(s, i) == Splice(Contents(old(s), i), off, src)
      ensures r.Wrote? && old(logged) == {} && |src| <= MAXCHUNK ==> |logged| <= MAXOPBLOCKS
      ensures r.Wrote? ==> Covers(sb, old(s), s, logged) && (src != [] ==> InodeBlock(sb, i) in logged)
    {
      hide *;
      RefusedIs(s.inodes[i].size, off, |src|);
      if off > s.inodes[i].size || off + |src| >= 0x1_0000_0000 || off + |src| > MAXBYTES {
        return Refused;
      }
      ghost var s0, owner0 := s, owner;
      ghost var extra;
      var ok;
      ok, extra := WriteBlocks(i, off, src);
      if !ok {
        return Panicked;
      }
      WritingDone(sb, s0, s, owner0, owner, i, off, src);
      SizeSet(s, i, off + |src|);
      GrewRoom(s0, s, i, off, |src|);
      ghost var s1 := s;
      if |src| > 0 {
        if old(logged) == {} && |src| <= MAXCHUNK {
          ChunkFits(s, i, logged, off, |src|, extra, InodeBlock(sb, i));
        }
        if off + |src| > s.inodes[i].size {
          GrewResized(s0, s, i, off, |src|, off + |src|);
          s := SetInode(s, i, s.inodes[i].(size := off + |src|));
        }
        ResizeCovers(sb, s0, s1, s, i, logged);
        logged := logged + {InodeBlock(sb, i)};
      } else {
        CoversNone(sb, s, logged);
        Sizes();
      }
      r := Wrote(|src|);
    }

    /** writei's loop. */
    method WriteBlocks(i: int, off: int, src: seq<Byte>) returns (ok: bool, ghost extra: int)
      requires FsInv(sb, s, owner) && 0 <= i < |s.inodes| && 0 <= off <= s.inodes[i].size && off + |src| <= MAXBYTES
      modifies `s, `logged, `owner
      ensures ok ==> Writing(sb, old(s), s, owner, i, off, src, |src|) && 0 <= i < |s.inodes|
      ensures ok <==> Unmarked(old(s).marked) >= NeedFor(old(s), i, off, |src|)
      ensures ok ==> Grew(old(s), s, i, off, |src|)
      ensures ok && |src| == 0 ==> s == old(s) && logged == old(logged)
      ensures ok ==> Covers(sb, old(s), s, logged + {InodeBlock(sb, i)})
      ensures ok && old(logged) == {} ==> Charged(s, i, logged, Touched(off, |src|), InBlock(off) != 0, extra)
    {
      hide *;
      ghost var s0, owner0 := s, owner;
      ghost var alone := logged == {};
      extra := 0;
      InvOwned(sb, s, owner);
      WritingStart(sb, s, owner, i, off, src);
      ChargeStart(s, i, off);
      CoversNone(sb, s, logged + {InodeBlock(sb, i)});
      GrewNone(s, i, off);
      var tot := 0;
      while tot < |src|
        invariant 0 <= tot <= |src| && Writing(sb, s0, s, owner, i, off, src, tot) && |s.inodes| == |s0.inodes|
        invariant tot == 0 || tot == |src| || InBlock(off + tot) == 0
        invariant tot == 0 ==> s == s0 && logged == old(logged)
        invariant Grew(s0, s, i, off, tot)
        invariant Covers(sb, s0, s, logged + {InodeBlock(sb, i)})
        invariant alone ==> Charged(s, i, logged, Touched(off, tot), InBlock(off) != 0, extra)
      {
        ghost var owner1, was, logged1 := owner, s, logged;
        WriteReady(sb, s0, s, owner, i, off, src, tot);
        var at := off + tot;
        var addr := Bmap(i, BlockNo(at));
        if addr == -1 {
          MappedAddr(sb, was, owner, i, BlockNo(at));
          StepFull(sb, s0, was, owner, i, off, src, tot);
          return false, extra;
        }
        SteppedIs(sb, was, owner, i, off, src, tot);
        RoundCovers(sb, s0, was, owner, i, off, src, tot, logged1);
        StepGrew(sb, was, owner, i, off, src, tot);
        owner := WritingNext(sb, s0, was, owner, i, off, src, tot);
        if alone {
          extra := WriteCharge(sb, s0, owner0, was, owner1, i, off, src, tot, logged1, extra);
        }
        TouchedNext(off, tot, |src|);
        var m := ChunkLen(off, |src|, tot);
        s := Patch(s, addr, InBlock(at), src[tot..tot + m]);
        GrewNext(s0, was, s, i, off, tot, m);
        ghost var log := Stepped(sb, was, i, off, src, tot).log;
        logged := logged + {addr};
        assert logged == logged1 + log;
        tot := tot + m;
      }
      GrewRoom(s0, s, i, off, |src|);
      ok := true;
    }
  
    /** itrunc: file i ends empty, every block it had is free, and bfree never panics. */
    method Itrunc(i: int)
      requires FsInv(sb, s, owner) && 0 <= i < |s.inodes|
      modifies `s, `logged, `owner
      ensures FsInv(sb, s, owner) && |s.inodes| == |old(s).inodes| && OthersKept(old(s), s, i)
      ensures s.inodes[i] == old(s).inodes[i].(size := 0, addrs := NoAddrs())
    {
      hide *;
      Sizes();
      ghost var s0, owner0 := s, owner;
      TruncatingStart(sb, s, owner, i);
      var k := 0;
      while k < NDIRECT
        invariant 0 <= k <= NDIRECT && Truncating(sb, s0, s, owner, i, k)
      {
        TruncatingNext(sb, s0, s, owner, i, k);
        DropDirectIs(s, i, k);
        var a := s.inodes[i].addrs[k];
        owner := owner - {a};
        if a != 0 {
          Bfree(a);
          s := SetInode(s, i, s.inodes[i].(addrs := s.inodes[i].addrs[k := 0]));
        }
        k := k + 1;
      }
      ReleasingStart(sb, s0, s, owner, i);
      if s.inodes[i].addrs[NDIRECT] != 0 {
        FreeTable(i, s0);
      } else {
        NoTable(sb, s0, s, owner, i);
      }
      TruncateDone(sb, s0, s, owner0, owner, i);
      s := SetInode(s, i, s.inodes[i].(size := 0));
      logged := logged + {InodeBlock(sb, i)};
    }
  
    /** The part of itrunc that frees the blocks of the indirect table, then the table. */
    method FreeTable(i: int, ghost s0: Fs)
      requires Truncating(sb, s0, s, owner, i, NDIRECT)
      requires 0 <= i < |s.inodes| && |s.inodes[i].addrs| == NDIRECT + 1 && s.inodes[i].addrs[NDIRECT] != 0
      modifies `s, `logged, `owner
      ensures Empty(sb, s0, s, owner, i)
    {
      hide *;
      Sizes();
      ghost var s1, owner1 := s, owner;
      ReleasingStart(sb, s0, s, owner, i);
      var table := s.inodes[i].addrs[NDIRECT];
      var j := 0;
      while j < NINDIRECT
        invariant 0 <= j <= NINDIRECT && Releasing(sb, s1, s, owner, i, j) && |s.blocks| == |s1.blocks|
        invariant 0 <= i < |s.inodes| && |s.inodes[i].addrs| == NDIRECT + 1 && table == s.inodes[i].addrs[NDIRECT]
        invariant 0 < table < |s.blocks| && owner == owner1
      {
        ReleasingNext(sb, s1, s, owner, i, j);
        ReleasingMarks(sb, s1, s, owner, i, j);
        var a := Word(s.blocks[table], j);
        DropEntryIs(s, a);
        if a != 0 {
          Bfree(a);
        }
        j := j + 1;
        ReleasingMarks(sb, s1, s, owner, i, j);
      }
      TableGone(sb, s0, s1, s, owner, i);
      DropTableIs(s, i);
      Bfree(table);
      s := SetInode(s, i, s.inodes[i].(addrs := s.inodes[i].addrs[NDIRECT := 0]));
      owner := WithoutTable(owner, i);
    }

    // ---- inodes

    /** ialloc: the first free inode gets the type; -1 stands for its panic. */
    method Ialloc(kind: int) returns (inum: int)
      requires FsInv(sb, s, owner) && kind != 0
      modifies `s, `logged
      ensures FsInv(sb, s, owner)
      ensures inum == -1 ==> s == old(s) && forall j :: 1 <= j < |s.inodes| ==> s.inodes[j].kind != 0
      ensures inum != -1 ==>
                && 1 <= inum < |s.inodes| == |old(s).inodes| && old(s).inodes[inum].kind == 0
                && s.inodes[inum] == Dinode(kind, 0, 0, NoAddrs()) && OthersKept(old(s), s, inum)
    {
      hide FsInv, NoAddrs;
      inum := 1;
      while inum < |s.inodes|
        invariant 1 <= inum && s == old(s) && logged == old(logged)
        invariant forall j :: 1 <= j < inum && j < |s.inodes| ==> s.inodes[j].kind != 0
      {
        if s.inodes[inum].kind == 0 {
          FreeInodeIsEmpty(sb, s, owner, inum);
          RetypeInv(sb, s, owner, inum, kind, 0);
          s := SetInode(s, inum, Dinode(kind, 0, 0, seq(NDIRECT + 1, _ => 0)));
          logged := logged + {InodeBlock(sb, inum)};
          return;
        }
        inum := inum + 1;
      }
      inum := -1;
    }

    /** The part of iput that frees an inode without links: truncate, then type 0. */
    method Ifree(i: int)
      requires FsInv(sb, s, owner) && 0 <= i < |s.inodes| && s.inodes[i].nlink == 0
      modifies `s, `logged, `owner
      ensures FsInv(sb, s, owner) && |s.inodes| == |old(s).inodes|
      ensures s.inodes[i] == Dinode(0, 0, 0, NoAddrs()) && OthersKept(old(s), s, i)
    {
      hide FsInv, NoAddrs;
      Itrunc(i);
      ghost var s1 := s;
      RetypeInv(sb, s, owner, i, 0, 0);
      s := SetInode(s, i, s.inodes[i].(kind := 0));
      logged := logged + {InodeBlock(sb, i)};
      InvCovered(sb, old(s), old(owner));
      InvCovered(sb, s1, owner);
      OthersKeptThrough(old(s), s1, s, i);
    }
  
    // ---- kernel/file.c

    method BeginOp()
      modifies `logged
      ensures logged == {}
    {
      logged := {};
    }

    /** end_op; a transaction that logged nothing leaves the disk alone. */
    method EndOp()
      modifies `commits
      ensures commits == if logged == {} then old(commits) else old(commits) + [Committed(s, logged)]
    {
      if logged != {} {
        commits := commits + [Committed(s, logged)];
      }
    }

    /**
     filewrite on an inode: the chunks together are one write; every state committed on the way
     is the file with a whole number of chunks written; and each transaction logs at most
     MAXOPBLOCKS blocks, among them all that differ from the state committed before. It panics
     exactly when the chunks it would be let write need more blocks than are free.
     */
    method Filewrite(i: int, off: int, src: seq<Byte>) returns (r: WriteResult)
      requires FsInv(sb, s, owner) && 0 <= i < |s.inodes| && s.inodes[i].kind != 0 && 0 <= off
      modifies `s, `logged, `owner, `commits
      ensures r.Wrote? ==> r.n == |src| && (src == [] || !WriteRefused(old(s).inodes[i].size, off, |src|))
      ensures r.Refused? ==> src != [] && WriteRefused(old(s).inodes[i].size, off, |src|)
      ensures r.Panicked? <==> Unmarked(old(s).marked) < NeedAccepted(old(s), i, off, |src|)
      ensures !r.Panicked? ==>
                exists tot :: InChunks(sb, old(s), s, owner, i, off, src, tot) && (r.Wrote? ==> tot == |src|)
      ensures old(commits) <= commits
      ensures forall k :: |old(commits)| <= k < |commits| ==> GoodCommit(sb, old(s), commits[k], i, off, src)
      ensures Chained(sb, old(s), commits[|old(commits)|..])
      ensures !r.Panicked? ==> s == Reached(old(s), commits[|old(commits)|..])
    {
      hide *;
      ghost var s0 := s;
      ChainedNone(sb, s0);
      assert commits[|old(commits)|..] == [];
      InChunksStart(sb, s, owner, i, off, src);
      GainedNone(s, i, off);
      var at, tot := off, 0;
      while tot < |src|
        invariant 0 <= tot <= |src| && at == off + tot && InChunks(sb, s0, s, owner, i, off, src, tot)
        invariant Gained(s0, s, i, off, tot)
        invariant old(commits) <= commits
        invariant forall k :: |old(commits)| <= k < |commits| ==> GoodCommit(sb, s0, commits[k], i, off, src)
        invariant Chained(sb, s0, commits[|old(commits)|..]) && s == Reached(s0, commits[|old(commits)|..])
        decreases |src| - tot
      {
        var n1 := if |src| - tot > MAXCHUNK then MAXCHUNK else |src| - tot;
        InChunksReady(sb, s0, s, owner, i, off, src, tot, n1);
        BeginOp();
        ghost var s1, owner1 := s, owner;
        var w := Writei(i, at, src[tot..tot + n1]);
        if w.Panicked? {
          ChunkPanics(sb, s0, s1, owner1, i, off, src, tot, n1);
          return Panicked;
        }
        if w.Refused? {
          ChunkRefused(sb, s0, s, owner, i, off, src, tot, n1);
          RefusedWhole(sb, s0, s, owner, i, off, src, tot, n1);
          EndOp();
          assert InChunks(sb, s0, s, owner, i, off, src, tot);
          return Refused;
        }
        at := at + w.n;
        InChunksNext(sb, s0, s1, owner1, s, owner, i, off, src, tot, n1);
        GainedNext(s0, s1, s, i, off, tot, n1);
        tot := tot + n1;
        GoodCommitIntro(sb, s0, s, owner, logged, i, off, src, tot);
        ghost var mine := commits[|old(commits)|..];
        ChainedNext(sb, s0, mine, Committed(s, logged));
        EndOp();
        assert commits[|old(commits)|..] == mine + [Committed(s, logged)];
      }
      AcceptedWhole(sb, s0, s, owner, i, off, src);
      AllAccepted(s0, s, i, off, src);
      r := Wrote(|src|);
    }
  }

  /** The state after these transactions. */
  function Reached(s0: Fs, cs: seq<Committed>): Fs {
    if cs == [] then s0 else cs[|cs| - 1].s
  }

  /** Each transaction covers what it changed in the state the ones before it left. */
  ghost predicate Chained(sb: Super, s0: Fs, cs: seq<Committed>) {
    forall k :: 0 <= k < |cs| ==> Covers(sb, Reached(s0, cs[..k]), cs[k].s, cs[k].logged)
  }

  lemma ChainedNone(sb: Super, s0: Fs)
    ensures Chained(sb, s0, []) && Reached(s0, []) == s0
  {
  }

  lemma ChainedNext(sb: Super, s0: Fs, cs: seq<Committed>, c: Committed)
    requires Chained(sb, s0, cs) && Covers(sb, Reached(s0, cs), c.s, c.logged)
    ensures Chained(sb, s0, cs + [c]) && Reached(s0, cs + [c]) == c.s
  {
    hide Covers;
    forall k | 0 <= k <= |cs|
      ensures Covers(sb, Reached(s0, (cs + [c])[..k]), (cs + [c])[k].s, (cs + [c])[k].logged)
    {
      assert (cs + [c])[..k] == cs[..k];
      assert cs[..|cs|] == cs;
    }
  }

  lemma RoundCovers(sb: Super, s0: Fs, s: Fs, owner: Owner, i: int, off: int, src: seq<Byte>, tot: int, log: set<int>)
    requires Owned(sb, s, owner, {}) && 0 <= i < |s.inodes|
    requires 0 <= off && 0 <= tot < |src| && off + |src| <= MAXBYTES && Stepped(sb, s, i, off, src, tot).Mapped?
    requires Covers(sb, s0, s, log + {InodeBlock(sb, i)})
    ensures Covers(sb, s0, Stepped(sb, s, i, off, src, tot).s,
                   log + Stepped(sb, s, i, off, src, tot).log + {InodeBlock(sb, i)})
  {
    hide Covers, InodeBlock, Stepped, Held, Holds, Marks;
    SteppedCovers(sb, s0, s, i, off, src, tot, log);
  }

  lemma ResizeCovers(sb: Super, s0: Fs, s1: Fs, s: Fs, i: int, log: set<int>)
    requires 0 <= i < |s1.inodes| == |s.inodes| && s == SetInode(s1, i, s.inodes[i])
    requires Covers(sb, s0, s1, log + {InodeBlock(sb, i)})
    ensures Covers(sb, s0, s, log + {InodeBlock(sb, i)})
  {
    hide Covers, InodeBlock;
    SetInodeCovers(sb, s1, i, s.inodes[i]);
    CoversThrough(sb, s0, s1, s, log + {InodeBlock(sb, i)}, {InodeBlock(sb, i)}, log + {InodeBlock(sb, i)});
  }

  predicate WholeChunks(tot: int, n: int) {
    tot % MAXCHUNK == 0 || tot == n
  }

  lemma NextChunk(tot: int, n: int, n1: int)
    requires 0 <= tot < n && WholeChunks(tot, n) && n1 == if n - tot > MAXCHUNK then MAXCHUNK else n - tot
    ensures WholeChunks(tot + n1, n)
  {
  }

  /** The file is the old one with the first `tot` bytes of src written, a whole number of chunks. */
  ghost predicate InChunks(sb: Super, s0: Fs, s: Fs, owner: Owner, i: int, off: int, src: seq<Byte>, tot: int) {
    && 0 <= tot <= |src| && WholeChunks(tot, |src|) && 0 <= off
    && Covered(s0) && 0 <= i < |s0.inodes| && s0.inodes[i].kind != 0
    && FsInv(sb, s, owner) && OthersKept(s0, s, i) && s.inodes[i].kind != 0
    && if tot == 0 then Contents(s, i) == Contents(s0, i)
       else
         && off <= s0.inodes[i].size && off + tot <= MAXBYTES
         && Contents(s, i) == Splice(Contents(s0, i), off, src[..tot])
  }

  ghost predicate GoodCommit(sb: Super, s0: Fs, c: Committed, i: int, off: int, src: seq<Byte>) {
    && |c.logged| <= MAXOPBLOCKS
    && exists tot, owner :: 0 < tot && InChunks(sb, s0, c.s, owner, i, off, src, tot)
  }

  lemma GoodCommitIntro(sb: Super, s0: Fs, s: Fs, owner: Owner, logged: set<int>, i: int, off: int,
          src: seq<Byte>, tot: int)
    requires 0 < tot && InChunks(sb, s0, s, owner, i, off, src, tot) && |logged| <= MAXOPBLOCKS
    ensures GoodCommit(sb, s0, Committed(s, logged), i, off, src)
  {
    hide InChunks;
  }

  lemma InChunksStart(sb: Super, s: Fs, owner: Owner, i: int, off: int, src: seq<Byte>)
    requires FsInv(sb, s, owner) && 0 <= i < |s.inodes| && s.inodes[i].kind != 0 && 0 <= off
    ensures InChunks(sb, s, s, owner, i, off, src, 0)
  {
    hide Owned, ByteAt, Backed;
  }

  lemma InChunksReady(sb: Super, s0: Fs, s: Fs, owner: Owner, i: int, off: int, src: seq<Byte>,
          tot: int, n1: int)
    requires InChunks(sb, s0, s, owner, i, off, src, tot) && tot < |src|
    requires n1 == if |src| - tot > MAXCHUNK then MAXCHUNK else |src| - tot
    ensures FsInv(sb, s, owner) && 0 <= i < |s.inodes| && s.inodes[i].kind != 0 && 0 <= off
    ensures 0 < n1 <= MAXCHUNK && n1 <= |src| - tot
  {
    hide FsInv, Contents;
  }

  lemma SpliceTwice(c: seq<Byte>, off: int, a: seq<Byte>, b: seq<Byte>)
    requires 0 <= off <= |c|
    ensures off + |a| <= |Splice(c, off, a)| && Splice(Splice(c, off, a), off + |a|, b) == Splice(c, off, a + b)
  {
  }

  lemma ChunkContents(c0: seq<Byte>, c1: seq<Byte>, off: int, src: seq<Byte>, tot: int, n1: int)
    requires 0 <= off && 0 <= tot && 0 < n1 && tot + n1 <= |src| && off + tot <= |c1|
    requires if tot == 0 then c1 == c0 else off <= |c0| && c1 == Splice(c0, off, src[..tot])
    ensures off <= |c0| && Splice(c1, off + tot, src[tot..tot + n1]) == Splice(c0, off, src[..tot + n1])
  {
    assert src[..tot] + src[tot..tot + n1] == src[..tot + n1];
    if tot > 0 {
      SpliceTwice(c0, off, src[..tot], src[tot..tot + n1]);
    } else {
      assert src[..tot] == [];
    }
  }

  lemma InChunksNext(sb: Super, s0: Fs, s1: Fs, owner1: Owner, s: Fs, owner: Owner, i: int,
          off: int, src: seq<Byte>, tot: int, n1: int)
    requires InChunks(sb, s0, s1, owner1, i, off, src, tot) && tot < |src|
    requires n1 == if |src| - tot > MAXCHUNK then MAXCHUNK else |src| - tot
    requires FsInv(sb, s, owner) && 0 <= i < |s1.inodes| == |s.inodes| && FsInv(sb, s1, owner1) && OthersKept(s1, s, i)
    requires s.inodes[i].kind == s1.inodes[i].kind && !WriteRefused(s1.inodes[i].size, off + tot, n1)
    requires 0 < n1 <= |src| - tot && Contents(s, i) == Splice(Contents(s1, i), off + tot, src[tot..tot + n1])
    ensures InChunks(sb, s0, s, owner, i, off, src, tot + n1)
  {
    InvCovered(sb, s1, owner1);
    NextChunk(tot, |src|, n1);
    ChunkContents(Contents(s0, i), Contents(s1, i), off, src, tot, n1);
    OthersKeptThrough(s0, s1, s, i);
    hide FsInv, Contents, Splice, OthersKept, Covered, WholeChunks;
  }

  lemma OthersKeptThrough(s: Fs, s1: Fs, s2: Fs, i: int)
    requires Covered(s) && Covered(s1) && OthersKept(s, s1, i) && OthersKept(s1, s2, i)
    ensures OthersKept(s, s2, i)
  {
    hide ByteAt, Backed;
  }

  /** A refused chunk means the whole write was out of bounds. */
  lemma RefusedWhole(sb: Super, s0: Fs, s: Fs, owner: Owner, i: int, off: int, src: seq<Byte>,
          tot: int, n1: int)
    requires InChunks(sb, s0, s, owner, i, off, src, tot) && tot < |src| && 0 < n1 <= |src| - tot
    requires 0 <= i < |s.inodes| && WriteRefused(s.inodes[i].size, off + tot, n1)
    ensures WriteRefused(s0.inodes[i].size, off, |src|)
  {
    hide ByteAt, Backed, Owned;
    assert |Contents(s, i)| == s.inodes[i].size;
  }

  lemma AcceptedWhole(sb: Super, s0: Fs, s: Fs, owner: Owner, i: int, off: int, src: seq<Byte>)
    requires InChunks(sb, s0, s, owner, i, off, src, |src|)
    ensures src == [] || !WriteRefused(s0.inodes[i].size, off, |src|)
  {
    hide FsInv, Contents, OthersKept, Splice;
  }

  /** How many of n bytes filewrite's chunks carry before one is refused. */
  function Accepted(size: int, off: int, n: int): int {
    if off > size then 0
    else if off + n <= MAXBYTES then n
    else (MAXBYTES - off) / MAXCHUNK * MAXCHUNK
  }

  /** The blocks filewrite has to allocate. */
  function NeedAccepted(s: Fs, i: int, off: int, n: int): nat
    requires 0 <= i < |s.inodes| && 0 <= off && 0 <= n
  {
    var a := Accepted(s.inodes[i].size, off, n);
    if 0 <= a && off + a <= MAXBYTES then NeedFor(s, i, off, a) else 0
  }

  lemma NeedAcceptedIs(s: Fs, i: int, off: int, n: int)
    requires 0 <= i < |s.inodes| && 0 <= off && 0 <= n
    requires 0 <= Accepted(s.inodes[i].size, off, n) && off + Accepted(s.inodes[i].size, off, n) <= MAXBYTES
    ensures NeedAccepted(s, i, off, n) == NeedFor(s, i, off, Accepted(s.inodes[i].size, off, n))
  {
    hide Accepted, NeedFor;
  }

  /** The first tot bytes have their blocks. */
  ghost predicate Gained(s0: Fs, s: Fs, i: int, off: int, tot: int) {
    if tot == 0 then s == s0 else Grew(s0, s, i, off, tot)
  }

  lemma GainedNone(s: Fs, i: int, off: int)
    ensures Gained(s, s, i, off, 0)
  {
  }

  lemma GainedNext(s0: Fs, s: Fs, s': Fs, i: int, off: int, tot: int, m: int)
    requires Gained(s0, s, i, off, tot) && Grew(s, s', i, off + tot, m) && 0 < m && 0 <= tot
    ensures Gained(s0, s', i, off, tot + m)
  {
    hide Grew;
    if tot > 0 {
      GrewNext(s0, s, s', i, off, tot, m);
    }
  }

  lemma ChunksTaken(size: int, off: int, n: int, tot: int, n1: int)
    requires 0 <= off <= size <= MAXBYTES && 0 <= tot < n && WholeChunks(tot, n)
    requires n1 == if n - tot > MAXCHUNK then MAXCHUNK else n - tot
    ensures off + tot + n1 <= MAXBYTES ==>
      tot + n1 <= Accepted(size, off, n) && off + Accepted(size, off, n) <= MAXBYTES
    ensures off + tot <= MAXBYTES < off + tot + n1 ==> Accepted(size, off, n) == tot
  {
    if off + tot <= MAXBYTES {
      Floors(MAXBYTES - off, tot);
    }
  }

  lemma Floors(x: int, t: int)
    requires 0 <= t <= x && t % MAXCHUNK == 0
    ensures
      var f := x / MAXCHUNK * MAXCHUNK;
      f <= x && (t + MAXCHUNK <= x ==> t + MAXCHUNK <= f) && (x < t + MAXCHUNK ==> f == t)
  {
    assert MAXCHUNK == 3072;
    assert t == t / 3072 * 3072 && x == x / 3072 * 3072 + x % 3072;
  }

  /** What InChunks says of sizes. */
  lemma InChunksSizes(sb: Super, s0: Fs, s: Fs, owner: Owner, i: int, off: int, src: seq<Byte>, tot: int)
    requires InChunks(sb, s0, s, owner, i, off, src, tot)
    ensures 0 <= i < |s0.inodes| == |s.inodes| && 0 <= s0.inodes[i].size <= MAXBYTES && 0 <= off
    ensures 0 <= tot <= |src| && WholeChunks(tot, |src|)
    ensures tot == 0 ==> s.inodes[i].size == s0.inodes[i].size
    ensures tot > 0 ==> off <= s0.inodes[i].size && off + tot <= MAXBYTES && off + tot <= s.inodes[i].size
  {
    hide ByteAt, Backed, Owned, WholeChunks;
    assert |Contents(s, i)| == s.inodes[i].size && |Contents(s0, i)| == s0.inodes[i].size;
  }

  lemma GainedNeeds(s0: Fs, s: Fs, i: int, off: int, tot: int, m: int)
    requires Gained(s0, s, i, off, tot) && 0 <= off && 0 <= tot && 0 < m && off + tot + m <= MAXBYTES
    requires 0 <= i < |s.inodes| == |s0.inodes| && Unmarked(s.marked) < NeedFor(s, i, off + tot, m)
    ensures Unmarked(s0.marked) < NeedFor(s0, i, off, tot + m)
  {
    hide Unmarked, NeedFor, Grew;
    if tot > 0 {
      NeedNext(s0, s, i, off, tot, m);
    }
  }

  lemma ChunkPanics(sb: Super, s0: Fs, s: Fs, owner: Owner, i: int, off: int, src: seq<Byte>, tot: int, n1: int)
    requires InChunks(sb, s0, s, owner, i, off, src, tot) && tot < |src| && Gained(s0, s, i, off, tot)
    requires n1 == if |src| - tot > MAXCHUNK then MAXCHUNK else |src| - tot
    requires 0 <= i < |s.inodes| && 0 <= off && !WriteRefused(s.inodes[i].size, off + tot, n1) && 0 < n1
    requires Unmarked(s.marked) < NeedFor(s, i, off + tot, n1)
    ensures 0 <= i < |s0.inodes| && Unmarked(s0.marked) < NeedAccepted(s0, i, off, |src|)
  {
    hide *;
    InChunksSizes(sb, s0, s, owner, i, off, src, tot);
    RefusedIs(s.inodes[i].size, off + tot, n1);
    ChunksTaken(s0.inodes[i].size, off, |src|, tot, n1);
    GainedNeeds(s0, s, i, off, tot, n1);
    NeedForGrows(s0, i, off, tot + n1, Accepted(s0.inodes[i].size, off, |src|));
    NeedAcceptedIs(s0, i, off, |src|);
  }

  lemma ChunkRefused(sb: Super, s0: Fs, s: Fs, owner: Owner, i: int, off: int, src: seq<Byte>, tot: int, n1: int)
    requires InChunks(sb, s0, s, owner, i, off, src, tot) && tot < |src| && Gained(s0, s, i, off, tot)
    requires n1 == if |src| - tot > MAXCHUNK then MAXCHUNK else |src| - tot
    requires 0 <= i < |s.inodes| && 0 <= off && WriteRefused(s.inodes[i].size, off + tot, n1)
    ensures 0 <= i < |s0.inodes| && Unmarked(s0.marked) >= NeedAccepted(s0, i, off, |src|)
  {
    InChunksSizes(sb, s0, s, owner, i, off, src, tot);
    hide InChunks, Unmarked, Grew, NeedFor, WholeChunks;
    var size := s0.inodes[i].size;
    if off <= size {
      ChunksTaken(size, off, |src|, tot, n1);
    }
    if tot > 0 {
      GrewRoom(s0, s, i, off, tot);
    }
    NeedNone(s0, i, off);
  }

  lemma NeedNone(s: Fs, i: int, off: int)
    requires 0 <= i < |s.inodes| && 0 <= off
    ensures off <= MAXBYTES ==> NeedFor(s, i, off, 0) == 0
  {
  }

  lemma AllAccepted(s0: Fs, s: Fs, i: int, off: int, src: seq<Byte>)
    requires 0 <= i < |s0.inodes| && 0 <= off && Gained(s0, s, i, off, |src|)
    requires src == [] || !WriteRefused(s0.inodes[i].size, off, |src|)
    ensures Unmarked(s0.marked) >= NeedAccepted(s0, i, off, |src|)
  {
    hide Unmarked, Grew, NeedFor;
    NeedNone(s0, i, off);
    if src != [] {
      GrewRoom(s0, s, i, off, |src|);
    }
  }

  lemma MappedAddr(sb: Super, s: Fs, owner: Owner, i: int, bn: int)
    requires Owned(sb, s, owner, {}) && 0 <= i < |s.inodes| && 0 <= bn < MAXFILE
    ensures FsFiles.Bmap(sb, s, i, bn).Mapped? ==> FsFiles.Bmap(sb, s, i, bn).addr > 0
  {
    hide FsFiles.Bmap, Held, Holds, Marks;
    if FsFiles.Bmap(sb, s, i, bn).Mapped? {
      var _ := BmapSound(sb, s, owner, i, bn);
    }
  }

  lemma SizeSet(s: Fs, i: int, size: int)
    requires 0 <= i < |s.inodes|
    ensures
      var s' := SetInode(s, i, s.inodes[i].(size := size));
      && Resized(s, i, size) == (if size > s.inodes[i].size then s' else s)
      && s' == SetInode(s, i, s'.inodes[i]) && |s'.inodes| == |s.inodes| && s == SetInode(s, i, s.inodes[i])
  {
    assert s.inodes[i := s.inodes[i]] == s.inodes;
  }

  lemma RefusedIs(size: int, off: int, n: int)
    ensures WriteRefused(size, off, n) <==> off > size || off + n >= 0x1_0000_0000 || off + n > MAXBYTES
  {
  }

  lemma Sizes()
    ensures NDIRECT == 12 && NINDIRECT == 256 && MAXFILE == 268 && BSIZE == 1024 && MAXOPBLOCKS == 10
  {
  }

  lemma DropDirectIs(s: Fs, i: int, k: int)
    requires 0 <= i < |s.inodes| && |s.inodes[i].addrs| == NDIRECT + 1 && 0 <= k < NDIRECT
    requires 0 <= s.inodes[i].addrs[k] < |s.marked|
    ensures
      var ip := s.inodes[i];
      var a := ip.addrs[k];
      && (a == 0 ==> DropDirect(s, i, k) == s)
      && (a != 0 ==>
            && Unmark(s, a).inodes == s.inodes
            && DropDirect(s, i, k) == SetInode(Unmark(s, a), i, ip.(addrs := ip.addrs[k := 0])))
  {
  }

  lemma DropEntryIs(s: Fs, a: int)
    requires 0 <= a < |s.marked|
    ensures DropEntry(s, a) == if a == 0 then s else Unmark(s, a)
  {
  }

  lemma DropTableIs(s: Fs, i: int)
    requires 0 <= i < |s.inodes| && |s.inodes[i].addrs| == NDIRECT + 1 && 0 <= s.inodes[i].addrs[NDIRECT] < |s.marked|
    ensures
      var ip := s.inodes[i];
      var a := ip.addrs[NDIRECT];
      && Unmark(s, a).inodes == s.inodes
      && DropTable(s, i) == SetInode(Unmark(s, a), i, ip.(addrs := ip.addrs[NDIRECT := 0]))
  {
  }

  lemma InvCovered(sb: Super, s: Fs, owner: Owner)
    requires FsInv(sb, s, owner)
    ensures Covered(s)
  {
  }

  lemma InvOwned(sb: Super, s: Fs, owner: Owner)
    requires FsInv(sb, s, owner)
    ensures Owned(sb, s, owner, {})
  {
  }

  lemma ChargeStart(s: Fs, i: int, off: int)
    requires 0 <= i < |s.inodes|
    ensures Charged(s, i, {}, Touched(off, 0), InBlock(off) != 0, 0)
  {
  }

  lemma SliceAppend(c: seq<Byte>, a: int, b: int, d: int)
    requires 0 <= a <= b <= d <= |c|
    ensures c[a..b] + c[b..d] == c[a..d]
  {
  }

  /** What one iteration of readi relies on: the block exists, so bmap changes nothing. */
  lemma ReadStep(sb: Super, s: Fs, owner: Owner, i: int, off: int, n: int, tot: int)
    requires FsInv(sb, s, owner) && 0 <= i < |s.inodes| && 0 <= off && 0 <= tot < n && off + n <= s.inodes[i].size
    ensures Owned(sb, s, owner, {}) && 0 <= BlockNo(off + tot) < MAXFILE
    ensures 0 < ChunkLen(off, n, tot) && tot + ChunkLen(off, n, tot) <= n
    ensures 0 <= InBlock(off + tot) && InBlock(off + tot) + ChunkLen(off, n, tot) <= BSIZE
    ensures
      var r := FsFiles.Bmap(sb, s, i, BlockNo(off + tot));
      r.Mapped? && r.s == s && r.log == {} && ReadsFrom(s, i, off + tot, ChunkLen(off, n, tot), r.addr)
  {
    var at, k := off + tot, ChunkLen(off, n, tot);
    ChunkRange(off, n, tot);
    hide Held, Holds, Marks, Addr, ByteAt, ReadsFrom, FsFiles.Bmap, ChunkLen, BlockSlot;
    var a := Addr(s, BlockSlot(i, BlockNo(at)));
    assert Backed(s, i, 0, s.inodes[i].size);
    assert a != 0;
    ReadMapped(sb, s, owner, i, BlockNo(at));
    ReadsFromBlock(s, i, at, k, a);
  }

  lemma ReadsFromBlock(s: Fs, i: int, at: int, k: int, a: int)
    requires 0 <= i < |s.inodes| && 0 <= at && 0 < k && at + k <= s.inodes[i].size <= MAXBYTES
    requires InBlock(at) + k <= BSIZE
    requires 0 <= BlockNo(at) < MAXFILE && a == Addr(s, BlockSlot(i, BlockNo(at))) && 0 < a < |s.blocks|
    ensures ReadsFrom(s, i, at, k, a)
  {
    hide Addr;
    forall p | at <= p < at + k ensures ByteAt(s, i, p) == s.blocks[a][InBlock(at) + p - at] {
      assert BlockNo(p) == BlockNo(at) && InBlock(p) == InBlock(at) + p - at;
    }
  }

  /** Block `addr` holds bytes [at, at + k) of the file. */
  ghost predicate ReadsFrom(s: Fs, i: int, at: int, k: int, addr: int)
    requires 0 <= i < |s.inodes| && 0 <= s.inodes[i].size <= MAXBYTES
  {
    && 0 < addr < |s.blocks| && 0 <= at && 0 <= k && at + k <= s.inodes[i].size && InBlock(at) + k <= BSIZE
    && Contents(s, i)[at..at + k] == s.blocks[addr][InBlock(at)..InBlock(at) + k]
  }

  lemma ReadsFromIs(s: Fs, i: int, at: int, k: int, addr: int)
    requires 0 <= i < |s.inodes| && 0 <= s.inodes[i].size <= MAXBYTES && ReadsFrom(s, i, at, k, addr)
    ensures 0 < addr < |s.blocks| && 0 <= InBlock(at) && InBlock(at) + k <= BSIZE && 0 <= at && 0 <= k
    ensures at + k <= s.inodes[i].size
    ensures Contents(s, i)[at..at + k] == s.blocks[addr][InBlock(at)..InBlock(at) + k]
  {
  }

  lemma ReadMapped(sb: Super, s: Fs, owner: Owner, i: int, bn: int)
    requires Owned(sb, s, owner, {}) && 0 <= i < |s.inodes| && 0 <= bn < MAXFILE && Addr(s, BlockSlot(i, bn)) != 0
    ensures FsFiles.Bmap(sb, s, i, bn) == Mapped(s, Addr(s, BlockSlot(i, bn)), {})
    ensures 0 < Addr(s, BlockSlot(i, bn)) < |s.blocks|
  {
    assert Addr(s, BlockSlot(i, bn)) in owner;
    if bn >= NDIRECT {
      assert Addr(s, Table(i)) != 0;
    }
  }

  lemma WriteReady(sb: Super, s0: Fs, s: Fs, owner: Owner, i: int, off: int, src: seq<Byte>,
          tot: int)
    requires Writing(sb, s0, s, owner, i, off, src, tot) && tot < |src|
    ensures Owned(sb, s, owner, {}) && 0 <= i < |s.inodes| == |s0.inodes|
    ensures Shaped(sb, s) && sb.size < 0x1_0000_0000 && 0 <= off && 0 <= tot && off + |src| <= MAXBYTES
    ensures 0 <= BlockNo(off + tot) < MAXFILE && 0 <= InBlock(off + tot) < BSIZE
    ensures 0 < ChunkLen(off, |src|, tot) && tot + ChunkLen(off, |src|, tot) <= |src|
    ensures InBlock(off + tot) + ChunkLen(off, |src|, tot) <= BSIZE
  {
    ChunkRange(off, |src|, tot);
  }

  /** An unaligned write starts in a block that exists already. */
  lemma FirstBlockExists(sb: Super, s: Fs, owner: Owner, i: int, off: int)
    requires FsInv(sb, s, owner) && 0 <= i < |s.inodes| && 0 <= off <= s.inodes[i].size && InBlock(off) != 0
    ensures 0 <= BlockNo(off) < MAXFILE && Addr(s, BlockSlot(i, BlockNo(off))) != 0
  {
    hide Addr, Owned;
    assert BlockNo(off - 1) == BlockNo(off);
    BlockRange(off - 1);
    assert Addr(s, BlockSlot(i, BlockNo(off - 1))) != 0;
  }

  /** The log count after one iteration of writei in a transaction of its own. */
  lemma WriteCharge(sb: Super, s0: Fs, owner0: Owner, s: Fs, owner: Owner, i: int, off: int,
          src: seq<Byte>, tot: int, logged: set<int>, extra: int)
    returns (extra': int)
    requires FsInv(sb, s0, owner0) && Writing(sb, s0, s, owner, i, off, src, tot) && tot < |src|
    requires off <= s0.inodes[i].size && (tot == 0 ==> s == s0) && (tot == 0 || InBlock(off + tot) == 0)
    requires Stepped(sb, s, i, off, src, tot).Mapped?
    requires Charged(s, i, logged, Touched(off, tot), InBlock(off) != 0, extra)
    ensures
      var r := Stepped(sb, s, i, off, src, tot);
      && |r.s.inodes| == |s.inodes|
      && Charged(r.s, i, logged + r.log, Touched(off, tot + ChunkLen(off, |src|, tot)), InBlock(off) != 0, extra')
  {
    hide *;
    var at, m := off + tot, ChunkLen(off, |src|, tot);
    WriteReady(sb, s0, s, owner, i, off, src, tot);
    SteppedMapped(sb, s, i, off, src, tot);
    SteppedIs(sb, s, owner, i, off, src, tot);
    TouchedNext(off, tot, |src|);
    TouchedNone(off, tot);
    if InBlock(off) != 0 {
      FirstBlockExists(sb, s0, owner0, i, off);
    }
    var r := FsFiles.Bmap(sb, s, i, BlockNo(at));
    extra' := ChargeNext(sb, s, owner, i, BlockNo(at), logged, Touched(off, tot), InBlock(off) != 0, extra);
    var owner' := BmapSound(sb, s, owner, i, BlockNo(at));
    TableSlot(|r.s.inodes|, i);
    PatchAddr(sb, r.s, owner', i, BlockNo(at), InBlock(at), src[tot..tot + m], Table(i));
    var s' := Patch(r.s, r.addr, InBlock(at), src[tot..tot + m]);
    ChargedSame(r.s, s', i, logged + r.log + {r.addr}, Touched(off, tot) + 1, InBlock(off) != 0, extra');
    assert logged + r.log + {r.addr} == logged + (r.log + {r.addr});
  }

  lemma TableSlot(n: nat, i: int)
    requires 0 <= i < n
    ensures ValidSlot(n, Table(i))
  {
  }

  lemma SteppedMapped(sb: Super, s: Fs, i: int, off: int, src: seq<Byte>, tot: int)
    requires Shaped(sb, s) && sb.size < 0x1_0000_0000 && 0 <= i < |s.inodes|
    requires 0 <= off && 0 <= tot < |src| && off + |src| <= MAXBYTES
    requires Stepped(sb, s, i, off, src, tot).Mapped?
    ensures 0 <= BlockNo(off + tot) < MAXFILE && FsFiles.Bmap(sb, s, i, BlockNo(off + tot)).Mapped?
  {
    hide FsFiles.Bmap;
    ChunkRange(off, |src|, tot);
  }

  lemma ChargedSame(s: Fs, s': Fs, i: int, logged: set<int>, T: int, firstExists: bool, extra: int)
    requires 0 <= i < |s.inodes| == |s'.inodes| && Charged(s, i, logged, T, firstExists, extra)
    requires ValidSlot(|s.inodes|, Table(i)) && Addr(s', Table(i)) == Addr(s, Table(i))
    ensures Charged(s', i, logged, T, firstExists, extra)
  {
  }

  lemma TouchedNone(off: int, tot: int)
    requires 0 <= off && 0 <= tot
    ensures Touched(off, tot) == 0 <==> tot == 0
  {
  }

  lemma TableInRange(sb: Super, s: Fs, owner: Owner, i: int)
    requires Owned(sb, s, owner, {}) && 0 <= i < |s.inodes| && Ensure(sb, s, Table(i)).Mapped?
    ensures
      var m := Ensure(sb, s, Table(i));
      0 < m.addr < |m.s.blocks| && TableAddr(m.s, i) == m.addr
  {
    var owner' := EnsureOwned(sb, s, owner, Table(i));
    EnsureAddrs(sb, s, owner, Table(i), Table(i));
  }
}
