/**
 The file system on the log: what a crash leaves while files are written. The durable groups
 of the log are the transactions of kernel/fs.c in order, and every transaction logs all that
 it changes, so recovery gives the state after a whole number of them. How an inode or a
 piece of the bitmap is packed into a block is a parameter.
 */
module FsCrash {
  import opened FsBlocks
  import opened FsFiles
  import opened FsTruncate
  import opened FsCovers
  import opened FileSystem
  import BlockDisk
  import RedoLog
  import LogProtocol
  import Mkfs

  type Encoding = (Fs, int) -> BlockDisk.Block

  /** A block's contents depend only on what the file system keeps in it. */
  ghost predicate Local(sb: Super, enc: Encoding) {
    forall s, s', b :: SamePiece(sb, s, s', b) ==> enc(s', b) == enc(s, b)
  }

  /** The home blocks hold s. */
  ghost predicate OnDisk(g: RedoLog.Region, disk: BlockDisk.Disk, enc: Encoding, s: Fs) {
    forall b :: RedoLog.Home(g, |disk|, b) ==> disk[b] == enc(s, b)
  }

  /** Update j of the group is its last to its block. */
  ghost predicate LastTo(us: LogProtocol.Group, j: int) {
    0 <= j < |us| && forall l :: j < l < |us| ==> us[l].blockno != us[j].blockno
  }

  /** The group holds the transaction: its blocks, each last with the contents it is to have. */
  ghost predicate Carries(g: RedoLog.Region, size: nat, us: LogProtocol.Group, enc: Encoding, c: Committed) {
    && LogProtocol.AllHome(g, size, us)
    && (forall j :: 0 <= j < |us| ==> us[j].blockno in c.logged)
    && (forall j :: LastTo(us, j) ==> us[j].data == enc(c.s, us[j].blockno))
    && (forall b :: b in c.logged ==> exists j :: 0 <= j < |us| && us[j].blockno == b)
  }

  lemma {:induction false} LastExists(us: LogProtocol.Group, b: int) returns (j: int)
    requires exists k :: 0 <= k < |us| && us[k].blockno == b
    ensures LastTo(us, j) && us[j].blockno == b
    decreases |us|
  {
    if us[|us| - 1].blockno == b {
      j := |us| - 1;
    } else {
      var front := us[..|us| - 1];
      var k :| 0 <= k < |us| && us[k].blockno == b;
      assert front[k].blockno == b;
      j := LastExists(front, b);
    }
  }

  lemma {:induction false} ReplayElsewhere(g: RedoLog.Region, d: BlockDisk.Disk, us: LogProtocol.Group, b: int)
    requires LogProtocol.AllHome(g, |d|, us) && 0 <= b < |d|
    requires forall j :: 0 <= j < |us| ==> us[j].blockno != b
    ensures LogProtocol.Replay(g, d, us)[b] == d[b]
    decreases |us|
  {
    if us == [] {
    } else {
      var front, u := us[..|us| - 1], us[|us| - 1];
      assert us == front + [u];
      LogProtocol.ReplayOne(g, d, front, u);
      ReplayElsewhere(g, d, front, b);
    }
  }

  lemma ReplayLast(g: RedoLog.Region, d: BlockDisk.Disk, us: LogProtocol.Group, j: int)
    requires LogProtocol.AllHome(g, |d|, us) && LastTo(us, j)
    ensures 0 <= us[j].blockno < |d| && LogProtocol.Replay(g, d, us)[us[j].blockno] == us[j].data
  {
    hide LogProtocol.Replay;
    var front, rest := us[..j + 1], us[j + 1..];
    assert us == front + rest && front == us[..j] + [us[j]];
    LogProtocol.ReplayBoth(g, d, front, rest);
    LogProtocol.ReplayOne(g, d, us[..j], us[j]);
    assert RedoLog.Home(g, |d|, us[j].blockno);
    ReplayElsewhere(g, LogProtocol.Replay(g, d, front), rest, us[j].blockno);
  }

  /** Applying one group takes the disk from one committed state to the next. */
  lemma GroupApplied(g: RedoLog.Region, d: BlockDisk.Disk, us: LogProtocol.Group, sb: Super, enc: Encoding, s: Fs,
          c: Committed)
    requires Local(sb, enc) && OnDisk(g, d, enc, s) && Covers(sb, s, c.s, c.logged) && Carries(g, |d|, us, enc, c)
    ensures OnDisk(g, LogProtocol.Replay(g, d, us), enc, c.s)
  {
    hide LogProtocol.Replay, SamePiece;
    var e := LogProtocol.Replay(g, d, us);
    forall b | RedoLog.Home(g, |e|, b) ensures e[b] == enc(c.s, b) {
      if b in c.logged {
        var j := LastExists(us, b);
        ReplayLast(g, d, us, j);
      } else {
        ReplayElsewhere(g, d, us, b);
        assert SamePiece(sb, s, c.s, b);
      }
    }
  }

  lemma {:induction false} GroupsApplied(g: RedoLog.Region, d: BlockDisk.Disk, gs: seq<LogProtocol.Group>, sb: Super,
          enc: Encoding, s0: Fs, cs: seq<Committed>)
    requires Local(sb, enc) && OnDisk(g, d, enc, s0) && Chained(sb, s0, cs) && |gs| <= |cs|
    requires forall k :: 0 <= k < |gs| ==> Carries(g, |d|, gs[k], enc, cs[k])
    ensures LogProtocol.AllHome(g, |d|, LogProtocol.Flatten(gs))
    ensures OnDisk(g, LogProtocol.Replay(g, d, LogProtocol.Flatten(gs)), enc, Reached(s0, cs[..|gs|]))
    decreases |gs|
  {
    hide LogProtocol.Replay, Local, OnDisk, Carries, Covers;
    if gs == [] {
      LogProtocol.ReplayNone(g, d);
    } else {
      var n := |gs| - 1;
      var front := gs[..n];
      GroupsApplied(g, d, front, sb, enc, s0, cs);
      var e := LogProtocol.Replay(g, d, LogProtocol.Flatten(front));
      assert Carries(g, |d|, gs[n], enc, cs[n]);
      CarriesHome(g, |d|, gs[n], enc, cs[n]);
      GroupApplied(g, e, gs[n], sb, enc, Reached(s0, cs[..n]), cs[n]);
      LogProtocol.ReplayBoth(g, d, LogProtocol.Flatten(front), gs[n]);
      assert cs[..n + 1][n] == cs[n];
    }
  }

  lemma CarriesHome(g: RedoLog.Region, size: nat, us: LogProtocol.Group, enc: Encoding, c: Committed)
    requires Carries(g, size, us, enc, c)
    ensures LogProtocol.AllHome(g, size, us)
  {
  }

  /**
   In every reachable state of the log whose durable groups carry these transactions, a crash
   followed by recovery gives the disk the state after exactly the durable ones.
   */
  lemma CrashLeavesCommitted(g: RedoLog.Region, d: BlockDisk.Disk, es: seq<LogProtocol.Event>, t: LogProtocol.State,
          sb: Super, enc: Encoding, s0: Fs, cs: seq<Committed>)
    requires RedoLog.ValidDisk(g, d) && LogProtocol.Run(g, d, es, t) && t.spared
    requires Local(sb, enc) && OnDisk(g, RedoLog.Recovered(g, d), enc, s0) && Chained(sb, s0, cs)
    requires |t.durable| <= |cs| && forall k :: 0 <= k < |t.durable| ==> Carries(g, |d|, t.durable[k], enc, cs[k])
    ensures RedoLog.ValidDisk(g, t.disk)
    ensures OnDisk(g, RedoLog.Recovered(g, t.disk), enc, Reached(s0, cs[..|t.durable|]))
  {
    hide LogProtocol.Run, LogProtocol.Replay, LogProtocol.By, Local, Carries, Chained, Reached, RedoLog.ValidDisk;
    LogProtocol.CrashSafety(g, d, es, t);
    GroupsApplied(g, RedoLog.Recovered(g, d), t.durable, sb, enc, s0, cs);
  }

  /** filewrite: a crash leaves the file as it was, or with a whole number of chunks written. */
  lemma CrashDuringFilewrite(g: RedoLog.Region, d: BlockDisk.Disk, es: seq<LogProtocol.Event>, t: LogProtocol.State,
          sb: Super, enc: Encoding, s0: Fs, cs: seq<Committed>, i: int, off: int, src: seq<Byte>) returns (s: Fs)
    requires RedoLog.ValidDisk(g, d) && LogProtocol.Run(g, d, es, t) && t.spared
    requires Local(sb, enc) && OnDisk(g, RedoLog.Recovered(g, d), enc, s0) && Chained(sb, s0, cs)
    requires |t.durable| <= |cs| && forall k :: 0 <= k < |t.durable| ==> Carries(g, |d|, t.durable[k], enc, cs[k])
    requires forall k :: 0 <= k < |cs| ==> GoodCommit(sb, s0, cs[k], i, off, src)
    ensures RedoLog.ValidDisk(g, t.disk) && OnDisk(g, RedoLog.Recovered(g, t.disk), enc, s)
    ensures if t.durable == [] then s == s0
            else exists tot, owner :: 0 < tot && InChunks(sb, s0, s, owner, i, off, src, tot)
  {
    hide LogProtocol.Run, RedoLog.ValidDisk, Local, OnDisk, Carries, Chained, InChunks;
    CrashLeavesCommitted(g, d, es, t, sb, enc, s0, cs);
    s := Reached(s0, cs[..|t.durable|]);
    if t.durable != [] {
      assert GoodCommit(sb, s0, cs[|t.durable| - 1], i, off, src);
    }
  }

  /** The file system that first mounts mkfs's image, where the image is one (see Mkfs.Image.Build). */
  method FirstBoot(image: Mkfs.Image, files: seq<Mkfs.HostFile>) returns (ok: bool, disk: Disk?)
    requires Mkfs.Sound(image.sb, image.freeblock, image.blocks, image.inodes, image.owner)
    requires image.freeinode == Mkfs.ROOTINO && Mkfs.Fits(files, |image.inodes|)
    requires forall j :: 0 <= j < |image.inodes| ==> image.inodes[j].kind == 0
    modifies image
    ensures ok ==> (disk != null <==> Mkfs.DIRENT * (2 + |files|) % BSIZE != 0)
    ensures disk != null ==> fresh(disk) && disk.Valid() && disk.commits == []
    ensures disk != null ==>
              forall k :: 0 <= k < |files| ==> Mkfs.FileIs(disk.s, Mkfs.ROOTINO + 1 + k, files[k].content)
  {
    hide FsInv, Mkfs.FileIs, Mkfs.Sound;
    disk := null;
    var fs;
    ok, fs := image.Build(files);
    if ok && Mkfs.DIRENT * (2 + |files|) % BSIZE != 0 {
      ghost var owner :| FsInv(image.sb, fs, owner);
      disk := new Disk(image.sb, fs, owner);
    }
  }
}
