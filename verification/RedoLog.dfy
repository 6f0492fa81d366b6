/**
 The redo log of kernel/log.c: the block writes that commit() and recover_from_log()
 issue, in order, and why a stop between any two of them loses no atomicity.
 */
module RedoLog {
  import opened BlockDisk

  /** MAXOPBLOCKS and LOGSIZE of kernel/param.h */
  const MAXOPBLOCKS: nat := 10
  const LOGSIZE: nat := MAXOPBLOCKS * 3

  /** Where the log lives: log.start and log.size. The header is block `start`. */
  datatype Region = Region(start: nat, size: nat)

  /** The number of blocks one transaction may hold before log_write panics. */
  function Capacity(g: Region): nat {
    if g.size == 0 then 0 else if g.size - 1 < LOGSIZE then g.size - 1 else LOGSIZE
  }

  predicate InLog(g: Region, b: int) {
    g.start <= b < g.start + g.size
  }

  /** A block outside the log, the only kind clients hand to log_write. */
  predicate Home(g: Region, diskSize: nat, b: int) {
    0 <= b < diskSize && !InLog(g, b)
  }

  ghost predicate Distinct(s: seq<int>) {
    forall i, j :: 0 <= i < j < |s| ==> s[i] != s[j]
  }

  /** A list of block numbers that the header can hold. */
  ghost predicate NamesHome(g: Region, diskSize: nat, lh: seq<int>) {
    |lh| <= Capacity(g) && forall i :: 0 <= i < |lh| ==> Home(g, diskSize, lh[i])
  }

  ghost predicate ValidHeader(g: Region, diskSize: nat, lh: seq<int>) {
    NamesHome(g, diskSize, lh) && Distinct(lh)
  }

  /** Write `lh` over a header block; words past the last entry stay as they were. */
  function SetHead(was: Block, lh: seq<int>): Block
    requires |lh| <= LOGSIZE
  {
    [|lh|] + lh + was[|lh| + 1..]
  }

  /** The block numbers a header block records. */
  function Head(b: Block): seq<int> {
    if 0 <= b[0] <= LOGSIZE then b[1..b[0] + 1] else []
  }

  lemma HeadOfSetHead(was: Block, lh: seq<int>)
    requires |lh| <= LOGSIZE
    ensures Head(SetHead(was, lh)) == lh
  {
  }

  ghost predicate ValidDisk(g: Region, d: Disk) {
    && 1 <= g.size && g.start + g.size <= |d|
    && 0 <= d[g.start][0] <= LOGSIZE
    && ValidHeader(g, |d|, Head(d[g.start]))
  }

  /** The on-disk header names no block: nothing is committed but not installed. */
  ghost predicate Quiet(g: Region, d: Disk) {
    ValidDisk(g, d) && Head(d[g.start]) == []
  }

  ghost predicate SameHome(g: Region, d: Disk, e: Disk) {
    |d| == |e| && forall b :: Home(g, |d|, b) ==> d[b] == e[b]
  }

  /** write_log: copy block lh[i] of the cache to log block i. */
  function LogWrites(g: Region, lh: seq<int>, view: Disk): (ws: seq<Write>)
    requires forall i :: 0 <= i < |lh| ==> 0 <= lh[i] < |view|
    ensures |ws| == |lh|
  {
    seq(|lh|, i requires 0 <= i < |lh| => Write(g.start + 1 + i, view[lh[i]]))
  }

  /** install_trans: copy the log blocks of `view` to the blocks the header names. */
  function InstallWrites(g: Region, lh: seq<int>, view: Disk): (ws: seq<Write>)
    requires g.start + 1 + |lh| <= |view|
    requires forall i :: 0 <= i < |lh| ==> 0 <= lh[i]
    ensures |ws| == |lh|
  {
    seq(|lh|, i requires 0 <= i < |lh| => Write(lh[i], view[g.start + 1 + i]))
  }

  function HeadWrite(g: Region, was: Block, lh: seq<int>): Write
    requires |lh| <= LOGSIZE
  {
    Write(g.start, SetHead(was, lh))
  }

  /** recover_from_log: install what the header names, then clear the header. */
  ghost function RecoverWrites(g: Region, d: Disk): (ws: seq<Write>)
    requires ValidDisk(g, d)
    ensures WithinDisk(ws, |d|) && |ws| == |Head(d[g.start])| + 1
  {
    InstallWrites(g, Head(d[g.start]), d) + [HeadWrite(g, d[g.start], [])]
  }

  ghost function Recovered(g: Region, d: Disk): (r: Disk)
    requires ValidDisk(g, d)
    ensures |r| == |d|
  {
    Apply(d, RecoverWrites(g, d))
  }

  /** install_trans once log block i holds block lh[i] of `view`. */
  function HomeWrites(lh: seq<int>, view: Disk): (ws: seq<Write>)
    requires forall i :: 0 <= i < |lh| ==> 0 <= lh[i] < |view|
    ensures |ws| == |lh|
  {
    seq(|lh|, i requires 0 <= i < |lh| => Write(lh[i], view[lh[i]]))
  }

  /**
   commit with a non-empty list: log blocks, header, home blocks, cleared header.
   `view` is what the buffer cache holds: the new contents of the blocks in `lh`.
   */
  ghost function CommitWrites(g: Region, d: Disk, lh: seq<int>, view: Disk): (ws: seq<Write>)
    requires ValidDisk(g, d) && ValidHeader(g, |d|, lh) && |view| == |d|
    ensures |ws| == 2 * |lh| + 2 && WithinDisk(ws, |d|)
  {
    LogWrites(g, lh, view) + [HeadWrite(g, d[g.start], lh)] + HomeWrites(lh, view)
    + [HeadWrite(g, SetHead(d[g.start], lh), [])]
  }

  // ---- recovery, block by block

  /** `v` is what recovery leaves in home block `b`. */
  ghost predicate AfterRecovery(g: Region, d: Disk, b: int, v: Block)
    requires ValidDisk(g, d) && Home(g, |d|, b)
  {
    var lh := Head(d[g.start]);
    && (forall i :: 0 <= i < |lh| && lh[i] == b ==> v == d[g.start + 1 + i])
    && (b !in lh ==> v == d[b])
  }

  lemma RecoverWritesPrefix(g: Region, d: Disk, k: nat, b: int)
    requires ValidDisk(g, d) && k <= |RecoverWrites(g, d)| && Home(g, |d|, b)
    ensures
      var lh := Head(d[g.start]);
      var e := Apply(d, RecoverWrites(g, d)[..k]);
      && (forall i :: 0 <= i < k && i < |lh| && lh[i] == b ==> e[b] == d[g.start + 1 + i])
      && ((forall i :: 0 <= i < k && i < |lh| ==> lh[i] != b) ==> e[b] == d[b])
  {
    var lh := Head(d[g.start]);
    var ws := RecoverWrites(g, d)[..k];
    if i :| 0 <= i < k && i < |lh| && lh[i] == b {
      LastWriteWins(d, ws, i);
    } else {
      Untouched(d, ws, b);
    }
  }

  /** The log area during recovery: log blocks never change, the header only at the end. */
  lemma RecoverKeepsLog(g: Region, d: Disk, k: nat)
    requires ValidDisk(g, d) && k <= |RecoverWrites(g, d)|
    ensures
      var n := |Head(d[g.start])|;
      var e := Apply(d, RecoverWrites(g, d)[..k]);
      && (forall j :: g.start < j < g.start + g.size ==> e[j] == d[j])
      && e[g.start] == if k <= n then d[g.start] else SetHead(d[g.start], [])
  {
    var n := |Head(d[g.start])|;
    var ws := RecoverWrites(g, d)[..k];
    forall j | g.start < j < g.start + g.size ensures Apply(d, ws)[j] == d[j] {
      Untouched(d, ws, j);
    }
    if k <= n {
      Untouched(d, ws, g.start);
    } else {
      LastWriteWins(d, ws, n);
    }
  }

  lemma RecoveredAt(g: Region, d: Disk, b: int)
    requires ValidDisk(g, d) && Home(g, |d|, b)
    ensures AfterRecovery(g, d, b, Recovered(g, d)[b])
  {
    var ws := RecoverWrites(g, d);
    assert ws[..|ws|] == ws;
    RecoverWritesPrefix(g, d, |ws|, b);
  }

  lemma RecoveryInterruptedLog(g: Region, d: Disk, k: nat)
    requires ValidDisk(g, d) && k <= |RecoverWrites(g, d)|
    ensures
      var e := Apply(d, RecoverWrites(g, d)[..k]);
      && ValidDisk(g, e)
      && Head(e[g.start]) == if k == |RecoverWrites(g, d)| then [] else Head(d[g.start])
  {
    RecoverKeepsLog(g, d, k);
    HeadOfSetHead(d[g.start], []);
  }

  lemma RecoveryInterruptedAt(g: Region, d: Disk, k: nat, b: int)
    requires ValidDisk(g, d) && k <= |RecoverWrites(g, d)| && Home(g, |d|, b)
    ensures
      var e := Apply(d, RecoverWrites(g, d)[..k]);
      && ValidDisk(g, e) && Recovered(g, e)[b] == Recovered(g, d)[b]
      && (k == |RecoverWrites(g, d)| ==> e[b] == Recovered(g, d)[b])
  {
    hide Apply;
    var lh := Head(d[g.start]);
    var e := Apply(d, RecoverWrites(g, d)[..k]);
    RecoveryInterruptedLog(g, d, k);
    RecoveredAt(g, d, b);
    RecoveredAt(g, e, b);
    RecoverWritesPrefix(g, d, k, b);
    if b in lh {
      var i :| 0 <= i < |lh| && lh[i] == b;
      RecoverKeepsLog(g, d, k);
    }
  }

  /**
   Recovery is idempotent under interruption: stop it after any number of its writes,
   and running recovery again gives the same home blocks.
   */
  lemma RecoveryInterrupted(g: Region, d: Disk, k: nat)
    requires ValidDisk(g, d) && k <= |RecoverWrites(g, d)|
    ensures
      var e := Apply(d, RecoverWrites(g, d)[..k]);
      && ValidDisk(g, e) && SameHome(g, Recovered(g, e), Recovered(g, d))
      && (k == |RecoverWrites(g, d)| ==> Quiet(g, e) && SameHome(g, e, Recovered(g, d)))
  {
    var e := Apply(d, RecoverWrites(g, d)[..k]);
    RecoveryInterruptedLog(g, d, k);
    forall b | Home(g, |d|, b)
      ensures Recovered(g, e)[b] == Recovered(g, d)[b]
      ensures k == |RecoverWrites(g, d)| ==> e[b] == Recovered(g, d)[b]
    {
      RecoveryInterruptedAt(g, d, k, b);
    }
  }

  /**
   Any number of crashes during recovery: each attempt but the last is cut after `cuts[i]`
   of its own writes. The next recovery to complete still gives the same home blocks.
   */
  ghost predicate CutRecoveries(g: Region, d: Disk, cuts: seq<nat>, e: Disk)
    decreases |cuts|
  {
    ValidDisk(g, d) &&
    if cuts == [] then e == d
    else
      && cuts[0] <= |RecoverWrites(g, d)|
      && CutRecoveries(g, Apply(d, RecoverWrites(g, d)[..cuts[0]]), cuts[1..], e)
  }

  lemma {:induction false} RepeatedCrashesInRecovery(g: Region, d: Disk, cuts: seq<nat>, e: Disk)
    requires CutRecoveries(g, d, cuts, e)
    ensures ValidDisk(g, e) && SameHome(g, Recovered(g, e), Recovered(g, d))
    decreases |cuts|
  {
    if cuts != [] {
      RecoveryInterrupted(g, d, cuts[0]);
      RepeatedCrashesInRecovery(g, Apply(d, RecoverWrites(g, d)[..cuts[0]]), cuts[1..], e);
    }
  }

  // ---- commit

  /** The cache differs from the disk only in the blocks of the transaction. */
  ghost predicate DirtyOnly(g: Region, d: Disk, lh: seq<int>, view: Disk) {
    |view| == |d| && forall b :: Home(g, |d|, b) && b !in lh ==> view[b] == d[b]
  }

  lemma {:induction false} CommitLogBlocks(g: Region, d: Disk, lh: seq<int>, view: Disk, k: nat, i: nat)
    requires Quiet(g, d) && ValidHeader(g, |d|, lh) && |view| == |d|
    requires i < |lh| < k <= 2 * |lh| + 2
    ensures Apply(d, CommitWrites(g, d, lh, view)[..k])[g.start + 1 + i] == view[lh[i]]
  {
    LastWriteWins(d, CommitWrites(g, d, lh, view)[..k], i);
  }

  lemma {:induction false} CommitHeader(g: Region, d: Disk, lh: seq<int>, view: Disk, k: nat)
    requires Quiet(g, d) && ValidHeader(g, |d|, lh) && |view| == |d|
    requires k <= 2 * |lh| + 2
    ensures
      var n := |lh|;
      Apply(d, CommitWrites(g, d, lh, view)[..k])[g.start] ==
      if k <= n then d[g.start]
      else if k <= 2 * n + 1 then SetHead(d[g.start], lh)
      else SetHead(SetHead(d[g.start], lh), [])
  {
    var n := |lh|;
    var ws := CommitWrites(g, d, lh, view)[..k];
    if k <= n {
      Untouched(d, ws, g.start);
    } else if k <= 2 * n + 1 {
      LastWriteWins(d, ws, n);
    } else {
      LastWriteWins(d, ws, 2 * n + 1);
    }
  }

  lemma CommitHomeUntouched(g: Region, d: Disk, lh: seq<int>, view: Disk, k: nat, b: int)
    requires Quiet(g, d) && ValidHeader(g, |d|, lh) && |view| == |d|
    requires k <= 2 * |lh| + 2 && Home(g, |d|, b)
    requires k <= |lh| || b !in lh
    ensures Apply(d, CommitWrites(g, d, lh, view)[..k])[b] == d[b]
  {
    Untouched(d, CommitWrites(g, d, lh, view)[..k], b);
  }

  lemma {:induction false} CommitHomeInstalled(g: Region, d: Disk, lh: seq<int>, view: Disk, i: nat)
    requires Quiet(g, d) && ValidHeader(g, |d|, lh) && |view| == |d|
    requires i < |lh|
    ensures Apply(d, CommitWrites(g, d, lh, view))[lh[i]] == view[lh[i]]
  {
    LastWriteWins(d, CommitWrites(g, d, lh, view), |lh| + 1 + i);
  }

  lemma CommitHomeBlock(g: Region, d: Disk, lh: seq<int>, view: Disk, k: nat, b: int)
    requires Quiet(g, d) && ValidHeader(g, |d|, lh) && DirtyOnly(g, d, lh, view)
    requires k <= 2 * |lh| + 2 && Home(g, |d|, b)
    ensures
      var e := Apply(d, CommitWrites(g, d, lh, view)[..k]);
      && (k <= |lh| || b !in lh ==> e[b] == d[b])
      && (k == 2 * |lh| + 2 ==> e[b] == view[b])
  {
    if k <= |lh| || b !in lh {
      CommitHomeUntouched(g, d, lh, view, k, b);
    } else if k == 2 * |lh| + 2 {
      var i :| 0 <= i < |lh| && lh[i] == b;
      assert CommitWrites(g, d, lh, view)[..k] == CommitWrites(g, d, lh, view);
      CommitHomeInstalled(g, d, lh, view, i);
    }
  }

  lemma CommitInterruptedLog(g: Region, d: Disk, lh: seq<int>, view: Disk, k: nat)
    requires Quiet(g, d) && ValidHeader(g, |d|, lh) && |view| == |d|
    requires k <= 2 * |lh| + 2
    ensures
      var e := Apply(d, CommitWrites(g, d, lh, view)[..k]);
      && ValidDisk(g, e)
      && Head(e[g.start]) == if |lh| < k <= 2 * |lh| + 1 then lh else []
  {
    CommitHeader(g, d, lh, view, k);
    HeadOfSetHead(d[g.start], lh);
    HeadOfSetHead(SetHead(d[g.start], lh), []);
  }

  lemma CommitInterruptedAt(g: Region, d: Disk, lh: seq<int>, view: Disk, k: nat, b: int)
    requires Quiet(g, d) && ValidHeader(g, |d|, lh) && DirtyOnly(g, d, lh, view)
    requires k <= 2 * |lh| + 2 && Home(g, |d|, b)
    ensures
      var e := Apply(d, CommitWrites(g, d, lh, view)[..k]);
      && ValidDisk(g, e)
      && Recovered(g, e)[b] == if k <= |lh| then d[b] else view[b]
  {
    CommitInterruptedLog(g, d, lh, view, k);
    CommitHomeBlock(g, d, lh, view, k, b);
    RecoveredAt(g, Apply(d, CommitWrites(g, d, lh, view)[..k]), b);
    if |lh| < k <= 2 * |lh| + 1 && b in lh {
      var i :| 0 <= i < |lh| && lh[i] == b;
      CommitLogBlocks(g, d, lh, view, k, i);
    }
  }

  /**
   Commit is atomic: stop it after any number of its writes and recover, and the home
   blocks are all old (header not yet written) or all new, never a mixture. A commit that
   ran to its end has installed the transaction and left the header empty.
   */
  lemma CommitInterrupted(g: Region, d: Disk, lh: seq<int>, view: Disk, k: nat)
    requires Quiet(g, d) && ValidHeader(g, |d|, lh) && DirtyOnly(g, d, lh, view)
    requires k <= 2 * |lh| + 2
    ensures
      var e := Apply(d, CommitWrites(g, d, lh, view)[..k]);
      && ValidDisk(g, e)
      && SameHome(g, Recovered(g, e), if k <= |lh| then d else view)
      && (k == 2 * |lh| + 2 ==> Quiet(g, e) && SameHome(g, e, view))
  {
    var e := Apply(d, CommitWrites(g, d, lh, view)[..k]);
    CommitInterruptedLog(g, d, lh, view, k);
    forall b | Home(g, |d|, b)
      ensures Recovered(g, e)[b] == if k <= |lh| then d[b] else view[b]
      ensures k == 2 * |lh| + 2 ==> e[b] == view[b]
    {
      CommitInterruptedAt(g, d, lh, view, k, b);
      CommitHomeBlock(g, d, lh, view, k, b);
    }
  }

  /**
   The whole crash story of one transaction: a crash after any write of commit, then any
   number of crashes inside recovery, then one recovery that completes.
   */
  lemma CommitThenCrashes(g: Region, d: Disk, lh: seq<int>, view: Disk, k: nat, cuts: seq<nat>,
          e: Disk)
    requires Quiet(g, d) && ValidHeader(g, |d|, lh) && DirtyOnly(g, d, lh, view)
    requires k <= 2 * |lh| + 2
    requires CutRecoveries(g, Apply(d, CommitWrites(g, d, lh, view)[..k]), cuts, e)
    ensures ValidDisk(g, e) && Quiet(g, Recovered(g, e))
    ensures SameHome(g, Recovered(g, e), d) || SameHome(g, Recovered(g, e), view)
    ensures k > |lh| ==> SameHome(g, Recovered(g, e), view)
  {
    CommitInterrupted(g, d, lh, view, k);
    RepeatedCrashesInRecovery(g, Apply(d, CommitWrites(g, d, lh, view)[..k]), cuts, e);
    var ws := RecoverWrites(g, e);
    assert ws[..|ws|] == ws;
    RecoveryInterrupted(g, e, |ws|);
  }
}
