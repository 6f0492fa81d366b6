/**
 The calls of kernel/log.c on the log and its cache, one after the other by whatever
 processes, as runs of the LogProtocol machine: begin_op, a read, an update, end_op with the
 block writes of its commit, and the recovery at boot are that machine's steps. So what is
 proved of every run is proved of these calls.
 */
module LogCalls {
  import opened BlockDisk
  import opened RedoLog
  import opened BufferRing
  import opened Bio
  import opened LogCache
  import opened LogDevice
  import LogProtocol

  type Event = LogProtocol.Event
  type Machine = LogProtocol.State

  /** Nobody has a buffer, and every store is logged. */
  ghost predicate NobodyHas(s: State, m: Marks) {
    s.Sized() && m.dirty == {} && forall i :: 0 <= i < |s.bufs| ==> s.refs.users[i] == 0
  }

  /** The machine is where the log is. */
  ghost predicate Matches(g: Region, s: State, lh: seq<int>, outstanding: nat, stuck: set<int>, t: Machine) {
    && !t.booting && !t.committing && t.disk == s.disk && |t.view| == |s.disk| == |s.logical|
    && SameHome(g, t.view, s.logical) && t.lh == lh && |t.active| == outstanding && t.installed == stuck
  }

  class Calls {
    const log: LogDevice.Log
    ghost const first: Disk
    ghost var events: seq<Event>
    ghost var now: Machine

    ghost predicate Follows()
      reads this, log, log.cache
    {
      && log.Valid() && !log.committing && NobodyHas(log.cache.Now(), log.marks)
      && ValidDisk(log.g, first) && LogProtocol.Run(log.g, first, events, now) && now.spared
      && Matches(log.g, log.cache.Now(), log.lh, log.outstanding, log.marks.stuck, now)
    }

    /** Boot: recovery is the machine's block writes from its start on. */
    constructor (g: Region, disk: Disk)
      requires ValidDisk(g, disk) && |Head(disk[g.start])| < NBUF && SUPERBLOCK < |disk|
      ensures Follows() && fresh(log) && fresh(log.cache) && log.g == g && first == disk
      ensures events == Recovery(g, disk) && now.active == map[] && log.outstanding == 0
    {
      hide Held, Ring, Aged, LogCache.Booted, Sound, Shortened, Consistent, Recovered, RecoverWrites, ValidHeader, Head,
           SameHome, Elems, Apply, Matches, LogProtocol.Run;
      var l := new LogDevice.Log(g, disk);
      l.Readsb();
      var ok := l.RecoverFromLog();
      NoElems();
      ghost var t := BootRun(g, disk);
      BootMatches(g, l.cache.Now(), disk, t, l.cache.stamp, l.marks, l.seen);
      log, first, events, now := l, disk, Recovery(g, disk), t;
    }

    /** begin_op's test: it begins exactly if the machine can. */
    method Begin() returns (begun: bool)
      requires Follows()
      modifies this`events, this`now, log`outstanding
      ensures Follows() && (begun <==> LogProtocol.Enabled(log.g, old(now), Event.Begin))
      ensures begun ==>
                events == old(events) + [Event.Begin] && now == LogProtocol.Next(log.g, old(now), Event.Begin)
      ensures !begun ==> events == old(events) && now == old(now)
    {
      hide Held, Ring, Aged, Consistent, LogProtocol.Run, LogProtocol.Next, SameHome;
      begun := log.TryBeginOp();
      if begun {
        LogProtocol.RunNext(log.g, first, events, now, Event.Begin);
        LogProtocol.RunRoom(log.g, first, events, now);
        BeginMatches(log.g, log.cache.Now(), log.lh, old(log.outstanding), log.marks.stuck, now);
        events, now := events + [Event.Begin], LogProtocol.Next(log.g, now, Event.Begin);
      }
    }

    /** bread and brelse of a block the last recovery did not install: what the machine says clients read */
    method Read(b: int) returns (ok: bool, data: Block)
      requires Follows() && Home(log.g, |log.cache.disk|, b) && b !in now.installed
      modifies this`events, this`now, log.cache
      ensures ok <==> !(Missing(old(log.cache.bufs), b) && AllHeld(old(log.cache.bufs)))
      ensures ok ==> Follows() && events == old(events) + [Event.Read(b)]
      ensures ok ==> now == old(now) && 0 <= b < |now.view| && data == now.view[b]
    {
      hide Held, Ring, Aged, Consistent, Fetchable, Missing, AllHeld, Oldest, Wrap, LogProtocol.Run;
      ghost var s := log.cache.Now();
      data := seq(BLOCK_WORDS, _ => 0);
      CallReady(log.g, s, log.marks, log.lh, b);
      var i := log.Bread(b);
      if i == NBUF {
        return false, data;
      }
      FetchedFound(s, log.cache.Now(), i, b, log.marks);
      data := log.cache.bufs[i].data;
      log.Brelse(i);
      LogProtocol.RunNext(log.g, first, events, now, Event.Read(b));
      events := events + [Event.Read(b)];
      ok := true;
    }

    /**
     bread, store, log_write, brelse by operation op: the machine's log write. It panics
     exactly if the list is full or no buffer is to be had.
     */
    method Write(ghost op: nat, b: int, data: Block) returns (ok: bool)
      requires Follows() && Home(log.g, |log.cache.disk|, b) && b !in now.installed
      requires op in now.active && (b !in now.lh ==> now.active[op] < MAXOPBLOCKS)
      modifies this`events, this`now, log.cache, log`lh, log`marks
      ensures ok <==>
                && !LogProtocol.Panics(log.g, old(now))
                && !(Missing(old(log.cache.bufs), b) && AllHeld(old(log.cache.bufs)))
      ensures ok ==>
                var e := Event.LogWrite(op, b, data, b);
                && Follows() && events == old(events) + [e]
                && LogProtocol.Enabled(log.g, old(now), e) && now == LogProtocol.Next(log.g, old(now), e)
    {
      hide Held, Ring, Aged, Consistent, Fetchable, Missing, AllHeld, Roomy, Oldest, Wrap, LogProtocol.Run,
           LogProtocol.Next;
      ghost var s := log.cache.Now();
      CallReady(log.g, s, log.marks, log.lh, b);
      SomeActive(now.active, op);
      ok := log.Update(b, data);
      if ok {
        ghost var e := Event.LogWrite(op, b, data, b);
        LogProtocol.RunNext(log.g, first, events, now, e);
        WriteMatches(log.g, s, log.cache.Now(), old(log.lh), log.lh, log.outstanding, log.marks.stuck, now, op, b,
                     data);
        events, now := events + [e], LogProtocol.Next(log.g, now, e);
      }
    }

    /**
     end_op of operation op: the machine's end and, if that was the last one, all the block
     writes of its commit, after which nothing is left to commit. It panics exactly if the
     last one out finds something to commit and no buffer.
     */
    method End(ghost op: nat) returns (ok: bool)
      requires Follows() && op in now.active
      modifies this`events, this`now, log.cache, log
      ensures ok <==> |old(now).active| > 1 || old(now).lh == [] || !AllHeld(old(log.cache.bufs))
      ensures ok ==> Follows() && events == old(events) + Ending(old(now), op) && now.active == old(now).active - {op}
      ensures ok && now.active == map[] ==>
                now.lh == [] && now.pending == [] && now.acked == old(now).acked + old(now).current
    {
      hide Held, Ring, Aged, Consistent, AllHeld, Wrap, LogProtocol.Run, LogProtocol.Next, Apply, SameHome;
      ghost var s, lh0 := log.cache.Now(), log.lh;
      AllReady(log.g, s, log.marks, lh0);
      LogReady(log.g, s, log.marks, lh0);
      SomeActive(now.active, op);
      OneLess(now.active, op);
      ok := log.EndOp();
      if ok {
        ghost var e := Event.End(op);
        LogProtocol.RunNext(log.g, first, events, now, e);
        if log.outstanding > 0 {
          EndMatches(log.g, s, lh0, log.outstanding + 1, log.marks.stuck, now, op);
          events, now := events + [e], LogProtocol.Next(log.g, now, e);
        } else {
          ghost var t := CommitRun(log.g, first, events, now, op, s, lh0, log.marks.stuck);
          CommitMatches(log.g, s, log.cache.Now(), lh0, log.marks.stuck, now, op, t);
          events, now := events + Ending(now, op), t;
        }
      }
    }
  }

  // ---- the machine's steps

  function DiskWrites(n: nat): seq<Event> { seq(n, _ => Event.DiskWrite) }

  /** The events of a boot from this disk. */
  ghost function Recovery(g: Region, disk: Disk): seq<Event>
    requires ValidDisk(g, disk)
  {
    DiskWrites(|RecoverWrites(g, disk)|) + [Event.BootDone]
  }

  /** The events of an end_op: the last one out commits. */
  ghost function Ending(t: Machine, op: nat): seq<Event> {
    if |t.active| > 1 then [Event.End(op)]
    else [Event.End(op)] + DiskWrites(if t.lh == [] then 0 else 2 * |t.lh| + 2) + [Event.CommitDone]
  }

  /** k block writes of the plan later. */
  ghost function Later(t: Machine, k: nat): Machine
    requires k <= |t.plan| && WithinDisk(t.plan, |t.disk|)
  {
    t.(disk := Apply(t.disk, t.plan[..k]), done := k,
       durable := if t.committing && |t.lh| < k then t.durable + [t.pending] else t.durable)
  }

  lemma {:induction false} WritesRun(g: Region, d: Disk, es: seq<Event>, t: Machine, k: nat)
    requires ValidDisk(g, d) && LogProtocol.Run(g, d, es, t) && (t.booting || t.committing) && t.done == 0
    requires k <= |t.plan| && WithinDisk(t.plan, |t.disk|)
    ensures LogProtocol.Run(g, d, es + DiskWrites(k), Later(t, k))
    decreases k
  {
    hide LogProtocol.Run;
    if k == 0 {
      assert es + DiskWrites(0) == es;
      assert t.plan[..0] == [];
    } else {
      WritesRun(g, d, es, t, k - 1);
      LaterNext(g, t, k - 1);
      LogProtocol.RunNext(g, d, es + DiskWrites(k - 1), Later(t, k - 1), Event.DiskWrite);
      assert es + DiskWrites(k - 1) + [Event.DiskWrite] == es + DiskWrites(k);
    }
  }

  lemma LaterNext(g: Region, t: Machine, k: nat)
    requires (t.booting || t.committing) && t.done == 0 && k < |t.plan| && WithinDisk(t.plan, |t.disk|)
    ensures LogProtocol.Enabled(g, Later(t, k), Event.DiskWrite)
    ensures LogProtocol.Next(g, Later(t, k), Event.DiskWrite) == Later(t, k + 1)
  {
    ApplyNext(t.disk, t.plan, k);
  }

  /** Recovery and the end of booting. */
  lemma BootRun(g: Region, disk: Disk) returns (t: Machine)
    requires ValidDisk(g, disk)
    ensures LogProtocol.Run(g, disk, Recovery(g, disk), t) && t.spared && !t.booting && !t.committing
    ensures t.disk == t.view == Apply(disk, RecoverWrites(g, disk)) && t.lh == [] && t.active == map[]
    ensures t.installed == Elems(Head(disk[g.start]))
  {
    hide Apply, RecoverWrites, Head, LogProtocol.Run;
    var s := LogProtocol.Start(g, disk);
    var n := |RecoverWrites(g, disk)|;
    assert LogProtocol.Run(g, disk, [], s) by { StartRun(g, disk); }
    WritesRun(g, disk, [], s, n);
    assert [] + DiskWrites(n) == DiskWrites(n);
    assert s.plan[..n] == s.plan;
    LogProtocol.RunNext(g, disk, DiskWrites(n), Later(s, n), Event.BootDone);
    t := LogProtocol.Next(g, Later(s, n), Event.BootDone);
  }

  lemma StartRun(g: Region, disk: Disk)
    requires ValidDisk(g, disk)
    ensures LogProtocol.Run(g, disk, [], LogProtocol.Start(g, disk))
  {
  }

  /** The last end_op: the commit it starts, to its end. */
  lemma CommitRun(g: Region, d: Disk, es: seq<Event>, t0: Machine, op: nat, s: State, lh: seq<int>, stuck: set<int>)
      returns (t: Machine)
    requires ValidDisk(g, d) && LogProtocol.Run(g, d, es, t0) && t0.active.Keys == {op}
    requires Matches(g, s, lh, 1, stuck, t0) && Quiet(g, s.disk) && ValidHeader(g, |s.disk|, lh)
    ensures LogProtocol.Run(g, d, es + Ending(t0, op), t) && t.spared == t0.spared && !t.booting && !t.committing
    ensures t.disk == t.view == Apply(s.disk, if lh == [] then [] else CommitWrites(g, s.disk, lh, s.logical))
    ensures t.lh == [] && t.active == map[] && t.installed == stuck
    ensures t.pending == [] && t.acked == t0.acked + t0.current
  {
    hide Apply, LogProtocol.Run, Quiet, ValidHeader, CommitWrites, SameHome;
    var e := Event.End(op);
    LogProtocol.RunNext(g, d, es, t0, e);
    LastOut(t0.active, op);
    var t1 := LogProtocol.Next(g, t0, e);
    QuietValid(g, s.disk);
    SameCommit(g, s.disk, lh, t0.view, s.logical);
    var n := |t1.plan|;
    assert n == if lh == [] then 0 else 2 * |lh| + 2;
    assert WithinDisk(t1.plan, |t1.disk|);
    WritesRun(g, d, es + [e], t1, n);
    assert t1.plan[..n] == t1.plan;
    LogProtocol.RunNext(g, d, es + [e] + DiskWrites(n), Later(t1, n), Event.CommitDone);
    t := LogProtocol.Next(g, Later(t1, n), Event.CommitDone);
    assert es + [e] + DiskWrites(n) + [Event.CommitDone] == es + Ending(t0, op);
  }

  lemma QuietValid(g: Region, d: Disk)
    requires Quiet(g, d)
    ensures ValidDisk(g, d)
  {
  }

  lemma LastOut(active: map<nat, nat>, op: nat)
    requires active.Keys == {op}
    ensures active - {op} == map[] && |active| == 1
  {
    assert |active.Keys| == 1;
  }

  /** What is committed depends on the home blocks alone. */
  lemma SameCommit(g: Region, d: Disk, lh: seq<int>, v: Disk, w: Disk)
    requires ValidDisk(g, d) && ValidHeader(g, |d|, lh) && |v| == |d| && SameHome(g, v, w)
    ensures CommitWrites(g, d, lh, v) == CommitWrites(g, d, lh, w)
  {
    hide SetHead, Head;
    assert LogWrites(g, lh, v) == LogWrites(g, lh, w);
    assert HomeWrites(lh, v) == HomeWrites(lh, w);
  }

  // ---- log and machine

  lemma BootMatches(g: Region, s: State, disk: Disk, t: Machine, stamp: seq<int>, m: Marks, seen: set<int>)
    requires ValidDisk(g, disk) && t.disk == t.view == s.disk == s.logical && t.lh == [] && t.active == map[]
    requires !t.booting && !t.committing && t.installed == m.stuck && m.dirty == {}
    requires LogCache.Booted(g, s, stamp, m.stuck, seen)
    ensures Matches(g, s, [], 0, m.stuck, t) && NobodyHas(s, m)
  {
  }

  lemma BeginMatches(g: Region, s: State, lh: seq<int>, outstanding: nat, stuck: set<int>, t: Machine)
    requires Matches(g, s, lh, outstanding, stuck, t) && LogProtocol.Enabled(g, t, Event.Begin)
    requires LogProtocol.RoomInv(g, t)
    ensures Matches(g, s, lh, outstanding + 1, stuck, LogProtocol.Next(g, t, Event.Begin))
    ensures LogProtocol.Next(g, t, Event.Begin).spared == t.spared
  {
    var u := LogProtocol.Next(g, t, Event.Begin);
    assert u.active.Keys == t.active.Keys + {t.nextOp};
    assert |u.active| == |u.active.Keys| && |t.active| == |t.active.Keys|;
  }

  lemma SomeActive(active: map<nat, nat>, op: nat)
    requires op in active
    ensures |active| >= 1
  {
    assert op in active.Keys;
    assert |active.Keys - {op}| == |active.Keys| - 1;
  }

  lemma OneLess(active: map<nat, nat>, op: nat)
    requires op in active
    ensures |active - {op}| == |active| - 1 && (active - {op} == map[] <==> |active| == 1)
    ensures |active| == 1 ==> active.Keys == {op}
  {
    var less := active - {op};
    assert less.Keys == active.Keys - {op};
    assert |less| == |less.Keys| && |active| == |active.Keys|;
    if |active| == 1 {
      assert less.Keys == {};
      assert active.Keys == {op};
    }
  }

  /** With nobody in the cache, any block but the installed ones can be had. */
  lemma CallReady(g: Region, s: State, m: Marks, lh: seq<int>, b: int)
    requires Held(s, m) && Consistent(g, s, m, lh) && NobodyHas(s, m) && Home(g, |s.disk|, b) && b !in m.stuck
    ensures Fetchable(s, m, b) && Roomy(s, b) && b !in m.dirty
  {
    hide Cached, Gripped, Accounted, Wrap, Quiet, ValidHeader;
  }

  lemma AllReady(g: Region, s: State, m: Marks, lh: seq<int>)
    requires Held(s, m) && Consistent(g, s, m, lh) && NobodyHas(s, m)
    ensures Ours(g, s, lh)
  {
    hide Cached, Gripped, Accounted, Wrap, Quiet, ValidHeader;
  }

  lemma LogReady(g: Region, s: State, m: Marks, lh: seq<int>)
    requires Consistent(g, s, m, lh)
    ensures Quiet(g, s.disk) && ValidHeader(g, |s.disk|, lh)
  {
  }

  lemma WriteMatches(g: Region, s: State, s': State, lh: seq<int>, lh': seq<int>, outstanding: nat, stuck: set<int>,
          t: Machine, op: nat, b: int, data: Block)
    requires Matches(g, s, lh, outstanding, stuck, t) && lh' == AddBlock(lh, b) && Home(g, |s.disk|, b)
    requires s'.disk == s.disk && s'.logical == s.logical[b := data]
    requires t.spared && LogProtocol.Enabled(g, t, Event.LogWrite(op, b, data, b)) && b !in t.installed
    ensures
      var t' := LogProtocol.Next(g, t, Event.LogWrite(op, b, data, b));
      Matches(g, s', lh', outstanding, stuck, t') && t'.spared
  {
    hide AddBlock;
    var t' := LogProtocol.Next(g, t, Event.LogWrite(op, b, data, b));
    assert t'.active.Keys == t.active.Keys;
    assert |t'.active| == |t'.active.Keys| && |t.active| == |t.active.Keys|;
  }

  lemma EndMatches(g: Region, s: State, lh: seq<int>, outstanding: nat, stuck: set<int>, t: Machine, op: nat)
    requires Matches(g, s, lh, outstanding, stuck, t) && op in t.active && outstanding > 1
    ensures
      var e := Event.End(op);
      && LogProtocol.Enabled(g, t, e) && LogProtocol.Next(g, t, e) == t.(active := t.active - {op})
      && Matches(g, s, lh, outstanding - 1, stuck, LogProtocol.Next(g, t, e))
  {
    hide LogProtocol.CommitPlan;
    OneLess(t.active, op);
  }

  lemma CommitMatches(g: Region, s: State, s': State, lh: seq<int>, stuck: set<int>, t0: Machine, op: nat, t: Machine)
    requires Matches(g, s, lh, 1, stuck, t0) && Quiet(g, s.disk) && ValidHeader(g, |s.disk|, lh)
    requires t.disk == t.view == s'.disk
    requires t.disk == Apply(s.disk, if lh == [] then [] else CommitWrites(g, s.disk, lh, s.logical))
    requires SameHome(g, s'.disk, s.logical) && SameHome(g, s'.logical, s.logical) && |s'.logical| == |s'.disk|
    requires !t.booting && !t.committing && t.lh == [] && t.active == map[] && t.installed == stuck
    ensures Matches(g, s', [], 0, stuck, t)
  {
    hide Apply, CommitWrites, Quiet, ValidHeader;
  }
}
