/**
 What the missing pin of recovery does: an update of a block that recovery installed is lost,
 with no crash and every process following the rules. The calls are those of kernel/bio.c and
 kernel/log.c, each one a step of the ClientRuns machine.
 */
module LostUpdate {
  import opened BlockDisk
  import opened RedoLog
  import opened BufferRing
  import opened Bio
  import opened LogCache
  import opened LogDevice
  import opened ClientRuns

  /** Processes calling a log and its cache; `world` is what the machine says of them. */
  class Clients {
    const log: LogDevice.Log
    ghost const start: World
    ghost var world: World
    ghost var trace: seq<Step>

    ghost predicate Follows()
      reads this, log, log.cache
    {
      && log.cache.Shaped() && log.outstanding >= 1
      && world.s == log.cache.Now() && world.stamp == log.cache.stamp && world.clock == log.cache.clock
      && world.lh == log.lh && Run(log.g, start, trace, world)
    }

    /** Boot from a disk whose header names some blocks, and begin an operation. */
    constructor (g: Region, disk: Disk)
      requires ValidDisk(g, disk) && |Head(disk[g.start])| < NBUF && SUPERBLOCK < |disk|
      ensures Follows() && fresh(log) && fresh(log.cache) && log.g == g && trace == [] && world == start
      ensures AfterBoot(g, start, Head(disk[g.start]), {SUPERBLOCK})
      ensures SameHome(g, start.s.disk, Recovered(g, disk))
    {
      hide Held, Ring, Aged, Booted, Sound, Shortened, Consistent, Recovered, RecoverWrites, ValidHeader, Head,
           SameHome, Elems;
      var l := new LogDevice.Log(g, disk);
      l.Readsb();
      var ok := l.RecoverFromLog();
      ok := l.TryBeginOp();
      assert ok;
      NoElems();
      ghost var w := World(l.cache.Now(), l.cache.stamp, l.cache.clock, [], map[], l.cache.logical);
      assert {} + {SUPERBLOCK} == {SUPERBLOCK};
      log, start, world, trace := l, w, w, [];
    }

    method Get(p: nat, b: int) returns (i: int)
      requires Follows() && p < NPROC && p !in world.holds && Home(log.g, |log.cache.disk|, b)
      requires !(Missing(log.cache.bufs, b) && AllHeld(log.cache.bufs))
      modifies this`world, this`trace, log.cache`bufs, log.cache`refs
      ensures Follows() && 0 <= i < NBUF && Can(log.g, old(world), Step.Get(p, b, i))
      ensures trace == old(trace) + [Step.Get(p, b, i)] && world == Next(log.g, old(world), Step.Get(p, b, i))
    {
      hide Ring, Aged, Missing, AllHeld, Oldest, Sound, Countable, Run, Hit, Recycle;
      i := log.cache.Bget(b);
      GotSteps(world, log.cache.Now(), i, b);
      RunMore(log.g, start, trace, world, Step.Get(p, b, i));
      trace, world := trace + [Step.Get(p, b, i)], Next(log.g, world, Step.Get(p, b, i));
    }

    method Enter(p: nat, i: int)
      requires Follows() && 0 <= i < NBUF && At(world, p, Waiting) && world.holds[p].i == i
      requires log.cache.refs.users[i] > 0 && !log.cache.bufs[i].locked
      modifies this`world, this`trace, log.cache`bufs
      ensures Follows() && trace == old(trace) + [Step.Enter(p)]
      ensures Can(log.g, old(world), Step.Enter(p)) && world == Next(log.g, old(world), Step.Enter(p))
    {
      hide Ring, Aged, Sound, Run;
      log.cache.Acquire(i);
      log.cache.Load(i);
      RunMore(log.g, start, trace, world, Step.Enter(p));
      trace, world := trace + [Step.Enter(p)], Next(log.g, world, Step.Enter(p));
    }

    method Put(p: nat, i: int, data: Block)
      requires Follows() && 0 <= i < NBUF && IsInside(world, p) && world.holds[p].i == i && log.cache.bufs[i].locked
      modifies this`world, this`trace, log.cache`bufs, log.cache`logical
      ensures Follows() && trace == old(trace) + [Step.Put(p, data)]
      ensures Can(log.g, old(world), Step.Put(p, data)) && world == Next(log.g, old(world), Step.Put(p, data))
    {
      hide Ring, Aged, Sound, Run;
      log.cache.Modify(i, data);
      RunMore(log.g, start, trace, world, Step.Put(p, data));
      trace, world := trace + [Step.Put(p, data)], Next(log.g, world, Step.Put(p, data));
    }

    method LogWrite(p: nat, i: int)
      requires Follows() && 0 <= i < NBUF && IsInside(world, p) && world.holds[p].i == i && log.cache.bufs[i].locked
      requires |log.lh| < Capacity(log.g)
      modifies this`world, this`trace, log.cache`bufs, log.cache`refs, log`lh, log`marks
      ensures Follows() && trace == old(trace) + [Step.Log(p)]
      ensures Can(log.g, old(world), Step.Log(p)) && world == Next(log.g, old(world), Step.Log(p))
    {
      hide Ring, Aged, Held, Consistent, Loggable, Run;
      var ok := log.LogWrite(i);
      RunMore(log.g, start, trace, world, Step.Log(p));
      trace, world := trace + [Step.Log(p)], Next(log.g, world, Step.Log(p));
    }

    method Leave(p: nat, i: int)
      requires Follows() && 0 <= i < NBUF && At(world, p, Inside(false)) && world.holds[p].i == i
      requires log.cache.bufs[i].locked
      modifies this`world, this`trace, log.cache`bufs
      ensures Follows() && trace == old(trace) + [Step.Leave(p)]
      ensures Can(log.g, old(world), Step.Leave(p)) && world == Next(log.g, old(world), Step.Leave(p))
    {
      hide Ring, Aged, Sound, Run;
      log.cache.Release(i);
      RunMore(log.g, start, trace, world, Step.Leave(p));
      trace, world := trace + [Step.Leave(p)], Next(log.g, world, Step.Leave(p));
    }

    method Forget(p: nat, i: int)
      requires Follows() && 0 <= i < NBUF && At(world, p, Leaving) && world.holds[p].i == i
      requires log.cache.refs.users[i] > if log.cache.bufs[i].locked then 1 else 0
      modifies this`world, this`trace, log.cache
      ensures Follows() && trace == old(trace) + [Step.Forget(p)]
      ensures Can(log.g, old(world), Step.Forget(p)) && world == Next(log.g, old(world), Step.Forget(p))
    {
      hide Ring, Aged, Sound, Clean, Run;
      log.cache.Unref(i);
      RunMore(log.g, start, trace, world, Step.Forget(p));
      trace, world := trace + [Step.Forget(p)], Next(log.g, world, Step.Forget(p));
    }
  }

  lemma GotSteps(w: World, t: State, i: int, b: int)
    requires Got(w.s, t, i, b) && (Names(w.s.bufs[i], ROOTDEV, b) || Oldest(w.s.bufs, w.stamp, i))
    ensures Takes(w, i, b)
  {
  }

  // ---- the run

  /** Process 0 stores, logs and releases; then process 1 reads its block and releases it. */
  function GoingOn(data: Block): seq<Step> {
    [Step.Put(0, data), Step.Log(0), Step.Leave(0), Step.Forget(0), Step.Enter(1), Step.Leave(1), Step.Forget(1)]
  }

  /** All of it: process 0 updates x by the rules while process 1 reads y, and process 2 reads x afterwards. */
  function LosingRun(x: int, y: int, a: int, d: int, data: Block): seq<Step> {
    TheftSteps(x, y, a) + GoingOn(data) + [Step.Get(2, x, d), Step.Enter(2)]
  }

  /** Processes 0 and 1 have buffer a, one inside for x, one waiting for y; it is for y and not filled. */
  ghost predicate BothHave(w: World, x: int, y: int, a: int) {
    && OnDisk(w.s, a) && |w.stamp| == |w.s.bufs| && |w.latest| == |w.s.disk| && 0 <= x < |w.latest|
    && w.holds == map[0 := Hold(x, a, Inside(false)), 1 := Hold(y, a, Waiting)] && w.lh == []
    && var buf := w.s.bufs[a];
    && buf.locked && !buf.valid && Names(buf, ROOTDEV, y) && buf.refcnt == 1 && w.s.refs.users[a] == 2
  }

  /** Afterwards the buffer holds y as on the disk, with count 0, and what was stored for x is in no buffer. */
  ghost predicate BothDone(w: World, w': World, x: int, y: int, a: int, data: Block) {
    && BothHave(w, x, y, a) && w'.holds == map[] && w'.lh == [y] && w'.latest == w.latest[x := data]
    && w'.s.Sized() && w'.s.disk == w.s.disk && |w'.s.bufs| == |w.s.bufs| && w'.s.bufs == w.s.bufs[a := w'.s.bufs[a]]
    && var buf := w'.s.bufs[a];
    !buf.locked && buf.valid && Names(buf, ROOTDEV, y) && buf.refcnt == 0 && buf.data == w.s.disk[y]
  }

  method BothGoOn(c: Clients, x: int, y: int, a: int, data: Block)
    requires c.Follows() && 0 <= a < NBUF && BothHave(c.world, x, y, a) && c.log.g.size > 1
    modifies c`world, c`trace, c.log.cache, c.log`lh, c.log`marks
    ensures c.Follows() && c.trace == old(c.trace) + GoingOn(data)
    ensures BothDone(old(c.world), c.world, x, y, a, data)
  {
    hide Ring, Aged, Run;
    c.Put(0, a, data);
    c.LogWrite(0, a);
    c.Leave(0, a);
    c.Forget(0, a);
    c.Enter(1, a);
    c.Leave(1, a);
    c.Forget(1, a);
    assert c.trace == old(c.trace) + GoingOn(data);
  }

  /** bread of x by process 0, then bget of y by process 1: they get the same buffer. */
  method Steal(c: Clients, ghost hd: seq<int>, x: int, y: int) returns (a: int)
    requires c.Follows() && AfterBoot(c.log.g, c.world, hd, {SUPERBLOCK})
    requires x in hd && x != SUPERBLOCK && y !in hd && y != SUPERBLOCK && Home(c.log.g, |c.log.cache.disk|, y)
    modifies c`world, c`trace, c.log.cache`bufs, c.log.cache`refs
    ensures c.Follows() && c.trace == old(c.trace) + TheftSteps(x, y, a) && 0 <= a < NBUF
    ensures BothHave(c.world, x, y, a) && Caches(old(c.world.s.bufs), a, x)
    ensures forall i :: 0 <= i < NBUF && Names(old(c.world.s.bufs)[i], ROOTDEV, x) ==> i == a
    ensures c.world.s.disk == old(c.world.s.disk) && c.world.latest == old(c.world.latest)
    ensures |c.world.s.bufs| == NBUF && c.world.s.bufs == old(c.world.s.bufs)[a := c.world.s.bufs[a]]
  {
    hide Ring, Aged, Run, AfterBoot, Missing, AllHeld, Oldest;
    ghost var w := c.world;
    BootShape(c.log.g, w, hd, {SUPERBLOCK});
    ghost var i := InstalledSlot(c.log.g, w, hd, {SUPERBLOCK}, x);
    NotMissing(w.s.bufs, x, i);
    a := c.Get(0, x);
    TakenIsNamed(w, a, x);
    c.Enter(0, a);
    NextVictim(c.log.g, w, hd, {SUPERBLOCK}, x, a, a);
    NotCached(c.log.g, w, hd, {SUPERBLOCK}, y);
    MissingStays(w.s.bufs, c.world.s.bufs, a, y);
    ghost var w2 := c.world;
    var b := c.Get(1, y);
    TakenIsOldest(w2, b, y);
    NextVictim(c.log.g, w, hd, {SUPERBLOCK}, x, a, b);
  }

  lemma BootShape(g: Region, w: World, hd: seq<int>, seen: set<int>)
    requires AfterBoot(g, w, hd, seen)
    ensures w.s.Sized() && w.holds == map[] && w.lh == [] && w.latest == w.s.disk == w.s.logical
    ensures |w.stamp| == |w.s.bufs| && forall i :: 0 <= i < |w.s.bufs| ==> w.s.refs.users[i] == 0
    ensures forall i :: 0 <= i < |w.s.bufs| ==> !w.s.bufs[i].locked
  {
    hide Consistent, Shortened, Held;
    forall i | 0 <= i < |w.s.bufs| ensures !w.s.bufs[i].locked {
      AtRest(w.s, Marks({}, Elems(hd), {}), i);
    }
  }

  lemma NotMissing(bufs: seq<Buf>, x: int, i: int)
    requires Caches(bufs, i, x)
    ensures !Missing(bufs, x)
  {
    assert Names(bufs[i], ROOTDEV, x);
  }

  lemma TakenIsNamed(w: World, i: int, b: int)
    requires Takes(w, i, b) && !Missing(w.s.bufs, b)
    ensures Names(w.s.bufs[i], ROOTDEV, b)
  {
  }

  lemma TakenIsOldest(w: World, i: int, b: int)
    requires Takes(w, i, b) && Missing(w.s.bufs, b)
    ensures Oldest(w.s.bufs, w.stamp, i) && !Names(w.s.bufs[i], ROOTDEV, b)
  {
  }

  /** bread of a block that is not cached gives what the disk holds. */
  method ReadAnew(c: Clients, x: int) returns (d: int, got: Block)
    requires c.Follows() && c.world.holds == map[] && Home(c.log.g, |c.log.cache.disk|, x)
    requires Missing(c.log.cache.bufs, x) && !AllHeld(c.log.cache.bufs)
    requires forall i :: 0 <= i < NBUF ==> !c.log.cache.bufs[i].locked
    modifies c`world, c`trace, c.log.cache`bufs, c.log.cache`refs
    ensures c.Follows() && c.trace == old(c.trace) + [Step.Get(2, x, d), Step.Enter(2)] && 0 <= d < NBUF
    ensures c.world.lh == old(c.world.lh) && c.world.latest == old(c.world.latest)
    ensures c.world.s.disk == old(c.world.s.disk)
    ensures c.world.holds == map[2 := Hold(x, d, Inside(false))]
    ensures |c.world.s.bufs| == NBUF && c.world.s.bufs == old(c.world.s.bufs)[d := c.world.s.bufs[d]]
    ensures got == c.world.s.bufs[d].data == c.world.s.disk[x] && Caches(c.world.s.bufs, d, x)
  {
    hide Ring, Aged, Run, Missing, AllHeld, Oldest;
    ghost var w := c.world;
    d := c.Get(2, x);
    TakenIsOldest(w, d, x);
    c.Enter(2, d);
    got := c.log.cache.bufs[d].data;
  }

  /** Every buffer that holds a block holds what the disk holds. */
  ghost predicate AllFromDisk(s: State) {
    forall i :: 0 <= i < |s.bufs| && s.bufs[i].valid ==>
      0 <= s.bufs[i].blockno < |s.disk| && s.bufs[i].data == s.disk[s.bufs[i].blockno]
  }

  /**
   For every disk whose header names some block x, every other block y and all contents: in
   the run LosingRun process 0 reads x, stores `data` into the buffer it was given, logs and
   releases it, and by the processes' account x holds `data`. But process 2 reads what
   recovery had left there, the list names y alone, and no buffer holds anything but what
   is on the disk, where x is as recovery left it.
   */
  method Lose(g: Region, disk: Disk, x: int, y: int, data: Block)
      returns (c: Clients, got: Block, a: int, d: int)
    requires ValidDisk(g, disk) && |Head(disk[g.start])| < NBUF && SUPERBLOCK < |disk|
    requires x in Head(disk[g.start]) && x != SUPERBLOCK
    requires y !in Head(disk[g.start]) && y != SUPERBLOCK && Home(g, |disk|, y)
    ensures fresh(c) && c.Follows() && c.log.g == g && AfterBoot(g, c.start, Head(disk[g.start]), {SUPERBLOCK})
    ensures SameHome(g, c.start.s.disk, Recovered(g, disk)) && c.world.s.disk == c.start.s.disk
    ensures 0 <= x < |disk| == |c.start.latest| && c.world.latest == c.start.latest[x := data]
    ensures c.trace == LosingRun(x, y, a, d, data)
    ensures Caches(c.start.s.bufs, a, x) && c.start.s.bufs[a].data == Recovered(g, disk)[x]
    ensures Caches(c.world.s.bufs, d, x) && got == c.world.s.bufs[d].data == c.world.s.disk[x] == Recovered(g, disk)[x]
    ensures c.world.lh == [y] && AllFromDisk(c.world.s)
  {
    hide Ring, Aged, Run, AfterBoot, Missing, AllHeld, Recovered, RecoverWrites, AllFromDisk, BothHave, BothDone, Can,
         Next, TheftSteps, GoingOn, ValidHeader, Head;
    ghost var hd := Head(disk[g.start]);
    c := new Clients(g, disk);
    ghost var w0 := c.world;
    HomeOf(g, disk, x);
    BootFromDisk(g, w0, hd, {SUPERBLOCK});
    a := Steal(c, hd, x, y);
    FromDisk(w0.s, a, x);
    ghost var w1 := c.world;
    BothGoOn(c, x, y, a, data);
    ghost var w2 := c.world;
    NowMissing(w0, w1, w2, x, y, a, data);
    d, got := ReadAnew(c, x);
    StillFromDisk(w2.s, c.world.s, d, x);
  }

  lemma FromDisk(s: State, i: int, x: int)
    requires AllFromDisk(s) && Caches(s.bufs, i, x)
    ensures 0 <= x < |s.disk| && s.bufs[i].data == s.disk[x]
  {
  }

  lemma HomeOf(g: Region, disk: Disk, x: int)
    requires ValidDisk(g, disk) && x in Head(disk[g.start])
    ensures Home(g, |disk|, x) && g.size > 1
  {
  }

  lemma BootFromDisk(g: Region, w: World, hd: seq<int>, seen: set<int>)
    requires AfterBoot(g, w, hd, seen)
    ensures AllFromDisk(w.s) && w.s.Sized() && w.latest == w.s.disk
    ensures forall i :: 0 <= i < |w.s.bufs| ==> !w.s.bufs[i].locked
  {
    hide Consistent, Shortened, Cached, Gripped, Wrap;
    BootShape(g, w, hd, seen);
  }

  lemma NowMissing(w0: World, w1: World, w2: World, x: int, y: int, a: int, data: Block)
    requires AllFromDisk(w0.s) && forall i :: 0 <= i < |w0.s.bufs| ==> !w0.s.bufs[i].locked
    requires 0 <= a < |w0.s.bufs| == |w1.s.bufs| && w1.s.bufs == w0.s.bufs[a := w1.s.bufs[a]] && w1.s.disk == w0.s.disk
    requires BothDone(w1, w2, x, y, a, data) && x != y
    requires forall i :: 0 <= i < |w0.s.bufs| && Names(w0.s.bufs[i], ROOTDEV, x) ==> i == a
    ensures Missing(w2.s.bufs, x) && !AllHeld(w2.s.bufs) && AllFromDisk(w2.s)
    ensures w2.holds == map[] && w2.lh == [y] && 0 <= x < |w1.latest| && w2.latest == w1.latest[x := data]
    ensures w2.s.disk == w1.s.disk
    ensures forall i :: 0 <= i < |w2.s.bufs| ==> !w2.s.bufs[i].locked
  {
    assert w2.s.bufs[a].refcnt == 0;
  }

  lemma StillFromDisk(s: State, t: State, d: int, x: int)
    requires AllFromDisk(s) && |t.bufs| == |s.bufs| && 0 <= d < |s.bufs| && t.bufs == s.bufs[d := t.bufs[d]]
    requires t.disk == s.disk && 0 <= x < |t.disk| && Caches(t.bufs, d, x) && t.bufs[d].data == t.disk[x]
    ensures AllFromDisk(t)
  {
  }
}
