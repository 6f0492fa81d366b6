/**
 kernel/log.c as code, on top of the buffer cache: every block it touches goes through bread,
 bwrite, bpin, bunpin and brelse. `view` is the latest contents of every block, which is what
 bread returns, `disk` what a crash would leave, `writes` every block write issued so far,
 oldest first. A call waits for no lock: others have not locked what it needs.
 */
module LogDevice {
  import opened BlockDisk
  import opened RedoLog
  import opened BufferRing
  import opened Bio
  import opened LogCache

  function AddBlock(lh: seq<int>, b: int): (r: seq<int>)
    ensures Distinct(lh) ==> Distinct(r)
    ensures forall x :: x in r <==> x in lh || x == b
  {
    if b in lh then lh else lh + [b]
  }

  /** begin_op may proceed: every running operation still fits, one more included. */
  predicate RoomToBegin(logged: nat, outstanding: nat) {
    logged + (outstanding + 1) * MAXOPBLOCKS <= LOGSIZE
  }

  /** The blocks of disk and cache and the record of writes, before or after some writes. */
  datatype Blocks = Blocks(disk: Disk, view: Disk, writes: seq<Write>) {
    ghost predicate Fits(ws: seq<Write>) {
      |view| == |disk| && WithinDisk(ws, |disk|)
    }

    ghost function After(ws: seq<Write>): (r: Blocks)
      requires Fits(ws)
    {
      Blocks(Apply(disk, ws), Apply(view, ws), writes + ws)
    }

    lemma AfterNone(ws: seq<Write>)
      requires Fits(ws)
      ensures After(ws[..0]) == this
    {
      assert ws[..0] == [];
      assert writes + [] == writes;
    }

    lemma AfterNext(ws: seq<Write>, k: nat)
      requires Fits(ws) && k < |ws|
      ensures After(ws[..k + 1]) == After(ws[..k]).After([ws[k]])
    {
      assert ws[..k + 1] == ws[..k] + [ws[k]];
      ApplyConcat(disk, ws[..k], [ws[k]]);
      ApplyConcat(view, ws[..k], [ws[k]]);
    }

    lemma AfterBoth(ws: seq<Write>, vs: seq<Write>)
      requires Fits(ws) && Fits(vs)
      ensures Fits(ws + vs) && After(ws + vs) == After(ws).After(vs)
    {
      hide Apply;
      ApplyConcat(disk, ws, vs);
      ApplyConcat(view, ws, vs);
    }
  }

  /** Between operations on the log: clean outside the transaction, no header on disk. */
  ghost predicate Settled(g: Region, disk: Disk, view: Disk, lh: seq<int>) {
    && Quiet(g, disk)
    && ValidHeader(g, |disk|, lh)
    && DirtyOnly(g, disk, lh, view)
    && forall b :: InLog(g, b) ==> view[b] == disk[b]
  }

  /** write_log has not touched the block it is about to copy. */
  lemma {:induction false} HomeBlockKept(g: Region, lh: seq<int>, view: Disk, tail: nat)
    requires g.start + g.size <= |view| && NamesHome(g, |view|, lh) && tail < |lh|
    ensures WithinDisk(LogWrites(g, lh, view), |view|)
    ensures Apply(view, LogWrites(g, lh, view)[..tail])[lh[tail]] == view[lh[tail]]
  {
    Untouched(view, LogWrites(g, lh, view)[..tail], lh[tail]);
  }

  /** install_trans has not touched the log block it is about to copy. */
  lemma {:induction false} LogBlockKept(g: Region, lh: seq<int>, view: Disk, tail: nat)
    requires g.start + g.size <= |view| && NamesHome(g, |view|, lh) && tail < |lh|
    ensures WithinDisk(InstallWrites(g, lh, view), |view|)
    ensures Apply(view, InstallWrites(g, lh, view)[..tail])[g.start + tail + 1] == view[g.start + tail + 1]
  {
    Untouched(view, InstallWrites(g, lh, view)[..tail], g.start + tail + 1);
  }

  const SUPERBLOCK: int := 1

  function NoMarks(): Marks { Marks({}, {}, {}) }

  /** The blocks recovery left a reference short are outside the log, and nobody has one. */
  ghost predicate Aside(g: Region, s: State, m: Marks) {
    Unstuck(s, m) && forall b :: b in m.stuck ==> Home(g, |s.disk|, b)
  }

  /**
   Between calls: every block of the list has its one pin, the log area is at rest, and the
   blocks recovery installed are left alone.
   */
  ghost predicate Consistent(g: Region, s: State, m: Marks, lh: seq<int>) {
    && Aside(g, s, m) && m.pinned == Elems(lh)
    && Quiet(g, s.disk) && ValidHeader(g, |s.disk|, lh) && LogIdle(g, s)
    && forall b :: b in m.dirty ==> Home(g, |s.disk|, b)
  }

  class Log {
    const g: Region
    const cache: BufferCache
    /** log.lh.block[..log.lh.n] */
    var lh: seq<int>
    var outstanding: nat
    var committing: bool
    ghost var marks: Marks
    /** blocks read before recovery */
    ghost var seen: set<int>
    ghost var writes: seq<Write>

    ghost function Now(): Blocks
      reads this, cache
    {
      Blocks(cache.disk, cache.logical, writes)
    }

    ghost predicate Live()
      reads this, cache
    {
      cache.Shaped() && Held(cache.Now(), marks)
    }

    ghost predicate Valid()
      reads this, cache
    {
      Live() && Consistent(g, cache.Now(), marks, lh)
    }

    /** A commit is under way, or about to be. */
    ghost predicate Committing()
      reads this, cache
    {
      && Live() && Ours(g, cache.Now(), lh) && Aside(g, cache.Now(), marks)
      && marks == Marks(Elems(lh), marks.stuck, {})
      && 1 <= g.size && g.start + g.size <= |cache.disk| && ValidHeader(g, |cache.disk|, lh)
    }

    /** initlog before recovery, on a cache just after binit */
    constructor (g: Region, disk: Disk)
      ensures Live() && fresh(cache) && this.g == g && Now() == Blocks(disk, disk, [])
      ensures lh == [] && outstanding == 0 && !committing && marks == NoMarks()
      ensures seen == {} && Booted(g, cache.Now(), cache.stamp, {}, {})
    {
      hide Ring, Aged;
      this.g := g;
      cache := new BufferCache(disk);
      lh, outstanding, committing, writes := [], 0, false, [];
      marks, seen := NoMarks(), {};
      new;
      assert Tracked(cache.Now());
    }

    // ---- the cache as the log uses it

    /** bget by any process at any time; the caller then waits for the buffer's lock. */
    method Get(b: int) returns (i: int)
      requires Live() && Gettable(cache.Now(), marks, b)
      modifies cache`bufs, cache`refs
      ensures Live() && 0 <= i <= NBUF
      ensures i == NBUF ==> cache.Now() == old(cache.Now()) && Missing(cache.bufs, b) && AllHeld(cache.bufs)
      ensures i < NBUF ==> Got(old(cache.Now()), cache.Now(), i, b) && Names(cache.bufs[i], ROOTDEV, b)
      ensures i < NBUF ==> cache.refs.users[i] > 0
      ensures i < NBUF && !Names(old(cache.bufs)[i], ROOTDEV, b) ==> Oldest(old(cache.bufs), cache.stamp, i)
      ensures old(Valid()) && Home(g, |cache.disk|, b) ==> Valid()
    {
      hide Held, Gettable, Got, Missing, AllHeld, Oldest, Ring, Aged, Consistent, Sound, Countable;
      ghost var s := cache.Now();
      i := cache.Bget(b);
      if i < NBUF {
        HeldGet(s, cache.Now(), i, b, marks);
        GettableNotStuck(s, marks, b);
        if Consistent(g, s, marks, lh) && Home(g, |s.disk|, b) {
          ConsistentGet(g, s, cache.Now(), i, b, marks, lh);
        }
      }
    }

    /** The rest of bread, with the lock: the buffer holds the block's latest contents. */
    method Enter(i: int)
      requires Live() && 0 <= i < NBUF && cache.refs.users[i] > 0 && !cache.bufs[i].locked
      modifies cache`bufs
      ensures Live() && OnDisk(old(cache.Now()), i) && cache.Now() == Fill(Lock(old(cache.Now()), i), i)
      ensures cache.bufs[i].data == cache.logical[cache.bufs[i].blockno]
      ensures old(Valid()) ==> Valid()
    {
      hide Held, Ring, Aged, Sound, Quiet, ValidHeader;
      HeldUser(cache.Now(), i, marks);
      HeldLock(cache.Now(), i, marks);
      HeldFill(Lock(cache.Now(), i), i, marks);
      cache.Acquire(i);
      cache.Load(i);
    }

    /** bread of a block whose lock is free; NBUF stands for its panic. */
    method Bread(b: int) returns (i: int)
      requires Live() && Fetchable(cache.Now(), marks, b)
      modifies cache`bufs, cache`refs
      ensures Live() && 0 <= i <= NBUF && b !in marks.stuck
      ensures i == NBUF ==> cache.Now() == old(cache.Now()) && Missing(cache.bufs, b) && AllHeld(cache.bufs)
      ensures i < NBUF ==> Fetch(old(cache.Now()), cache.Now(), i, b)
      ensures i < NBUF && !Names(old(cache.bufs)[i], ROOTDEV, b) ==> Oldest(old(cache.bufs), cache.stamp, i)
      ensures old(Valid()) && Home(g, |cache.disk|, b) ==> Valid()
    {
      FetchableNotStuck(cache.Now(), marks, b);
      hide Held, Fetchable, Gettable, Fetch, Got, Missing, AllHeld, Oldest, Ring, Aged, Consistent;
      ghost var s := cache.Now();
      i := Get(b);
      if i < NBUF {
        FetchHeld(s, cache.Now(), i, b, marks);
        GotUnlocked(s, cache.Now(), i, b, marks);
        Enter(i);
      }
    }

    /** A store into a buffer one has locked. */
    method Modify(i: int, data: Block)
      requires Live() && 0 <= i < NBUF && cache.bufs[i].locked && cache.bufs[i].valid
      requires cache.bufs[i].blockno !in marks.stuck
      modifies cache`bufs, cache`logical, this`marks
      ensures Live() && OnDisk(old(cache.Now()), i) && cache.Now() == Store(old(cache.Now()), i, data)
      ensures marks == old(marks).(dirty := old(marks).dirty + {cache.bufs[i].blockno})
      ensures old(Valid()) && Home(g, |cache.disk|, cache.bufs[i].blockno) ==> Valid()
    {
      hide Held, Ring, Aged, ValidHeader, Quiet;
      HeldStore(cache.Now(), i, data, marks);
      cache.Modify(i, data);
      marks := marks.(dirty := marks.dirty + {cache.bufs[i].blockno});
    }

    method Bwrite(i: int)
      requires Live() && 0 <= i < NBUF && cache.bufs[i].locked && cache.bufs[i].valid
      modifies cache`disk, this`marks, this`writes
      ensures Live() && OnDisk(old(cache.Now()), i) && cache.Now() == Flush(old(cache.Now()), i)
      ensures marks == old(marks).(dirty := old(marks).dirty - {cache.bufs[i].blockno})
      ensures writes == old(writes) + [Write(cache.bufs[i].blockno, cache.bufs[i].data)]
    {
      hide Held, Ring, Aged;
      HeldFlush(cache.Now(), i, marks);
      cache.Bwrite(i);
      marks := marks.(dirty := marks.dirty - {cache.bufs[i].blockno});
      writes := writes + [Write(cache.bufs[i].blockno, cache.bufs[i].data)];
    }

    /** brelse up to releasesleep, by a holder whose changes, if any, are logged or written */
    method Leave(i: int)
      requires Live() && 0 <= i < NBUF && cache.bufs[i].locked && cache.bufs[i].blockno !in marks.dirty
      modifies cache`bufs
      ensures Live() && cache.refs.users[i] > 0 && cache.Now() == Unlock(old(cache.Now()), i)
      ensures old(Valid()) ==> Valid()
    {
      hide Held, Ring, Aged, Sound, ValidHeader, Quiet;
      ReleaseHeld(cache.Now(), i, marks);
      cache.Release(i);
    }

    /**
     The rest of brelse. The buffer may have another holder by now; a last reference is given
     up only when the disk has the contents, whatever the other processes have done.
     */
    method Forget(i: int)
      requires Live() && 0 <= i < NBUF && cache.refs.users[i] > One(cache.bufs[i].locked)
      modifies cache
      ensures Live() && cache.Now() == Drop(old(cache.Now()), i)
      ensures old(Clean(cache.Now(), i))
      ensures cache.bufs[i].refcnt == 0 ==>
                cache.stamp == old(cache.stamp)[i := old(cache.clock)] && cache.clock == old(cache.clock) + 1
      ensures cache.bufs[i].refcnt != 0 ==> cache.stamp == old(cache.stamp) && cache.clock == old(cache.clock)
      ensures old(Valid()) ==> Valid()
    {
      hide Held, Ring, Aged, Dec, Sound, ValidHeader, Quiet, Clean;
      ReleaseIsClean(cache.Now(), i, marks);
      HeldDrop(cache.Now(), i, marks);
      cache.Unref(i);
    }

    /** brelse without anything in between */
    method Brelse(i: int)
      requires Live() && 0 <= i < NBUF && cache.bufs[i].locked && cache.bufs[i].blockno !in marks.dirty
      modifies cache
      ensures Live() && old(cache.refs.users)[i] > 0 && cache.Now() == Released(old(cache.Now()), i)
      ensures cache.bufs[i].refcnt == 0 ==>
                cache.stamp == old(cache.stamp)[i := old(cache.clock)] && cache.clock == old(cache.clock) + 1
      ensures cache.bufs[i].refcnt != 0 ==> cache.stamp == old(cache.stamp) && cache.clock == old(cache.clock)
      ensures old(Valid()) ==> Valid()
    {
      hide Held, Ring, Aged, Dec, Consistent, Clean;
      Leave(i);
      Forget(i);
    }

    /** bunpin of a buffer that was just written. */
    method Bunpin(i: int)
      requires Live() && 0 <= i < NBUF && cache.bufs[i].locked && cache.bufs[i].valid && OnDisk(cache.Now(), i)
      requires cache.bufs[i].blockno !in marks.stuck && cache.bufs[i].blockno !in marks.dirty
      requires cache.disk[cache.bufs[i].blockno] == cache.logical[cache.bufs[i].blockno]
      modifies cache`bufs, cache`refs, this`marks
      ensures Live() && cache.Now() == Unpin(old(cache.Now()), i)
      ensures marks == Unmarked(old(marks), cache.bufs[i].blockno)
    {
      hide Held, Ring, Aged;
      HeldUnpin(cache.Now(), i, marks);
      cache.Bunpin(i);
      marks := Unmarked(marks, cache.bufs[i].blockno);
    }

    // ---- commit, one block at a time

    /** One iteration of write_log; false stands for bread's panic, before anything is done. */
    method CopyBlock(tb: int, fb: int) returns (ok: bool)
      requires Live() && tb != fb && Fetchable(cache.Now(), marks, tb) && Fetchable(cache.Now(), marks, fb)
      requires tb !in marks.dirty && fb !in marks.dirty && fb in marks.pinned && Unused(cache.Now(), marks, tb)
      modifies cache, this`marks, this`writes
      ensures ok <==> !AllHeld(old(cache.bufs))
      ensures !ok ==> cache.Now() == old(cache.Now()) && writes == old(writes)
      ensures Live() && marks == old(marks)
      ensures ok ==> Balanced(old(cache.Now()), cache.Now()) && cache.refs == old(cache.refs)
      ensures ok ==>
                old(Now()).Fits([Write(tb, old(cache.logical)[fb])])
                && Now() == old(Now()).After([Write(tb, old(cache.logical)[fb])])
    {
      hide Held, Fetchable, Missing, AllHeld, Balanced, Ring, Aged, Countable, Unused, Wrap, Oldest, Consistent;
      ghost var s := cache.Now();
      var to := Bread(tb);
      if to == NBUF {
        return false;
      }
      ghost var s1 := cache.Now();
      SpareTaken(s, s1, to, tb, marks);
      FetchOther(s, s1, to, tb, fb, marks);
      PinnedNotMissing(s1, fb, marks);
      var from := Bread(fb);
      ghost var s2 := cache.Now();
      CopyEffect(s, s1, s2, to, tb, from, fb);
      ghost var data := cache.bufs[from].data;
      Modify(to, cache.bufs[from].data);
      Bwrite(to);
      Brelse(from);
      Brelse(to);
      ApplyOne(s.disk, Write(tb, data));
      ApplyOne(s.logical, Write(tb, data));
      ok := true;
    }

    method WriteLog() returns (ok: bool)
      requires Committing()
      modifies cache, this`marks, this`writes
      ensures Committing() && cache.refs == old(cache.refs) && marks == old(marks)
      ensures ok <==> lh == [] || !AllHeld(old(cache.bufs))
      ensures !ok ==> Now() == old(Now())
      ensures ok ==>
                var ws := LogWrites(g, lh, old(cache.logical));
                old(Now()).Fits(ws) && Now() == old(Now()).After(ws)
    {
      hide Apply, Held, Ours, Aside, AllHeld, Balanced, Ring, Aged, Fetchable, Unused, Unstuck, Consistent;
      ghost var was, ws := Now(), LogWrites(g, lh, cache.logical);
      was.AfterNone(ws);
      var tail := 0;
      while tail < |lh|
        invariant 0 <= tail <= |lh| && was.Fits(ws)
        invariant Committing() && cache.refs == old(cache.refs) && |cache.disk| == |was.disk| && marks == old(marks)
        invariant AllHeld(cache.bufs) <==> AllHeld(old(cache.bufs))
        invariant tail > 0 ==> !AllHeld(old(cache.bufs))
        invariant Now() == was.After(ws[..tail])
      {
        ghost var s := cache.Now();
        was.AfterNext(ws, tail);
        HomeBlockKept(g, lh, was.view, tail);
        CopyReady(g, s, marks, lh, tail);
        ok := CopyBlock(g.start + tail + 1, lh[tail]);
        if !ok {
          return;
        }
        OursKept(g, s, cache.Now(), lh, marks);
        AsideKept(g, s, cache.Now(), marks);
        SameSpares(s, cache.Now(), marks, marks);
        tail := tail + 1;
      }
      assert ws[..|lh|] == ws;
      ok := true;
    }

    /** The header block can be read: nobody else uses it and it is not marked. */
    ghost predicate HeadReady(bs: seq<int>)
      reads this, cache
    {
      && Live() && Ours(g, cache.Now(), bs) && Unstuck(cache.Now(), marks) && InLog(g, g.start)
      && g.start < |cache.disk|
      && g.start !in marks.pinned && g.start !in marks.stuck && g.start !in marks.dirty
    }

    /** write_head: the header block records the list. */
    method WriteHead(ghost bs: seq<int>) returns (ok: bool)
      requires |lh| <= LOGSIZE && HeadReady(bs)
      modifies cache, this`marks, this`writes
      ensures ok <==> !AllHeld(old(cache.bufs))
      ensures !ok ==> cache.Now() == old(cache.Now()) && writes == old(writes)
      ensures Live() && Ours(g, cache.Now(), bs) && marks == old(marks) && cache.refs.users == old(cache.refs.users)
      ensures ok ==> !AllHeld(cache.bufs) && |cache.disk| == |old(cache.disk)|
      ensures ok && old(Aside(g, cache.Now(), marks)) ==> Aside(g, cache.Now(), marks)
      ensures ok ==>
                var w := HeadWrite(g, old(cache.logical)[g.start], lh);
                old(Now()).Fits([w]) && Now() == old(Now()).After([w])
      ensures ok && old(Booted(g, cache.Now(), cache.stamp, marks.stuck, seen)) ==>
                Booted(g, cache.Now(), cache.stamp, marks.stuck, seen)
    {
      hide Held, Fetchable, Missing, AllHeld, Balanced, Ring, Aged, Countable, Unused, Wrap, Oldest, Booted, Stamped,
           Ours, Unstuck, Aside, Consistent;
      ghost var s, stamp, clock := cache.Now(), cache.stamp, cache.clock;
      AgedStamps(cache.order, cache.stamp, cache.clock);
      LogFetchable(g, s, marks, bs, g.start);
      var b := Bread(g.start);
      if b == NBUF {
        return false;
      }
      SpareTaken(s, cache.Now(), b, g.start, marks);
      var hb := cache.bufs[b].data;
      hb := hb[0 := |lh|];
      var i := 0;
      while i < |lh|
        invariant 0 <= i <= |lh| && |hb| == BLOCK_WORDS
        invariant hb == [|lh|] + lh[..i] + s.logical[g.start][i + 1..]
      {
        hb := hb[i + 1 := lh[i]];
        i := i + 1;
      }
      assert lh[..|lh|] == lh;
      PutEffect(s, cache.Now(), b, g.start, hb);
      Modify(b, hb);
      Bwrite(b);
      Brelse(b);
      ApplyOne(s.disk, Write(g.start, hb));
      ApplyOne(s.logical, Write(g.start, hb));
      OursKept(g, s, cache.Now(), bs, marks);
      if Aside(g, s, marks) {
        AsideKept(g, s, cache.Now(), marks);
      }
      SameSpares(s, cache.Now(), marks, marks);
      SpareByRefs(cache.Now(), marks, b);
      if Booted(g, s, stamp, marks.stuck, seen) {
        BootedPut(g, s, cache.Now(), stamp, clock, b, g.start, marks.stuck, seen);
      }
      ok := true;
    }

    /** read_head: the list the header block records. */
    method ReadHead(ghost bs: seq<int>) returns (ok: bool)
      requires HeadReady(bs)
      requires 0 <= cache.logical[g.start][0] <= LOGSIZE
      modifies cache, this`lh
      ensures ok <==> !AllHeld(old(cache.bufs))
      ensures Live() && Ours(g, cache.Now(), bs) && Now() == old(Now())
      ensures ok ==> lh == Head(cache.logical[g.start])
      ensures ok && old(Booted(g, cache.Now(), cache.stamp, marks.stuck, seen)) ==>
                Booted(g, cache.Now(), cache.stamp, marks.stuck, seen)
    {
      hide Held, Fetchable, Missing, AllHeld, Balanced, Ring, Aged, Countable, Unused, Wrap, Oldest, Booted, Stamped,
           Ours, Unstuck, Consistent;
      ghost var s, stamp, clock := cache.Now(), cache.stamp, cache.clock;
      AgedStamps(cache.order, cache.stamp, cache.clock);
      LogFetchable(g, s, marks, bs, g.start);
      var b := Bread(g.start);
      if b == NBUF {
        return false;
      }
      SpareTaken(s, cache.Now(), b, g.start, marks);
      var buf := cache.bufs[b].data;
      var n := buf[0];
      var list := [];
      var i := 0;
      while i < n
        invariant 0 <= i <= n && list == buf[1..i + 1]
      {
        list := list + [buf[i + 1]];
        i := i + 1;
      }
      lh := list;
      GetEffect(s, cache.Now(), b, g.start);
      Brelse(b);
      OursKept(g, s, cache.Now(), bs, marks);
      SameSpares(s, cache.Now(), marks, marks);
      SpareByRefs(cache.Now(), marks, b);
      if Booted(g, s, stamp, marks.stuck, seen) {
        BootedPut(g, s, cache.Now(), stamp, clock, b, g.start, marks.stuck, seen);
      }
      ok := true;
    }

    /** bread of a log block and a home block; d is NBUF if either panics. */
    method BreadBoth(lb: int, hb: int) returns (l: int, d: int, ghost s1: State)
      requires Live() && lb != hb && Fetchable(cache.Now(), marks, lb) && Fetchable(cache.Now(), marks, hb)
      requires Unused(cache.Now(), marks, lb)
      modifies cache`bufs, cache`refs
      ensures Live() && 0 <= l <= NBUF && 0 <= d <= NBUF && hb !in marks.stuck
      ensures d == NBUF ==> HeldBut(old(cache.bufs), l)
      ensures !AllHeld(old(cache.bufs)) && hb in marks.pinned ==> d < NBUF
      ensures d < NBUF ==>
                && l < NBUF && old(cache.refs.users)[l] == 0 == old(cache.refs.pins)[l] && Held(s1, marks)
                && Fetch(old(cache.Now()), s1, l, lb) && Fetch(s1, cache.Now(), d, hb)
                && (Names(s1.bufs[d], ROOTDEV, hb) || Oldest(s1.bufs, cache.stamp, d))
    {
      hide Held, Fetchable, Fetch, Missing, AllHeld, HeldBut, Ring, Aged, Countable, Unused, Wrap, Oldest, Consistent;
      ghost var s := cache.Now();
      s1, d := s, NBUF;
      l := Bread(lb);
      if l == NBUF {
        FetchableNotStuck(s, marks, hb);
        HeldButOne(s, s, l, lb);
        return;
      }
      s1 := cache.Now();
      SpareTaken(s, s1, l, lb, marks);
      FetchOther(s, s1, l, lb, hb, marks);
      if hb in marks.pinned {
        PinnedNotMissing(s1, hb, marks);
      }
      d := Bread(hb);
      if d == NBUF {
        HeldButOne(s, s1, l, lb);
      }
    }

    /**
     One iteration of install_trans, using buffers l and d. The home block loses a pin, or ends
     one short if it had none; it fails only if all buffers but l have references.
     */
    method InstallBlock(lb: int, hb: int) returns (ok: bool, ghost l: int, ghost d: int)
      requires Live() && lb != hb && Fetchable(cache.Now(), marks, lb) && Fetchable(cache.Now(), marks, hb)
      requires lb !in marks.dirty && hb !in marks.dirty && Unused(cache.Now(), marks, lb)
      modifies cache, this`marks, this`writes
      ensures Live() && hb !in old(marks).stuck
      ensures !ok ==> HeldBut(old(cache.bufs), l)
      ensures !AllHeld(old(cache.bufs)) && hb in old(marks).pinned ==> ok
      ensures ok ==> marks == Unmarked(old(marks), hb)
      ensures ok ==> Balanced(old(cache.Now()), cache.Now()) && Used(old(cache.Now()), cache.Now(), l, lb, d, hb)
      ensures ok ==>
                var w := Write(hb, old(cache.logical)[lb]);
                old(Now()).Fits([w]) && Now() == old(Now()).After([w])
      ensures ok && old(Booted(g, cache.Now(), cache.stamp, marks.stuck, seen)) && hb !in old(marks).pinned
              && InLog(g, lb) && !InLog(g, hb) ==>
                Booted(g, cache.Now(), cache.stamp, marks.stuck, seen)
    {
      hide Held, Fetchable, Fetch, Missing, AllHeld, HeldBut, Balanced, Ring, Aged, Unused, Oldest, Booted, Used,
           Stamped, Consistent;
      ghost var s, stamp, clock, m := cache.Now(), cache.stamp, cache.clock, marks;
      AgedStamps(cache.order, cache.stamp, cache.clock);
      var lbuf, dbuf;
      ghost var s1;
      lbuf, dbuf, s1 := BreadBoth(lb, hb);
      l, d := lbuf, dbuf;
      if dbuf == NBUF {
        return false, l, d;
      }
      Install(lbuf, lb, dbuf, hb, s, s1);
      if Booted(g, s, stamp, m.stuck, seen) && hb !in m.pinned && InLog(g, lb) && !InLog(g, hb) {
        StampsAfter(g, s, cache.Now(), stamp, l, lb, d, hb, m, seen);
        InstallBooted(g, s, s1, cache.Now(), stamp, clock, l, lb, d, hb, m, seen);
      }
      ok := true;
    }

    /** The rest of that iteration, both blocks being read. */
    method Install(l: int, lb: int, d: int, hb: int, ghost s: State, ghost s1: State)
      requires Live() && Fetch(s, s1, l, lb) && Fetch(s1, cache.Now(), d, hb) && lb != hb
      requires lb !in marks.dirty && hb !in marks.dirty && hb !in marks.stuck
      modifies cache, this`marks, this`writes
      ensures Live() && marks == Unmarked(old(marks), hb) && 0 <= l < NBUF && 0 <= d < NBUF && l != d
      ensures Balanced(s, cache.Now()) && Used(s, cache.Now(), l, lb, d, hb)
      ensures s.refs.users[l] == 0 == s.refs.pins[l] && s.Of(d) == 0 ==>
                cache.stamp == old(cache.stamp)[l := old(cache.clock)]
      ensures
        var w := Write(hb, s.logical[lb]);
        && old(Now()) == Blocks(s.disk, s.logical, old(writes)) && old(Now()).Fits([w])
        && Now() == old(Now()).After([w])
    {
      hide Held, Missing, Balanced, Ring, Aged, Wrap, Consistent;
      ghost var data := cache.bufs[l].data;
      InstallEffect(s, s1, cache.Now(), l, lb, d, hb);
      Modify(d, cache.bufs[l].data);
      Bwrite(d);
      Bunpin(d);
      Brelse(l);
      SpareByRefs(cache.Now(), marks, l);
      Brelse(d);
      SpareByRefs(cache.Now(), marks, d);
      ApplyOne(s.disk, Write(hb, data));
      ApplyOne(s.logical, Write(hb, data));
    }

    /**
     install_trans, for commit and for recovery. Commit pinned the blocks it installs;
     recovery did not, and leaves every one of them a reference short.
     */
    method InstallTrans(ghost recovering: bool, ghost stuck: set<int>) returns (ok: bool)
      requires Live() && Ours(g, cache.Now(), lh) && marks == Progress(lh, 0, recovering, stuck)
      requires !recovering ==> Aside(g, cache.Now(), marks)
      requires 1 <= g.size && g.start + g.size <= |cache.disk| && ValidHeader(g, |cache.disk|, lh)
      requires recovering ==> Booted(g, cache.Now(), cache.stamp, marks.stuck, seen)
      modifies cache, this`marks, this`writes
      ensures recovering ==> (ok <==> |lh| < NBUF)
      ensures !recovering && !AllHeld(old(cache.bufs)) ==> ok && !AllHeld(cache.bufs)
      ensures ok ==> Live() && Ours(g, cache.Now(), lh) && marks == Progress(lh, |lh|, recovering, stuck)
      ensures ok && !recovering ==> Aside(g, cache.Now(), marks)
      ensures ok && recovering ==> Booted(g, cache.Now(), cache.stamp, marks.stuck, seen)
      ensures ok ==> cache.refs.users == old(cache.refs.users)
      ensures ok ==>
                var ws := InstallWrites(g, lh, old(cache.logical));
                old(Now()).Fits(ws) && Now() == old(Now()).After(ws)
    {
      hide Apply, Held, Ours, AllHeld, HeldBut, Balanced, Ring, Aged, Fetchable, Unused, Unstuck, Booted, Used,
           Progress, Aside, Consistent;
      ghost var was, ws := Now(), InstallWrites(g, lh, cache.logical);
      was.AfterNone(ws);
      var tail := 0;
      while tail < |lh|
        invariant 0 <= tail <= |lh| && was.Fits(ws) && |cache.disk| == |was.disk|
        invariant Live() && Ours(g, cache.Now(), lh) && marks == Progress(lh, tail, recovering, stuck)
        invariant !recovering ==> Aside(g, cache.Now(), marks)
        invariant recovering ==> tail < NBUF
        invariant !recovering && !AllHeld(old(cache.bufs)) ==> !AllHeld(cache.bufs)
        invariant recovering ==> Booted(g, cache.Now(), cache.stamp, marks.stuck, seen)
        invariant Now() == was.After(ws[..tail]) && cache.refs.users == old(cache.refs.users)
      {
        ghost var s, m, stamp := cache.Now(), marks, cache.stamp;
        was.AfterNext(ws, tail);
        LogBlockKept(g, lh, was.view, tail);
        InstallReady(g, s, cache.stamp, marks, seen, lh, tail, recovering, stuck);
        ghost var l, d;
        ok, l, d := InstallBlock(g.start + tail + 1, lh[tail]);
        if !ok {
          if recovering {
            RoomToInstall(g, s, stamp, m, seen, lh, tail, l, stuck);
          }
          return;
        }
        AfterInstall(g, s, cache.Now(), m, lh, tail, recovering, stuck, l, d);
        BalancedUsers(s, cache.Now());
        tail := tail + 1;
      }
      assert ws[..|lh|] == ws;
      ok := true;
    }

    /**
     commit() issues exactly the writes of CommitWrites, so CommitInterrupted covers a crash
     after any of them, and takes away the one pin of each block. It panics only before its
     first write, when every buffer has references.
     */
    method Commit() returns (ok: bool)
      requires Valid() && marks.dirty == {} && Ours(g, cache.Now(), lh)
      modifies cache, this`lh, this`marks, this`writes
      ensures ok <==> old(lh) == [] || !AllHeld(old(cache.bufs))
      ensures !ok ==> Now() == old(Now())
      ensures ok ==> Valid() && lh == [] && marks.dirty == {} && |cache.disk| == |old(cache.disk)|
      ensures ok ==> marks.stuck == old(marks).stuck && cache.refs.users == old(cache.refs.users)
      ensures ok ==> SameHome(g, cache.disk, old(cache.logical)) && SameHome(g, cache.logical, old(cache.logical))
      ensures ok ==>
                var ws := if old(lh) == [] then [] else CommitWrites(g, old(cache.disk), old(lh), old(cache.logical));
                writes == old(writes) + ws && cache.disk == Apply(old(cache.disk), ws)
    {
      hide Apply, Held, Ours, AllHeld, Balanced, Ring, Aged, LogIdle, Progress, Booted, Stamped, Fetchable, Unused,
           Unstuck;
      SettledFrom(g, cache.Now(), marks, lh);
      if |lh| == 0 {
        assert old(writes) + [] == old(writes);
        ApplyNone(cache.disk);
        return true;
      }
      ghost var was, bs, stuck := Now(), lh, marks.stuck;
      ghost var ws := CommitInPieces(g, was, bs);
      ok := WriteLog();
      if !ok {
        return;
      }
      SameSpares(old(cache.Now()), cache.Now(), marks, marks);
      ok := WriteHead(bs);
      ProgressEnds(bs, stuck);
      ok := InstallTrans(false, stuck);
      lh := [];
      ok := WriteHead(bs);
      assert Now() == was.After(ws);
      CommitEffect(g, was.disk, bs, was.view);
      OursIdle(g, cache.Now(), bs);
    }

    /** readsb, the one bread before recovery */
    method Readsb()
      requires Live() && marks == NoMarks() && Booted(g, cache.Now(), cache.stamp, {}, seen)
      requires SUPERBLOCK < |cache.disk|
      modifies cache, this`seen
      ensures Live() && Now() == old(Now()) && seen == old(seen) + {SUPERBLOCK}
      ensures Booted(g, cache.Now(), cache.stamp, {}, seen)
    {
      hide Held, Fetchable, Missing, AllHeld, Balanced, Ring, Aged, Unused, Wrap, Oldest, Booted, Stamped, Consistent;
      ghost var s, stamp, clock := cache.Now(), cache.stamp, cache.clock;
      AgedStamps(cache.order, cache.stamp, cache.clock);
      NoElems();
      BootedSpare(g, s, stamp, marks, seen, []);
      BootedFetchable(g, s, stamp, marks, seen, SUPERBLOCK);
      seen := seen + {SUPERBLOCK};
      BootedMore(g, s, stamp, {}, old(seen), seen);
      var b := Bread(SUPERBLOCK);
      SpareTaken(s, cache.Now(), b, SUPERBLOCK, marks);
      GetEffect(s, cache.Now(), b, SUPERBLOCK);
      Brelse(b);
      SpareByRefs(cache.Now(), marks, b);
      BootedPut(g, s, cache.Now(), stamp, clock, b, SUPERBLOCK, {}, seen);
    }

    /**
     recover_from_log, at boot. It runs out of buffers exactly if the header names NBUF
     blocks or more. Otherwise the disk is recovered, every block installed ends with count
     2^32 - 1, and the cache is sound if and only if there was none.
     */
    method RecoverFromLog() returns (ok: bool)
      requires Live() && marks == NoMarks() && Booted(g, cache.Now(), cache.stamp, {}, seen)
      requires cache.logical == cache.disk && ValidDisk(g, cache.disk)
      modifies cache, this`lh, this`marks, this`writes
      ensures ok <==> |Head(old(cache.disk)[g.start])| < NBUF
      ensures ok ==> lh == [] && cache.logical == cache.disk && Quiet(g, cache.disk)
      ensures ok ==> SameHome(g, cache.disk, Recovered(g, old(cache.disk)))
      ensures ok ==> writes == old(writes) + RecoverWrites(g, old(cache.disk))
      ensures ok ==> cache.disk == Apply(old(cache.disk), RecoverWrites(g, old(cache.disk)))
      ensures ok ==>
                var hd := Head(old(cache.disk)[g.start]);
                && Live() && marks == Marks({}, Elems(hd), {})
                && Booted(g, cache.Now(), cache.stamp, Elems(hd), seen) && Shortened(cache.bufs, hd)
                && Valid() && (Sound(cache.Now()) <==> hd == [])
    {
      hide Apply, Held, Ours, AllHeld, Ring, Aged, Progress, Booted, Unstuck, Sound, Shortened, Settled, Distinct,
           SetHead, LogIdle;
      ghost var was, hd := Now(), Head(cache.disk[g.start]);
      NoElems();
      BootedOurs(g, cache.Now(), cache.stamp, marks, seen, []);
      BootedSpare(g, cache.Now(), cache.stamp, marks, seen, []);
      ok := ReadHead([]);
      BootedOurs(g, cache.Now(), cache.stamp, marks, seen, hd);
      ProgressEnds(hd, {});
      RecoverInPieces(g, was);
      ok := InstallTrans(true, {});
      if !ok {
        return;
      }
      BootedOurs(g, cache.Now(), cache.stamp, marks, seen, hd);
      BootedSpare(g, cache.Now(), cache.stamp, marks, seen, hd);
      HomeNotHead(g, |cache.disk|, hd);
      lh := [];
      ok := WriteHead(hd);
      assert Now() == was.After(RecoverWrites(g, was.disk));
      RecoverEffect(g, was.disk);
      RecoveredCache(g, cache.Now(), cache.stamp, marks, seen, hd);
      BootedOurs(g, cache.Now(), cache.stamp, marks, seen, hd);
      OursIdle(g, cache.Now(), hd);
    }

    /** One pass of begin_op's loop: false means it sleeps on the log and tries again. */
    method TryBeginOp() returns (begun: bool)
      modifies `outstanding
      ensures begun <==> !committing && RoomToBegin(|lh|, old(outstanding))
      ensures outstanding == if begun then old(outstanding) + 1 else old(outstanding)
    {
      if committing {
        begun := false;
      } else if |lh| + (outstanding + 1) * MAXOPBLOCKS > LOGSIZE {
        begun := false;
      } else {
        outstanding := outstanding + 1;
        begun := true;
      }
    }

    /**
     end_op: the last operation to leave commits the group. By then every changed block is
     logged, as all operations are over.
     */
    method EndOp() returns (ok: bool)
      requires Valid() && outstanding >= 1 && !committing
      requires outstanding == 1 ==> marks.dirty == {} && Ours(g, cache.Now(), lh)
      modifies cache, this
      ensures outstanding == old(outstanding) - 1
      ensures ok <==> outstanding > 0 || old(lh) == [] || !AllHeld(old(cache.bufs))
      ensures outstanding > 0 ==> Valid() && cache.Now() == old(cache.Now()) && lh == old(lh) && writes == old(writes)
      ensures !ok ==> Now() == old(Now())
      ensures ok ==> Valid() && !committing && SameHome(g, cache.logical, old(cache.logical))
      ensures ok ==> marks.stuck == old(marks).stuck && cache.refs.users == old(cache.refs.users)
      ensures ok && old(marks).dirty == {} ==> marks.dirty == {}
      ensures ok && outstanding == 0 ==> lh == [] && SameHome(g, cache.disk, old(cache.logical))
      ensures ok && outstanding == 0 ==>
                var ws := if old(lh) == [] then [] else CommitWrites(g, old(cache.disk), old(lh), old(cache.logical));
                writes == old(writes) + ws && cache.disk == Apply(old(cache.disk), ws)
    {
      hide Held, Ring, Aged, Consistent, Ours, AllHeld;
      outstanding := outstanding - 1;
      ok := true;
      if outstanding == 0 {
        committing := true;
        ok := Commit();
        if !ok {
          return;
        }
        committing := false;
      }
    }

    /**
     log_write of a locked buffer; false stands for its panics. A block not yet in the list
     is pinned, so that its contents stay cached until they are installed.
     */
    method LogWrite(i: int) returns (ok: bool)
      requires cache.Shaped() && 0 <= i < NBUF && cache.bufs[i].locked
      modifies cache`bufs, cache`refs, this`lh, this`marks
      ensures cache.Shaped()
      ensures ok <==> |old(lh)| < LOGSIZE && |old(lh)| < g.size - 1 && outstanding >= 1
      ensures !ok ==> cache.Now() == old(cache.Now()) && lh == old(lh) && marks == old(marks)
      ensures ok ==>
                var b := cache.bufs[i].blockno;
                && lh == AddBlock(old(lh), b)
                && marks.dirty == old(marks).dirty - {b} && marks.stuck == old(marks).stuck
                && cache.Now() == if b in old(lh) then old(cache.Now()) else Pin(old(cache.Now()), i)
      ensures old(Valid() && Loggable(g, cache.Now(), i)) ==> Valid()
    {
      hide Held, Ring, Aged, Consistent, Loggable, Inc;
      ghost var s, m, was := cache.Now(), marks, lh;
      var b := cache.bufs[i].blockno;
      if |lh| >= LOGSIZE || |lh| >= g.size - 1 {
        return false;
      }
      if outstanding < 1 {
        return false;
      }
      var k := 0;
      while k < |lh| && lh[k] != b
        invariant 0 <= k <= |lh|
        invariant b !in lh[..k]
      {
        k := k + 1;
      }
      if k == |lh| {
        cache.Bpin(i);
        lh := lh + [b];
        marks := marks.(pinned := marks.pinned + {b});
      } else {
        assert lh[k] == b;
      }
      marks := marks.(dirty := marks.dirty - {b});
      if Held(s, m) && Consistent(g, s, m, was) && Loggable(g, s, i) {
        LoggedSound(g, s, i, m, was);
      }
      ok := true;
    }

    /**
     What a client does to change a block: bread, a store, log_write, brelse. Whoever reads
     the block afterwards gets the new contents, whatever the cache evicts; the disk is
     as it was until the commit.
     */
    method Update(b: int, data: Block) returns (ok: bool)
      requires Valid() && Home(g, |cache.disk|, b) && b !in marks.dirty && Fetchable(cache.Now(), marks, b)
      requires Roomy(cache.Now(), b)
      modifies cache, this`lh, this`marks
      ensures ok <==>
                && |old(lh)| < Capacity(g) && outstanding >= 1
                && !(Missing(old(cache.bufs), b) && AllHeld(old(cache.bufs)))
      ensures ok ==> Valid() && lh == AddBlock(old(lh), b)
      ensures ok ==> marks.dirty == old(marks).dirty && marks.stuck == old(marks).stuck
      ensures ok ==> cache.disk == old(cache.disk) && cache.logical == old(cache.logical)[b := data]
      ensures ok ==> cache.refs.users == old(cache.refs.users)
    {
      hide Held, Ring, Aged, Consistent, Loggable, Fetchable, Missing, AllHeld, Roomy, Wrap, Oldest;
      ghost var s := cache.Now();
      SizeKnown(g, s, marks, lh);
      var i := Bread(b);
      if i == NBUF {
        return false;
      }
      FetchedFound(s, cache.Now(), i, b, marks);
      RoomyLoggable(g, s, cache.Now(), i, b, data);
      Modify(i, data);
      ok := LogWrite(i);
      if !ok {
        return;
      }
      Brelse(i);
      assert cache.refs.users == s.refs.users;
    }
  }

  lemma BalancedUsers(s: State, t: State)
    requires Balanced(s, t)
    ensures t.refs.users == s.refs.users
  {
  }

  lemma ApplyNone(d: Disk)
    ensures Apply(d, []) == d
  {
  }

  /** The buffer is for a block outside the log, and one more reference does not overflow its count. */
  ghost predicate Loggable(g: Region, s: State, i: int) {
    OnDisk(s, i) && Home(g, |s.disk|, s.bufs[i].blockno) && s.bufs[i].valid && s.bufs[i].locked
    && s.Of(i) < UINT_SPAN - 1
  }

  ghost predicate Roomy(s: State, b: int) {
    s.Sized() && forall i :: 0 <= i < |s.bufs| && Names(s.bufs[i], ROOTDEV, b) ==> s.Of(i) < UINT_SPAN - 2
  }

  lemma RoomyLoggable(g: Region, s: State, t: State, i: int, b: int, data: Block)
    requires Fetch(s, t, i, b) && Roomy(s, b) && Home(g, |s.disk|, b)
    ensures OnDisk(t, i) && Loggable(g, Store(t, i, data), i)
  {
    hide Missing;
  }

  lemma SizeKnown(g: Region, s: State, m: Marks, lh: seq<int>)
    requires Consistent(g, s, m, lh)
    ensures g.size >= 1
  {
  }

  lemma FetchedFound(s: State, t: State, i: int, b: int, m: Marks)
    requires Held(s, m) && Fetch(s, t, i, b)
    ensures !(Missing(s.bufs, b) && AllHeld(s.bufs))
  {
    hide Held;
    HeldSized(s, m);
    SpareByRefs(s, m, i);
  }

  lemma LoggedSound(g: Region, s: State, i: int, m: Marks, lh: seq<int>)
    requires Held(s, m) && Consistent(g, s, m, lh) && Loggable(g, s, i) && |lh| < Capacity(g)
    ensures
      var b := s.bufs[i].blockno;
      if b in lh then
        Held(s, m.(dirty := m.dirty - {b})) && Consistent(g, s, m.(dirty := m.dirty - {b}), lh)
      else
        var m' := m.(pinned := m.pinned + {b}, dirty := m.dirty - {b});
        Held(Pin(s, i), m') && Consistent(g, Pin(s, i), m', lh + [b])
  {
    hide Held, Quiet, Distinct;
    var b := s.bufs[i].blockno;
    ElemsAdd(lh, b);
    LockedNotStuck(s, i, m);
    if b in lh {
      HeldAbsorb(s, b, m);
    } else {
      HeldPin(s, i, m);
    }
  }

  lemma LockedNotStuck(s: State, i: int, m: Marks)
    requires Held(s, m) && Unstuck(s, m) && Ready(s, i) && s.bufs[i].locked
    ensures s.bufs[i].blockno !in m.stuck
  {
    hide Cached, Gripped, Wrap;
  }

  /** The buffers of the blocks recovery installed have count 2^32 - 1, all others 0. */
  ghost predicate Shortened(bufs: seq<Buf>, hd: seq<int>) {
    forall i :: 0 <= i < |bufs| ==>
      bufs[i].refcnt == if bufs[i].dev == ROOTDEV && bufs[i].blockno in hd then 0xFFFF_FFFF else 0
  }

  lemma BootedOurs(g: Region, s: State, stamp: seq<int>, m: Marks, seen: set<int>, lh: seq<int>)
    requires Held(s, m) && Booted(g, s, stamp, m.stuck, seen)
    ensures Ours(g, s, lh) && Unstuck(s, m)
  {
    hide Cached, Gripped, Wrap, Coherent, Unique;
  }

  lemma BootedMore(g: Region, s: State, stamp: seq<int>, stuck: set<int>, seen: set<int>, more: set<int>)
    requires Booted(g, s, stamp, stuck, seen) && seen <= more
    ensures Booted(g, s, stamp, stuck, more)
  {
  }

  lemma BootedFetchable(g: Region, s: State, stamp: seq<int>, m: Marks, seen: set<int>, b: int)
    requires Held(s, m) && Booted(g, s, stamp, m.stuck, seen) && 0 <= b < |s.disk| && b !in m.stuck && b !in m.pinned
    ensures Fetchable(s, m, b) && Unused(s, m, b)
  {
    hide Cached, Gripped, Wrap, Coherent, Unique;
  }

  lemma BootedSpare(g: Region, s: State, stamp: seq<int>, m: Marks, seen: set<int>, hd: seq<int>)
    requires Held(s, m) && Booted(g, s, stamp, m.stuck, seen) && m == Marks({}, Elems(hd), {}) && |hd| < |s.bufs|
    ensures !AllHeld(s.bufs)
  {
    hide Held, Booted;
    if AllHeld(s.bufs) {
      BootedRoom(g, s, stamp, m, seen, -1);
      FewElems(hd);
    }
  }

  lemma HomeNotHead(g: Region, size: nat, hd: seq<int>)
    requires NamesHome(g, size, hd) && g.size >= 1
    ensures g.start !in Elems(hd)
  {
  }

  lemma RecoveredCache(g: Region, s: State, stamp: seq<int>, m: Marks, seen: set<int>, hd: seq<int>)
    requires Held(s, m) && Booted(g, s, stamp, m.stuck, seen) && m == Marks({}, Elems(hd), {})
    ensures Shortened(s.bufs, hd) && (Sound(s) <==> hd == []) && (m.stuck == {} <==> hd == [])
  {
    hide Cached, Gripped, Wrap, Coherent, Unique, Sound;
    forall i | 0 <= i < |s.bufs|
      ensures s.bufs[i].refcnt == if s.bufs[i].dev == ROOTDEV && s.bufs[i].blockno in hd then 0xFFFF_FFFF else 0
    {
      WrapZero(s.Of(i));
    }
    HeldBacked(s, m);
    if hd == [] {
      NoElems();
    } else {
      Harmed(m, hd[0]);
    }
  }

  lemma ElemsAdd(lh: seq<int>, b: int)
    ensures Elems(AddBlock(lh, b)) == Elems(lh) + {b}
    ensures Distinct(lh) ==> Distinct(AddBlock(lh, b))
  {
  }

  lemma ProgressEnds(lh: seq<int>, stuck: set<int>)
    ensures Progress(lh, 0, false, stuck) == Marks(Elems(lh), stuck, {})
    ensures Progress(lh, |lh|, false, stuck) == Marks(Elems([]), stuck, {})
    ensures Progress(lh, 0, true, stuck) == Marks({}, Elems([]), {})
    ensures Progress(lh, |lh|, true, stuck) == Marks({}, Elems(lh), {})
  {
    assert lh[0..] == lh[..|lh|] == lh && lh[|lh|..] == lh[..0] == [];
  }

  lemma NoElems()
    ensures Elems([]) == {}
  {
    FewElems([]);
  }

  lemma SettledFrom(g: Region, s: State, m: Marks, lh: seq<int>)
    requires Held(s, m) && Consistent(g, s, m, lh) && m.dirty == {}
    ensures Settled(g, s.disk, s.logical, lh)
  {
    hide Tracked, PinsMatch, Cached, Gripped;
  }

  lemma OursIdle(g: Region, s: State, lh: seq<int>)
    requires Ours(g, s, lh)
    ensures LogIdle(g, s)
  {
  }

  /**
   With nobody else holding a buffer, commit finds one exactly if the pinned blocks and those
   recovery left a reference short are together fewer than the buffers. After a boot that
   installed nothing, a log of LOGSIZE blocks as mkfs makes it always leaves one.
   */
  lemma CommitFindsBuffer(g: Region, s: State, m: Marks, lh: seq<int>)
    requires Held(s, m) && Consistent(g, s, m, lh) && |s.bufs| == NBUF
    requires forall i :: 0 <= i < |s.refs.users| ==> s.refs.users[i] == 0
    ensures !AllHeld(s.bufs) <==> |lh| + |m.stuck| < NBUF
    ensures m.stuck == {} && g.size <= LOGSIZE ==> !AllHeld(s.bufs)
  {
    hide Held, AllHeld, Aside;
    SpareIff(s, m, lh);
  }

  /** bget by a client, of a block outside the log. */
  lemma ConsistentGet(g: Region, s: State, t: State, i: int, b: int, m: Marks, lh: seq<int>)
    requires Consistent(g, s, m, lh) && Got(s, t, i, b) && Home(g, |s.disk|, b) && b !in m.stuck
    ensures Consistent(g, t, m, lh)
  {
    hide Quiet, ValidHeader, Missing;
  }

  lemma HeldUser(s: State, i: int, m: Marks)
    requires Held(s, m) && Ready(s, i) && s.refs.users[i] > 0
    ensures s.bufs[i].dev == ROOTDEV && OnDisk(s, i)
  {
  }

  /** The marks when the first k blocks of the list are installed. */
  function Progress(lh: seq<int>, k: nat, recovering: bool, stuck: set<int>): Marks
    requires k <= |lh|
  {
    if recovering then Marks({}, Elems(lh[..k]), {}) else Marks(Elems(lh[k..]), stuck, {})
  }

  lemma ProgressNext(lh: seq<int>, k: nat, recovering: bool, stuck: set<int>)
    requires Distinct(lh) && k < |lh|
    ensures Unmarked(Progress(lh, k, recovering, stuck), lh[k]) == Progress(lh, k + 1, recovering, stuck)
    ensures lh[k] in Progress(lh, k, recovering, stuck).pinned <==> !recovering
    ensures recovering ==> lh[k] !in Progress(lh, k, recovering, stuck).stuck
  {
    ElemsTail(lh, k);
    ElemsFront(lh, k);
  }

  lemma InstallReady(g: Region, s: State, stamp: seq<int>, m: Marks, seen: set<int>, lh: seq<int>, tail: nat,
          recovering: bool, stuck: set<int>)
    requires Held(s, m) && Ours(g, s, lh) && tail < |lh| && m == Progress(lh, tail, recovering, stuck)
    requires 1 <= g.size && g.start + g.size <= |s.disk| && ValidHeader(g, |s.disk|, lh)
    requires if recovering then Booted(g, s, stamp, m.stuck, seen) else Aside(g, s, m)
    ensures Fetchable(s, m, g.start + tail + 1) && Unused(s, m, g.start + tail + 1) && Fetchable(s, m, lh[tail])
    ensures g.start + tail + 1 !in m.dirty && lh[tail] !in m.dirty
    ensures lh[tail] in m.pinned <==> !recovering
  {
    hide Held, Ours, Fetchable, Unused, Distinct;
    ProgressNext(lh, tail, recovering, stuck);
    HeldApart(s, m);
    if recovering {
      BootedUsers(g, s, stamp, m.stuck, seen);
    }
    LogFetchable(g, s, m, lh, g.start + tail + 1);
    ListFetchable(g, s, m, lh, lh[tail]);
  }

  lemma AfterInstall(g: Region, s: State, r: State, m: Marks, lh: seq<int>, tail: nat,
          recovering: bool, stuck: set<int>, l: int, d: int)
    requires Held(s, m) && Ours(g, s, lh) && Distinct(lh) && tail < |lh|
    requires m == Progress(lh, tail, recovering, stuck) && (!recovering ==> Aside(g, s, m))
    requires InLog(g, g.start + tail + 1) && forall k :: 0 <= k <= tail ==> !InLog(g, lh[k])
    requires Held(r, Unmarked(m, lh[tail])) && Balanced(s, r) && Used(s, r, l, g.start + tail + 1, d, lh[tail])
    ensures Ours(g, r, lh) && Unmarked(m, lh[tail]) == Progress(lh, tail + 1, recovering, stuck) && |r.disk| == |s.disk|
    ensures !recovering ==> Aside(g, r, Unmarked(m, lh[tail])) && (AllHeld(r.bufs) ==> AllHeld(s.bufs))
    ensures recovering ==> tail + 1 < |r.bufs|
  {
    hide Held, Ours, AllHeld, Progress, Aside;
    ProgressNext(lh, tail, recovering, stuck);
    HeldApart(s, m);
    OursKept(g, s, r, lh, m);
    if recovering {
      RoomLeft(g, r, Unmarked(m, lh[tail]), lh, tail, l, stuck);
    } else {
      SparesStay(s, r, l, g.start + tail + 1, d, lh[tail], m);
      AsideKept(g, s, r, m);
      AsideSame(g, r, m, Unmarked(m, lh[tail]));
    }
  }

  lemma AsideSame(g: Region, s: State, m: Marks, m': Marks)
    requires Aside(g, s, m) && m'.stuck == m.stuck
    ensures Aside(g, s, m')
  {
  }

  /** Whoever had a buffer still has it, and nobody took one of the blocks left alone. */
  lemma AsideKept(g: Region, s: State, t: State, m: Marks)
    requires Aside(g, s, m) && Balanced(s, t)
    ensures Aside(g, t, m)
  {
  }

  lemma HeldApart(s: State, m: Marks)
    requires Held(s, m)
    ensures s.Sized() && m.pinned !! m.stuck
  {
  }

  /** The log block just copied takes one buffer, each installed block another. */
  lemma RoomLeft(g: Region, r: State, m: Marks, lh: seq<int>, tail: nat, l: int, stuck: set<int>)
    requires Held(r, m) && tail < |lh| && m == Progress(lh, tail + 1, true, stuck) && Distinct(lh)
    requires 0 <= l < |r.bufs| && Names(r.bufs[l], ROOTDEV, g.start + tail + 1) && InLog(g, g.start + tail + 1)
    requires forall k :: 0 <= k <= tail ==> !InLog(g, lh[k])
    ensures tail + 1 < |r.bufs|
  {
    hide Tracked, Gripped;
    var done := lh[..tail + 1];
    FewElems(done);
    var others := BlocksOf(r.bufs, |r.bufs|, l);
    forall b | b in m.stuck ensures b in others {
      var i :| Caches(r.bufs, i, b);
      BlocksOfAt(r.bufs, |r.bufs|, l, i);
    }
    BlocksOfAt(r.bufs, |r.bufs|, l, 0);
    Within(m.stuck, others);
  }

  /** Recovery runs out of buffers only with NBUF or more blocks to install. */
  lemma RoomToInstall(g: Region, s: State, stamp: seq<int>, m: Marks, seen: set<int>, lh: seq<int>, tail: nat,
          l: int, stuck: set<int>)
    requires Held(s, m) && Booted(g, s, stamp, m.stuck, seen) && tail < |lh| && m == Progress(lh, tail, true, stuck)
    requires HeldBut(s.bufs, l)
    ensures |s.bufs| <= |lh|
  {
    hide Held, Booted;
    BootedRoom(g, s, stamp, m, seen, l);
    FewElems(lh[..tail]);
  }

  ghost predicate HeldBut(bufs: seq<Buf>, l: int) {
    forall i :: 0 <= i < |bufs| && i != l ==> bufs[i].refcnt != 0
  }

  /** When bget finds nothing after at most one bread, all buffers but that one were referenced. */
  lemma HeldButOne(s: State, s1: State, l: int, lb: int)
    requires AllHeld(s1.bufs) && (s1 == s || Fetch(s, s1, l, lb))
    ensures HeldBut(s.bufs, l)
  {
    assert forall i :: 0 <= i < |s.bufs| && i != l ==> s1.bufs[i] == s.bufs[i];
  }

  lemma GettableNotStuck(s: State, m: Marks, b: int)
    requires Gettable(s, m, b)
    ensures b !in m.stuck
  {
  }

  lemma FetchableNotStuck(s: State, m: Marks, b: int)
    requires Fetchable(s, m, b)
    ensures b !in m.stuck
  {
  }

  lemma StampsAfter(g: Region, s: State, r: State, stamp: seq<int>, l: int, lb: int, d: int, hb: int,
          m: Marks, seen: set<int>)
    requires Booted(g, s, stamp, m.stuck, seen) && Used(s, r, l, lb, d, hb) && hb !in m.pinned && hb !in m.stuck
    requires Held(r, Unmarked(m, hb))
    ensures s.Of(d) == 0 && s.refs.users[l] == 0
  {
    hide Held;
    PinsBefore(s, r, l, lb, d, hb, m);
  }

  lemma CopyReady(g: Region, s: State, m: Marks, lh: seq<int>, tail: nat)
    requires Held(s, m) && Ours(g, s, lh) && Aside(g, s, m) && m == Marks(Elems(lh), m.stuck, {})
    requires 1 <= g.size && g.start + g.size <= |s.disk| && ValidHeader(g, |s.disk|, lh) && tail < |lh|
    ensures Fetchable(s, m, g.start + tail + 1) && Unused(s, m, g.start + tail + 1) && Fetchable(s, m, lh[tail])
    ensures lh[tail] in m.pinned
  {
    hide Held, Ours, Fetchable, Unused;
    HeldApart(s, m);
    LogFetchable(g, s, m, lh, g.start + tail + 1);
    ListFetchable(g, s, m, lh, lh[tail]);
  }

  // ---- the pieces of commit

  /** The four calls of commit() together issue CommitWrites. */
  lemma CommitInPieces(g: Region, was: Blocks, lh: seq<int>) returns (ws: seq<Write>)
    requires |was.view| == |was.disk| && Quiet(g, was.disk) && ValidHeader(g, |was.disk|, lh)
    requires was.view[g.start] == was.disk[g.start]
    ensures ws == CommitWrites(g, was.disk, lh, was.view) && was.Fits(ws)
    ensures
      var ws1 := LogWrites(g, lh, was.view);
      && was.Fits(ws1)
      && var s1 := was.After(ws1);
      var s2 := s1.After([HeadWrite(g, s1.view[g.start], lh)]);
      var ws3 := InstallWrites(g, lh, s2.view);
      && s2.Fits(ws3)
      && var s3 := s2.After(ws3);
      s3.After([HeadWrite(g, s3.view[g.start], [])]) == was.After(ws)
  {
    var ws1 := LogWrites(g, lh, was.view);
    var s1 := was.After(ws1);
    var w2 := HeadWrite(g, s1.view[g.start], lh);
    var s2 := s1.After([w2]);
    var ws3 := InstallWrites(g, lh, s2.view);
    CommitPieces(g, was.disk, lh, was.view);
    was.AfterBoth(ws1, [w2]);
    was.AfterBoth(ws1 + [w2], ws3);
    var w4 := HeadWrite(g, s2.After(ws3).view[g.start], []);
    was.AfterBoth(ws1 + [w2] + ws3, [w4]);
    ws := ws1 + [w2] + ws3 + [w4];
  }

  lemma {:induction false} CommitPieces(g: Region, d: Disk, lh: seq<int>, view: Disk)
    requires Quiet(g, d) && ValidHeader(g, |d|, lh) && |view| == |d|
    requires view[g.start] == d[g.start]
    ensures
      var ws1 := LogWrites(g, lh, view);
      && WithinDisk(ws1, |d|)
      && var w2 := HeadWrite(g, Apply(view, ws1)[g.start], lh);
      var v2 := Apply(Apply(view, ws1), [w2]);
      var ws3 := InstallWrites(g, lh, v2);
      && WithinDisk(ws3, |d|)
      && ws1 + [w2] + ws3 + [HeadWrite(g, Apply(v2, ws3)[g.start], [])] == CommitWrites(g, d, lh, view)
  {
    var ws1 := LogWrites(g, lh, view);
    Untouched(view, ws1, g.start);
    var v1 := Apply(view, ws1);
    var w2 := HeadWrite(g, v1[g.start], lh);
    var v2 := Apply(v1, [w2]);
    ApplyOne(v1, w2);
    forall i | 0 <= i < |lh| ensures v2[g.start + 1 + i] == view[lh[i]] {
      LastWriteWins(view, ws1, i);
    }
    var ws3 := InstallWrites(g, lh, v2);
    assert ws3 == HomeWrites(lh, view);
    InstallKeepsHeader(g, lh, v2, view);
  }

  lemma InstallKeepsHeader(g: Region, lh: seq<int>, d: Disk, view: Disk)
    requires |view| == |d| && 1 <= g.size && g.start + g.size <= |d| && NamesHome(g, |d|, lh)
    ensures WithinDisk(HomeWrites(lh, view), |d|)
    ensures Apply(d, HomeWrites(lh, view))[g.start] == d[g.start]
  {
    Untouched(d, HomeWrites(lh, view), g.start);
  }

  lemma RecoverInPieces(g: Region, was: Blocks)
    requires was.view == was.disk && ValidDisk(g, was.disk)
    ensures
      var ws := RecoverWrites(g, was.disk);
      var ws1 := InstallWrites(g, Head(was.disk[g.start]), was.view);
      && was.Fits(ws) && was.Fits(ws1)
      && var s1 := was.After(ws1);
      s1.After([HeadWrite(g, s1.view[g.start], [])]) == was.After(ws)
  {
    var ws1 := InstallWrites(g, Head(was.disk[g.start]), was.view);
    Untouched(was.disk, ws1, g.start);
    was.AfterBoth(ws1, [HeadWrite(g, was.disk[g.start], [])]);
  }

  lemma RecoverEffect(g: Region, d: Disk)
    requires ValidDisk(g, d)
    ensures Settled(g, Recovered(g, d), Recovered(g, d), [])
  {
    var ws := RecoverWrites(g, d);
    assert ws[..|ws|] == ws;
    RecoveryInterrupted(g, d, |ws|);
  }

  /** The same writes make two disks agree wherever they agreed or one write hits. */
  lemma {:induction false} ApplyAgree(d: Disk, e: Disk, ws: seq<Write>, b: nat)
    requires |d| == |e| && WithinDisk(ws, |d|) && b < |d|
    requires d[b] == e[b] || exists i :: 0 <= i < |ws| && ws[i].blockno == b
    ensures Apply(d, ws)[b] == Apply(e, ws)[b]
    decreases |ws|
  {
    if ws != [] && ws[|ws| - 1].blockno != b {
      var front := ws[..|ws| - 1];
      if i :| 0 <= i < |ws| && ws[i].blockno == b {
        assert front[i].blockno == b;
      }
      ApplyAgree(d, e, front, b);
    }
  }

  /** A finished commit leaves disk and cache in agreement. */
  lemma CommitEffect(g: Region, d: Disk, lh: seq<int>, view: Disk)
    requires Settled(g, d, view, lh)
    ensures
      var ws := CommitWrites(g, d, lh, view);
      var e := Apply(d, ws);
      && Settled(g, e, e, []) && SameHome(g, e, view) && Apply(view, ws) == e
  {
    hide CommitWrites, Apply;
    var ws := CommitWrites(g, d, lh, view);
    assert ws[..|ws|] == ws;
    CommitInterrupted(g, d, lh, view, |ws|);
    forall b | 0 <= b < |d| ensures Apply(view, ws)[b] == Apply(d, ws)[b] {
      CommitAgree(g, d, lh, view, b);
    }
  }

  lemma CommitAgree(g: Region, d: Disk, lh: seq<int>, view: Disk, b: nat)
    requires Settled(g, d, view, lh) && b < |d|
    ensures
      var ws := CommitWrites(g, d, lh, view);
      Apply(view, ws)[b] == Apply(d, ws)[b]
  {
    hide Apply;
    var ws := CommitWrites(g, d, lh, view);
    if b in lh {
      var i :| 0 <= i < |lh| && lh[i] == b;
      assert ws[|lh| + 1 + i].blockno == b;
    }
    ApplyAgree(view, d, ws, b);
  }
}
