/**
 The log's use of the buffer cache: which blocks are pinned, which have changed contents that
 are neither logged nor written yet, and why every buffer is safe to release.
 */
module LogCache {
  import opened BlockDisk
  import opened RedoLog
  import opened Bio

  /**
   pinned: blocks log_write has pinned and install_trans has not unpinned. stuck: blocks
   install_trans has unpinned without a pin. dirty: blocks whose locked buffer was stored
   into, and neither logged nor written since.
   */
  datatype Marks = Marks(pinned: set<int>, stuck: set<int>, dirty: set<int>)

  function One(b: bool): int { if b then 1 else 0 }

  function PinsOf(buf: Buf, m: Marks): int {
    if buf.dev != ROOTDEV then 0 else One(buf.blockno in m.pinned) - One(buf.blockno in m.stuck)
  }

  ghost predicate PinsMatch(s: State, m: Marks)
    requires s.Sized()
  {
    forall i :: 0 <= i < |s.bufs| ==> s.refs.pins[i] == PinsOf(s.bufs[i], m)
  }

  ghost predicate Cached(bufs: seq<Buf>, bs: set<int>) {
    forall b :: b in bs ==> exists i :: Caches(bufs, i, b)
  }

  ghost predicate Grips(bufs: seq<Buf>, i: int, b: int) {
    Caches(bufs, i, b) && bufs[i].locked
  }

  ghost predicate Gripped(bufs: seq<Buf>, bs: set<int>) {
    forall b :: b in bs ==> exists i :: Grips(bufs, i, b)
  }

  /** A block whose disk contents are out of date is pinned, or its buffer is locked. */
  ghost predicate Accounted(s: State, m: Marks) {
    |s.logical| == |s.disk| && forall b :: 0 <= b < |s.disk| && s.disk[b] != s.logical[b] ==>
        b in m.pinned || b in m.dirty
  }

  ghost predicate Held(s: State, m: Marks) {
    && Tracked(s) && PinsMatch(s, m)
    && Cached(s.bufs, m.pinned) && Cached(s.bufs, m.stuck) && m.pinned !! m.stuck
    && Gripped(s.bufs, m.dirty) && m.dirty !! m.stuck && Accounted(s, m)
  }

  /** Nobody has a buffer whose count is one too low. */
  ghost predicate Unstuck(s: State, m: Marks) {
    s.Sized() && forall i :: 0 <= i < |s.bufs| && s.bufs[i].dev == ROOTDEV && s.bufs[i].blockno in m.stuck ==>
        s.refs.users[i] == 0
  }

  ghost predicate Unharmed(m: Marks) {
    forall b :: b !in m.stuck
  }

  lemma Harmed(m: Marks, b: int)
    requires b in m.stuck
    ensures !Unharmed(m)
  {
  }

  lemma HeldBacked(s: State, m: Marks)
    requires Held(s, m)
    ensures Sound(s) <==> Unharmed(m)
  {
    hide Tracked;
    TrackedSized(s);
    if b :| b in m.stuck {
      var i :| Caches(s.bufs, i, b);
      assert s.refs.pins[i] == -1;
    }
  }

  // ---- one lemma per operation

  /** The step changed buffer i alone, and neither which block it is for nor whether it is valid. */
  ghost predicate SameBlock(s: State, t: State, i: int) {
    && Ready(s, i) && |t.bufs| == |s.bufs| && t.bufs == s.bufs[i := t.bufs[i]]
    && t.bufs[i].dev == s.bufs[i].dev && t.bufs[i].blockno == s.bufs[i].blockno
    && (s.bufs[i].valid ==> t.bufs[i].valid)
  }

  lemma CachedStays(s: State, t: State, i: int, bs: set<int>)
    requires SameBlock(s, t, i) && Cached(s.bufs, bs)
    ensures Cached(t.bufs, bs)
  {
    forall b | b in bs ensures exists j :: Caches(t.bufs, j, b) {
      var j :| Caches(s.bufs, j, b);
      assert Caches(t.bufs, j, b);
    }
  }

  lemma GrippedStays(s: State, t: State, i: int, bs: set<int>)
    requires SameBlock(s, t, i) && Gripped(s.bufs, bs)
    requires (s.bufs[i].locked && s.bufs[i].blockno in bs ==> t.bufs[i].locked)
    ensures Gripped(t.bufs, bs)
  {
    forall b | b in bs ensures exists j :: Grips(t.bufs, j, b) {
      var j :| Grips(s.bufs, j, b);
      assert Grips(t.bufs, j, b);
    }
  }

  /** Counts, locks and validity may change as long as the marks still fit. */
  lemma HeldStays(s: State, t: State, i: int, m: Marks)
    requires Held(s, m) && SameBlock(s, t, i) && Tracked(t) && t.refs.pins == s.refs.pins
    requires t.disk == s.disk && t.logical == s.logical
    requires s.bufs[i].locked && s.bufs[i].blockno in m.dirty ==> t.bufs[i].locked
    ensures Held(t, m)
  {
    hide Tracked, Cached, Gripped;
    CachedStays(s, t, i, m.pinned);
    CachedStays(s, t, i, m.stuck);
    GrippedStays(s, t, i, m.dirty);
  }

  lemma HeldHit(s: State, i: int, m: Marks)
    requires Held(s, m) && Ready(s, i) && s.bufs[i].dev == ROOTDEV && s.bufs[i].blockno !in m.stuck
    requires s.Of(i) < UINT_SPAN - 1
    ensures Held(Hit(s, i), m)
  {
    hide Tracked, Cached, Gripped;
    TrackedSized(s);
    HitTracked(s, i);
    HeldStays(s, Hit(s, i), i, m);
  }

  lemma TrackedSized(s: State)
    requires Tracked(s)
    ensures s.Sized()
  {
  }

  /** A buffer with count 0 that is not stuck in somebody's hands is nobody's, and holds no marked block. */
  lemma SpareIsFree(s: State, v: int, m: Marks)
    requires Held(s, m) && Unstuck(s, m) && Ready(s, v) && s.bufs[v].refcnt == 0
    ensures s.refs.users[v] == 0 && s.refs.pins[v] == 0 && !s.bufs[v].locked
    ensures s.bufs[v].dev == ROOTDEV ==> s.bufs[v].blockno !in m.pinned && s.bufs[v].blockno !in m.stuck
  {
    hide Wrap;
    WrapZero(s.Of(v));
  }

  lemma CachedApart(bufs: seq<Buf>, v: int, buf: Buf, bs: set<int>)
    requires Cached(bufs, bs) && 0 <= v < |bufs| && (bufs[v].dev == ROOTDEV ==> bufs[v].blockno !in bs)
    ensures Cached(bufs[v := buf], bs)
  {
    var bufs' := bufs[v := buf];
    forall b | b in bs ensures exists j :: Caches(bufs', j, b) {
      var j :| Caches(bufs, j, b);
      assert Caches(bufs', j, b);
    }
  }

  lemma GrippedApart(bufs: seq<Buf>, v: int, buf: Buf, bs: set<int>)
    requires Gripped(bufs, bs) && 0 <= v < |bufs| && !bufs[v].locked
    ensures Gripped(bufs[v := buf], bs)
  {
    var bufs' := bufs[v := buf];
    forall b | b in bs ensures exists j :: Grips(bufs', j, b) {
      var j :| Grips(bufs, j, b);
      assert Grips(bufs', j, b);
    }
  }

  lemma MissingUnmarked(bufs: seq<Buf>, b: int, bs: set<int>)
    requires Missing(bufs, b) && Cached(bufs, bs)
    ensures b !in bs
  {
    assert forall i :: !Caches(bufs, i, b);
  }

  lemma HeldRecycle(s: State, v: int, b: int, m: Marks)
    requires Held(s, m) && Unstuck(s, m) && Ready(s, v) && s.bufs[v].refcnt == 0
    requires Missing(s.bufs, b) && 0 <= b < |s.disk|
    ensures Held(Recycle(s, v, b), m)
  {
    hide Tracked, Cached, Gripped, Missing, Unstuck;
    SpareIsFree(s, v, m);
    RecycleTracked(s, v, b);
    MissingUnmarked(s.bufs, b, m.pinned);
    MissingUnmarked(s.bufs, b, m.stuck);
    var buf := Recycled(s.bufs[v], b);
    CachedApart(s.bufs, v, buf, m.pinned);
    CachedApart(s.bufs, v, buf, m.stuck);
    GrippedApart(s.bufs, v, buf, m.dirty);
    TrackedSized(s);
  }

  lemma HeldGet(s: State, t: State, i: int, b: int, m: Marks)
    requires Held(s, m) && Got(s, t, i, b) && Gettable(s, m, b)
    ensures Held(t, m) && Ready(t, i) && t.refs.users[i] > 0 && Names(t.bufs[i], ROOTDEV, b)
  {
    hide Held, Missing, Unstuck;
    if Names(s.bufs[i], ROOTDEV, b) {
      HeldHit(s, i, m);
    } else {
      HeldRecycle(s, i, b, m);
    }
  }

  lemma HeldLock(s: State, i: int, m: Marks)
    requires Held(s, m) && Ready(s, i) && s.refs.users[i] > 0
    ensures Held(Lock(s, i), m)
    ensures s.bufs[i].blockno !in m.dirty ==> Held(Unlock(s, i), m)
  {
    hide Tracked, Cached, Gripped;
    LockTracked(s, i);
    HeldStays(s, Lock(s, i), i, m);
    if s.bufs[i].blockno !in m.dirty {
      HeldStays(s, Unlock(s, i), i, m);
    }
  }

  lemma HeldFill(s: State, i: int, m: Marks)
    requires Held(s, m) && Ready(s, i) && s.bufs[i].dev == ROOTDEV
    ensures OnDisk(s, i) && Held(Fill(s, i), m) && Fill(s, i).bufs[i].data == s.logical[s.bufs[i].blockno]
  {
    hide Tracked, Cached, Gripped;
    FillTracked(s, i);
    HeldStays(s, Fill(s, i), i, m);
  }

  lemma HeldStore(s: State, i: int, data: Block, m: Marks)
    requires Held(s, m) && Ready(s, i) && s.bufs[i].valid && s.bufs[i].locked && s.bufs[i].blockno !in m.stuck
    ensures OnDisk(s, i) && Held(Store(s, i, data), m.(dirty := m.dirty + {s.bufs[i].blockno}))
  {
    hide Cached, Gripped, Wrap;
    var t, b := Store(s, i, data), s.bufs[i].blockno;
    assert s.Of(i) > 0;
    StoreTracked(s, i, data);
    hide Tracked;
    CachedStays(s, t, i, m.pinned);
    CachedStays(s, t, i, m.stuck);
    GrippedStays(s, t, i, m.dirty);
    GrippedMore(t.bufs, i, b, m.dirty);
  }

  lemma GrippedMore(bufs: seq<Buf>, i: int, b: int, bs: set<int>)
    requires Gripped(bufs, bs) && Grips(bufs, i, b)
    ensures Gripped(bufs, bs + {b})
  {
  }

  lemma CachedMore(bufs: seq<Buf>, i: int, b: int, bs: set<int>)
    requires Cached(bufs, bs) && Caches(bufs, i, b)
    ensures Cached(bufs, bs + {b})
  {
  }

  lemma HeldFlush(s: State, i: int, m: Marks)
    requires Held(s, m) && Ready(s, i) && s.bufs[i].valid
    ensures OnDisk(s, i) && Held(Flush(s, i), m.(dirty := m.dirty - {s.bufs[i].blockno}))
  {
    hide Cached, Gripped, Wrap;
    FlushTracked(s, i);
    var t := Flush(s, i);
    assert Accounted(t, m.(dirty := m.dirty - {s.bufs[i].blockno})) by {
      assert t.disk[s.bufs[i].blockno] == t.logical[s.bufs[i].blockno];
    }
    hide Tracked;
    GrippedFewer(s.bufs, m.dirty, s.bufs[i].blockno);
  }

  lemma GrippedFewer(bufs: seq<Buf>, bs: set<int>, b: int)
    requires Gripped(bufs, bs)
    ensures Gripped(bufs, bs - {b})
  {
  }

  /** log_write of a block that is not in the list yet: pinned, and logged. */
  lemma HeldPin(s: State, i: int, m: Marks)
    requires Held(s, m) && Ready(s, i) && s.bufs[i].valid && s.bufs[i].locked && s.Of(i) < UINT_SPAN - 1
    requires s.bufs[i].blockno !in m.pinned && s.bufs[i].blockno !in m.stuck
    ensures Held(Pin(s, i), m.(pinned := m.pinned + {s.bufs[i].blockno}, dirty := m.dirty - {s.bufs[i].blockno}))
  {
    hide Cached, Gripped, Wrap;
    var t, b := Pin(s, i), s.bufs[i].blockno;
    PinTracked(s, i);
    PinsAfter(s, i, b, m, m.(pinned := m.pinned + {b}));
    hide Tracked;
    CachedStays(s, t, i, m.pinned);
    CachedStays(s, t, i, m.stuck);
    CachedMore(t.bufs, i, b, m.pinned);
    GrippedStays(s, t, i, m.dirty);
    GrippedFewer(t.bufs, m.dirty, b);
  }

  /** A mark on one block concerns the one buffer that is for it. */
  lemma PinsAfter(s: State, i: int, b: int, m: Marks, m': Marks)
    requires s.Sized() && Unique(s.bufs, |s.disk|) && PinsMatch(s, m) && 0 <= i < |s.bufs|
    requires Names(s.bufs[i], ROOTDEV, b)
    requires forall c :: c != b ==> (c in m.pinned <==> c in m'.pinned) && (c in m.stuck <==> c in m'.stuck)
    ensures forall j :: 0 <= j < |s.bufs| && j != i ==> s.refs.pins[j] == PinsOf(s.bufs[j], m')
  {
  }

  /** log_write of a block that is in the list: nothing changes but that its contents are logged. */
  lemma HeldAbsorb(s: State, b: int, m: Marks)
    requires Held(s, m) && b in m.pinned
    ensures Held(s, m.(dirty := m.dirty - {b}))
  {
    hide Tracked, Cached, Gripped;
    GrippedFewer(s.bufs, m.dirty, b);
  }

  /**
   Whoever releases a reference that is not the lock holder's finds the buffer clean: a block
   that is out of date is pinned, which is a second reference, or its buffer is locked.
   */
  lemma ReleaseIsClean(s: State, i: int, m: Marks)
    requires Held(s, m) && Ready(s, i) && s.refs.users[i] > One(s.bufs[i].locked)
    ensures Clean(s, i) && s.Of(i) > -UINT_SPAN + 1
  {
    hide Wrap;
    var b := s.bufs[i].blockno;
    if b in m.dirty {
      var j :| Grips(s.bufs, j, b);
      assert j == i && s.refs.pins[i] >= 0;
    } else if b in m.pinned {
      assert s.refs.pins[i] == 1;
    }
  }

  lemma HeldDrop(s: State, i: int, m: Marks)
    requires Held(s, m) && Ready(s, i) && s.refs.users[i] > One(s.bufs[i].locked)
    ensures Held(Drop(s, i), m)
  {
    hide Tracked, Cached, Gripped, Clean;
    ReleaseIsClean(s, i, m);
    DropTracked(s, i);
    HeldStays(s, Drop(s, i), i, m);
  }

  function Unmarked(m: Marks, b: int): Marks {
    if b in m.pinned then m.(pinned := m.pinned - {b}) else m.(stuck := m.stuck + {b})
  }

  /** bunpin of a buffer whose contents are on the disk: its pin goes, or it is one short. */
  lemma HeldUnpin(s: State, i: int, m: Marks)
    requires Held(s, m) && Ready(s, i) && s.bufs[i].valid && s.bufs[i].locked
    requires s.bufs[i].blockno !in m.stuck && s.bufs[i].blockno !in m.dirty
    requires OnDisk(s, i) && s.disk[s.bufs[i].blockno] == s.logical[s.bufs[i].blockno]
    ensures Held(Unpin(s, i), Unmarked(m, s.bufs[i].blockno))
  {
    hide Cached, Gripped, Wrap;
    var t, b := Unpin(s, i), s.bufs[i].blockno;
    assert s.Of(i) > 0 && Clean(s, i);
    UnpinTracked(s, i);
    PinsAfter(s, i, b, m, Unmarked(m, b));
    assert PinsMatch(t, Unmarked(m, b));
    hide Tracked;
    CachedStays(s, t, i, m.pinned);
    CachedStays(s, t, i, m.stuck);
    CachedMore(t.bufs, i, b, m.stuck);
    CachedFewer(t.bufs, m.pinned, b);
    GrippedStays(s, t, i, m.dirty);
  }

  lemma CachedFewer(bufs: seq<Buf>, bs: set<int>, b: int)
    requires Cached(bufs, bs)
    ensures Cached(bufs, bs - {b})
  {
  }

  // ---- bread and brelse

  /** bget may take block b: the counts are right and its own is not at its limit. */
  ghost predicate Gettable(s: State, m: Marks, b: int) {
    0 <= b < |s.disk| && Unstuck(s, m) && b !in m.stuck && Countable(s, b)
  }

  /** bread need not wait, since nobody has the buffer locked. */
  ghost predicate Fetchable(s: State, m: Marks, b: int) {
    && Gettable(s, m, b)
    && forall i :: 0 <= i < |s.bufs| && Names(s.bufs[i], ROOTDEV, b) ==> !s.bufs[i].locked
  }

  /** bread of block b, into buffer i. */
  ghost function Fetched(s: State, i: int, b: int): State
    requires Ready(s, i) && 0 <= b < |s.disk|
  {
    Fill(Lock(if Names(s.bufs[i], ROOTDEV, b) then Hit(s, i) else Recycle(s, i, b), i), i)
  }

  /** brelse of buffer i. */
  ghost function Released(s: State, i: int): State
    requires Ready(s, i) && s.refs.users[i] > 0
  {
    Drop(Unlock(s, i), i)
  }

  /** What bread leaves: the locked buffer holds the block, every other buffer is as it was. */
  ghost predicate Fetch(s: State, t: State, i: int, b: int) {
    && Ready(s, i) && t.Sized() && |t.bufs| == |s.bufs| && t.bufs == s.bufs[i := t.bufs[i]] && !s.bufs[i].locked
    && Grips(t.bufs, i, b) && t.disk == s.disk && t.logical == s.logical
    && 0 <= b < |t.disk| && t.bufs[i].data == t.logical[b]
    && t.refs == s.refs.(users := s.refs.users[i := s.refs.users[i] + 1])
    && (Names(s.bufs[i], ROOTDEV, b) || (s.refs.users[i] == 0 == s.refs.pins[i] && Missing(s.bufs, b)))
  }

  /** The slot bget gives is one nobody has locked. */
  lemma GotUnlocked(s: State, t: State, i: int, b: int, m: Marks)
    requires Held(s, m) && Fetchable(s, m, b) && Got(s, t, i, b)
    ensures !s.bufs[i].locked && !t.bufs[i].locked && Ready(t, i) && t.refs.users[i] > 0 && Names(t.bufs[i], ROOTDEV, b)
    ensures !Names(s.bufs[i], ROOTDEV, b) ==> s.refs.users[i] == 0 == s.refs.pins[i]
  {
    hide Held, Missing, Unstuck, Countable;
    if !Names(s.bufs[i], ROOTDEV, b) {
      SpareIsFree(s, i, m);
    }
  }

  lemma FetchHeld(s: State, t: State, i: int, b: int, m: Marks)
    requires Held(s, m) && Fetchable(s, m, b) && Got(s, t, i, b)
    ensures Ready(t, i) && OnDisk(Lock(t, i), i)
    ensures Held(t, m) && Held(Lock(t, i), m) && Held(Fill(Lock(t, i), i), m)
    ensures Fetch(s, Fill(Lock(t, i), i), i, b)
  {
    hide Held, Missing, Unstuck, Countable, Wrap;
    GotUnlocked(s, t, i, b, m);
    HeldGet(s, t, i, b, m);
    HeldLock(t, i, m);
    HeldFill(Lock(t, i), i, m);
  }

  lemma ReleaseHeld(s: State, i: int, m: Marks)
    requires Held(s, m) && Ready(s, i) && s.bufs[i].locked && s.bufs[i].blockno !in m.dirty
    ensures s.refs.users[i] > 0 && Held(Unlock(s, i), m) && Held(Released(s, i), m)
  {
    hide Cached, Gripped, Wrap;
    assert s.refs.users[i] > 0;
    HeldLock(s, i, m);
    HeldDrop(Unlock(s, i), i, m);
  }

  /** After bread of one block, another that could be read still can be. */
  lemma FetchOther(s: State, t: State, i: int, b: int, c: int, m: Marks)
    requires Fetch(s, t, i, b) && b != c && Fetchable(s, m, b) && Fetchable(s, m, c)
    ensures Fetchable(t, m, c)
  {
    hide Held, Wrap;
  }

  /** All references taken since are given back, and whoever had a buffer still has it. */
  ghost predicate Balanced(s: State, t: State) {
    && s.Sized() && t.Sized() && |t.bufs| == |s.bufs| && |t.disk| == |s.disk| && t.refs.users == s.refs.users
    && forall j :: 0 <= j < |s.bufs| ==>
         && t.bufs[j].locked == s.bufs[j].locked
         && (s.refs.users[j] > 0 ==> t.bufs[j].dev == s.bufs[j].dev && t.bufs[j].blockno == s.bufs[j].blockno)
  }

  /** Some buffer has no references, so bget finds one. */
  lemma SpareByRefs(s: State, m: Marks, i: int)
    requires Held(s, m) && Ready(s, i)
    ensures s.bufs[i].refcnt == 0 <==> s.Of(i) == 0
  {
    hide Wrap;
    WrapZero(s.Of(i));
  }

  lemma SameSpares(s: State, t: State, m: Marks, m': Marks)
    requires Held(s, m) && Held(t, m') && |t.bufs| == |s.bufs| && t.refs == s.refs
    ensures AllHeld(t.bufs) <==> AllHeld(s.bufs)
  {
    hide Held;
    HeldSized(s, m);
    HeldSized(t, m');
    forall i | 0 <= i < |s.bufs| ensures t.bufs[i].refcnt == 0 <==> s.bufs[i].refcnt == 0 {
      SpareByRefs(s, m, i);
      SpareByRefs(t, m', i);
    }
  }

  lemma HeldSized(s: State, m: Marks)
    requires Held(s, m)
    ensures s.Sized()
  {
  }

  // ---- copying one block to another through the cache

  /** Two blocks read at once are in different buffers; giving both back leaves the references as they were. */
  lemma BothReleased(s: State, s1: State, s2: State, t: State, i: int, b: int, j: int, c: int)
    requires Fetch(s, s1, i, b) && Fetch(s1, s2, j, c) && b != c
    requires Ready(t, i) && Ready(t, j) && |t.bufs| == |s.bufs| && |t.disk| == |s.disk| && t.refs.users == s2.refs.users
    requires forall k :: 0 <= k < |t.bufs| ==>
               t.bufs[k].dev == s2.bufs[k].dev && t.bufs[k].blockno == s2.bufs[k].blockno
    requires forall k :: 0 <= k < |t.bufs| ==> t.bufs[k].locked == s2.bufs[k].locked
    ensures i != j && t.refs.users[j] > 0 && Ready(Released(t, j), i) && Released(t, j).refs.users[i] > 0
    ensures Balanced(s, Released(Released(t, j), i)) && Balanced(s, Released(Released(t, i), j))
  {
    hide Missing, Wrap;
    var u := Released(t, j);
    assert Released(u, i).refs.users == s.refs.users;
    assert Released(Released(t, i), j).refs.users == s.refs.users;
  }

  /** bread of both, a store into the first and bwrite, brelse of both: the copy is on the disk. */
  lemma CopyEffect(s: State, s1: State, s2: State, to: int, tb: int, from: int, fb: int)
    requires Fetch(s, s1, to, tb) && Fetch(s1, s2, from, fb) && tb != fb
    ensures OnDisk(s2, to) && OnDisk(Store(s2, to, s2.bufs[from].data), to)
    ensures
      var t := Flush(Store(s2, to, s2.bufs[from].data), to);
      && to != from && t.refs.users[from] > 0 && Ready(t, from)
      && var u := Released(t, from);
      && Ready(u, to) && u.refs.users[to] > 0
      && var r := Released(u, to);
      && Balanced(s, r) && r.refs == s.refs
      && r.disk == s.disk[tb := s.logical[fb]] && r.logical == s.logical[tb := s.logical[fb]]
  {
    hide Missing, Wrap;
    var t := Flush(Store(s2, to, s2.bufs[from].data), to);
    BothReleased(s, s1, s2, t, to, tb, from, fb);
  }

  /** Nobody uses the block's buffer, if it has one. */
  ghost predicate Unused(s: State, m: Marks, b: int) {
    && s.Sized() && b !in m.pinned && b !in m.stuck
    && forall i :: 0 <= i < |s.bufs| && Names(s.bufs[i], ROOTDEV, b) ==> s.refs.users[i] == 0
  }

  /** bread of such a block takes a buffer with count 0, so there was one. */
  lemma SpareTaken(s: State, t: State, i: int, b: int, m: Marks)
    requires Held(s, m) && Unused(s, m, b) && Fetch(s, t, i, b)
    ensures !AllHeld(s.bufs) && s.refs.users[i] == 0 == s.refs.pins[i]
  {
    hide Tracked, Cached, Gripped, Missing;
    assert s.Of(i) == 0;
    SpareByRefs(s, m, i);
  }

  lemma PinnedNotMissing(s: State, b: int, m: Marks)
    requires Held(s, m) && b in m.pinned
    ensures !Missing(s.bufs, b)
  {
    hide Tracked;
    var i :| Caches(s.bufs, i, b);
    assert Names(s.bufs[i], ROOTDEV, b);
  }

  /** bread of one block, a store and bwrite, brelse. */
  lemma PutEffect(s: State, s1: State, i: int, b: int, data: Block)
    requires Fetch(s, s1, i, b)
    ensures OnDisk(s1, i) && OnDisk(Store(s1, i, data), i)
    ensures
      var t := Flush(Store(s1, i, data), i);
      && Ready(t, i) && t.refs.users[i] > 0
      && var r := Released(t, i);
      && Balanced(s, r) && r.refs == s.refs && r.disk == s.disk[b := data] && r.logical == s.logical[b := data]
  {
    hide Missing, Wrap;
    var r := Released(Flush(Store(s1, i, data), i), i);
    assert r.refs.users == s.refs.users;
  }

  /** bread and brelse. */
  lemma GetEffect(s: State, s1: State, i: int, b: int)
    requires Fetch(s, s1, i, b)
    ensures
      && Ready(s1, i) && s1.refs.users[i] > 0
      && var r := Released(s1, i);
      Balanced(s, r) && r.refs == s.refs && r.disk == s.disk && r.logical == s.logical
  {
    hide Missing, Wrap;
    var r := Released(s1, i);
    assert r.refs.users == s.refs.users;
  }

  /** install_trans's iteration: the copy is on the disk and the home block has one pin less. */
  lemma InstallEffect(s: State, s1: State, s2: State, l: int, lb: int, d: int, hb: int)
    requires Fetch(s, s1, l, lb) && Fetch(s1, s2, d, hb) && lb != hb
    ensures OnDisk(s2, d) && OnDisk(Store(s2, d, s2.bufs[l].data), d)
    ensures
      var t := Unpin(Flush(Store(s2, d, s2.bufs[l].data), d), d);
      && l != d && t.refs.users[l] > 0 && Ready(t, l)
      && var u := Released(t, l);
      && Ready(u, d) && u.refs.users[d] > 0
      && var r := Released(u, d);
      && Balanced(s, r) && r.refs == s.refs.(pins := s.refs.pins[d := s.refs.pins[d] - 1])
      && r.disk == s.disk[hb := s.logical[lb]] && r.logical == s.logical[hb := s.logical[lb]]
      && (forall k :: 0 <= k < |s.bufs| && k != l && k != d ==> r.bufs[k] == s.bufs[k])
      && Caches(r.bufs, l, lb) && Caches(r.bufs, d, hb)
  {
    hide Missing, Wrap, Balanced;
    var t := Unpin(Flush(Store(s2, d, s2.bufs[l].data), d), d);
    BothReleased(s, s1, s2, t, l, lb, d, hb);
  }

  // ---- a stretch of log code that runs without waiting

  function Elems(lh: seq<int>): set<int> { set b | b in lh }

  /** Nobody but the log code uses the log's own blocks. */
  ghost predicate LogIdle(g: Region, s: State) {
    && s.Sized()
    && forall i :: 0 <= i < |s.bufs| && s.bufs[i].dev == ROOTDEV && InLog(g, s.bufs[i].blockno) ==> s.refs.users[i] == 0
  }

  /** Nor has anybody locked a block of the list, or taken 2^32 references. */
  ghost predicate Ours(g: Region, s: State, lh: seq<int>) {
    && LogIdle(g, s)
    && (forall i :: 0 <= i < |s.bufs| && s.bufs[i].dev == ROOTDEV && s.bufs[i].blockno in lh ==> !s.bufs[i].locked)
    && (forall i :: 0 <= i < |s.bufs| ==> s.Of(i) < UINT_SPAN - 1)
  }

  lemma OursKept(g: Region, s: State, t: State, lh: seq<int>, m: Marks)
    requires Held(s, m) && Ours(g, s, lh) && Balanced(s, t)
    requires forall i :: 0 <= i < |s.bufs| ==> t.refs.pins[i] <= s.refs.pins[i]
    ensures Ours(g, t, lh)
  {
    hide Cached, Gripped, PinsMatch, Accounted, Wrap, Unique, Coherent;
  }

  lemma LogFetchable(g: Region, s: State, m: Marks, lh: seq<int>, b: int)
    requires Held(s, m) && Ours(g, s, lh) && Unstuck(s, m) && 0 <= b < |s.disk| && InLog(g, b)
    requires b !in m.pinned && b !in m.stuck
    ensures Fetchable(s, m, b) && Unused(s, m, b)
  {
    hide Cached, Gripped, PinsMatch, Accounted, Wrap, Unique, Coherent;
  }

  lemma ListFetchable(g: Region, s: State, m: Marks, lh: seq<int>, b: int)
    requires Held(s, m) && Ours(g, s, lh) && Unstuck(s, m) && 0 <= b < |s.disk| && b in lh && b !in m.stuck
    ensures Fetchable(s, m, b)
  {
    hide Held, Wrap;
  }

  lemma ElemsTail(lh: seq<int>, k: nat)
    requires Distinct(lh) && k < |lh|
    ensures lh[k] in Elems(lh[k..]) && Elems(lh[k..]) - {lh[k]} == Elems(lh[k + 1..])
  {
    assert lh[k..][0] == lh[k];
    forall b ensures b in Elems(lh[k..]) - {lh[k]} <==> b in Elems(lh[k + 1..]) {
      if b in lh[k..] && b != lh[k] {
        var i :| 0 <= i < |lh[k..]| && lh[k..][i] == b;
        assert lh[k + 1..][i - 1] == b;
      }
      if b in lh[k + 1..] {
        var i :| 0 <= i < |lh[k + 1..]| && lh[k + 1..][i] == b;
        assert lh[k..][i + 1] == b && lh[k + 1 + i] == b;
      }
    }
  }

  lemma ElemsFront(lh: seq<int>, k: nat)
    requires Distinct(lh) && k < |lh|
    ensures lh[k] !in Elems(lh[..k]) && Elems(lh[..k]) + {lh[k]} == Elems(lh[..k + 1])
  {
    assert lh[..k + 1] == lh[..k] + [lh[k]];
  }

  // ---- recovery

  /**
   The cache while recovery runs: nobody else has a buffer, only log blocks, installed blocks
   and those `seen` before recovery are cached, and the installed ones that were not seen
   before stand at the old end of the list.
   */
  ghost predicate Booted(g: Region, s: State, stamp: seq<int>, stuck: set<int>, seen: set<int>) {
    && s.Sized() && |stamp| == |s.bufs|
    && (forall i :: 0 <= i < |s.bufs| ==> s.refs.users[i] == 0)
    && (forall i :: 0 <= i < |s.bufs| && s.bufs[i].dev == ROOTDEV ==>
          InLog(g, s.bufs[i].blockno) || s.bufs[i].blockno in stuck || s.bufs[i].blockno in seen)
    && (forall i, j :: 0 <= i < |s.bufs| && 0 <= j < |s.bufs| && s.refs.pins[i] != 0 && s.refs.pins[j] == 0
                       && s.bufs[i].blockno !in seen ==>
          stamp[i] < stamp[j])
  }

  /** Using a log block, or one seen before, and giving it back. */
  lemma BootedPut(g: Region, s: State, r: State, stamp: seq<int>, clock: int, i: int, b: int,
          stuck: set<int>, seen: set<int>)
    requires Booted(g, s, stamp, stuck, seen) && Ready(s, i) && s.refs.pins[i] == 0 && (InLog(g, b) || b in seen)
    requires r.Sized() && |r.bufs| == |s.bufs| && r.bufs == s.bufs[i := r.bufs[i]] && Names(r.bufs[i], ROOTDEV, b)
    requires r.refs == s.refs && Stamped(stamp, clock)
    ensures Booted(g, r, stamp[i := clock], stuck, seen)
  {
  }

  /** Installing a block: its buffer was the oldest without references, and stays behind all that have none. */
  lemma BootedInstall(g: Region, s: State, r: State, stamp: seq<int>, clock: int, l: int, lb: int,
          d: int, hb: int, stuck: set<int>, seen: set<int>)
    requires Booted(g, s, stamp, stuck, seen) && Ready(s, l) && Ready(s, d) && l != d && InLog(g, lb)
    requires s.refs.pins[l] == 0 == s.refs.pins[d]
    requires r.Sized() && |r.bufs| == |s.bufs| && Names(r.bufs[l], ROOTDEV, lb) && Names(r.bufs[d], ROOTDEV, hb)
    requires forall k :: 0 <= k < |s.bufs| && k != l && k != d ==> r.bufs[k] == s.bufs[k]
    requires r.refs == s.refs.(pins := s.refs.pins[d := -1])
    requires forall k :: 0 <= k < |stamp| ==> stamp[k] < clock
    requires hb !in seen ==>
               forall k :: 0 <= k < |stamp| && k != l && k != d && s.refs.pins[k] == 0 ==> stamp[d] < stamp[k]
    ensures Booted(g, r, stamp[l := clock], stuck + {hb}, seen)
  {
  }

  /** Buffers for different blocks, all in bs: there are no more of them than bs has elements. */
  lemma {:induction false} Pigeons(bufs: seq<Buf>, blocks: nat, bs: set<int>, n: nat, but: int)
    requires Unique(bufs, blocks) && n <= |bufs|
    requires forall i :: 0 <= i < n && i != but ==> bufs[i].dev == ROOTDEV && bufs[i].blockno in bs
    ensures n - One(0 <= but < n) <= |bs|
    decreases n
  {
    if n > 0 {
      if but == n - 1 {
        Pigeons(bufs, blocks, bs, n - 1, but);
      } else {
        var b := bufs[n - 1].blockno;
        forall i | 0 <= i < n - 1 && i != but ensures bufs[i].blockno in bs - {b} {
          assert bufs[n - 1].dev == ROOTDEV;
        }
        Pigeons(bufs, blocks, bs - {b}, n - 1, but);
      }
    }
  }

  /** If all buffers but one are referenced during recovery, almost as many blocks are installed. */
  lemma BootedRoom(g: Region, s: State, stamp: seq<int>, m: Marks, seen: set<int>, but: int)
    requires Held(s, m) && Booted(g, s, stamp, m.stuck, seen) && (forall b :: b !in m.pinned)
    requires forall i :: 0 <= i < |s.bufs| && i != but ==> s.bufs[i].refcnt != 0
    ensures |s.bufs| - One(0 <= but < |s.bufs|) <= |m.stuck|
  {
    hide Cached, Gripped, Wrap, Booted;
    BootedUsers(g, s, stamp, m.stuck, seen);
    forall i | 0 <= i < |s.bufs| && i != but ensures s.bufs[i].dev == ROOTDEV && s.bufs[i].blockno in m.stuck {
      SpareByRefs(s, m, i);
    }
    Pigeons(s.bufs, |s.disk|, m.stuck, |s.bufs|, but);
  }

  lemma BootedUsers(g: Region, s: State, stamp: seq<int>, stuck: set<int>, seen: set<int>)
    requires Booted(g, s, stamp, stuck, seen)
    ensures forall i :: 0 <= i < |s.bufs| ==> s.refs.users[i] == 0
  {
  }

  /** install_trans used buffers l and d and no others. */
  ghost predicate Used(s: State, r: State, l: int, lb: int, d: int, hb: int) {
    && Ready(s, l) && Ready(s, d) && l != d && r.Sized() && |r.bufs| == |s.bufs|
    && (forall k :: 0 <= k < |s.bufs| && k != l && k != d ==> r.bufs[k] == s.bufs[k])
    && Names(r.bufs[l], ROOTDEV, lb) && Names(r.bufs[d], ROOTDEV, hb)
    && r.refs == s.refs.(pins := s.refs.pins[d := s.refs.pins[d] - 1])
  }

  /** The pins of the home block before, read off the marks after. */
  lemma PinsBefore(s: State, r: State, l: int, lb: int, d: int, hb: int, m: Marks)
    requires Used(s, r, l, lb, d, hb) && hb !in m.stuck && Held(r, Unmarked(m, hb))
    ensures s.refs.pins[d] == One(hb in m.pinned)
  {
    hide Tracked, Cached, Gripped;
  }

  /** Unpinning a pinned block leaves every buffer without references as it was. */
  lemma SparesStay(s: State, r: State, l: int, lb: int, d: int, hb: int, m: Marks)
    requires Held(s, m) && Used(s, r, l, lb, d, hb) && hb in m.pinned && hb !in m.stuck && Held(r, Unmarked(m, hb))
    ensures AllHeld(r.bufs) ==> AllHeld(s.bufs)
  {
    hide Held;
    PinsBefore(s, r, l, lb, d, hb, m);
    forall i | 0 <= i < |s.bufs| && AllHeld(r.bufs) ensures s.bufs[i].refcnt != 0 {
      SpareByRefs(s, m, i);
      SpareByRefs(r, Unmarked(m, hb), i);
    }
  }

  lemma InstallBooted(g: Region, s: State, s1: State, r: State, stamp: seq<int>, clock: int, l: int,
          lb: int, d: int, hb: int, m: Marks, seen: set<int>)
    requires Held(s, m) && Held(s1, m) && Booted(g, s, stamp, m.stuck, seen) && Used(s, r, l, lb, d, hb)
    requires InLog(g, lb) && !InLog(g, hb)
    requires hb !in m.pinned && hb !in m.stuck && Held(r, Unmarked(m, hb)) && s.refs.pins[l] == 0
    requires Fetch(s, s1, l, lb) && (Names(s1.bufs[d], ROOTDEV, hb) || Oldest(s1.bufs, stamp, d))
    requires Stamped(stamp, clock)
    ensures Booted(g, r, stamp[l := clock], m.stuck + {hb}, seen)
  {
    hide Held, Missing;
    PinsBefore(s, r, l, lb, d, hb, m);
    if hb !in seen {
      assert !Names(s1.bufs[d], ROOTDEV, hb) by {
        assert s1.bufs[d] == s.bufs[d];
      }
      forall k | 0 <= k < |stamp| && k != l && k != d && s.refs.pins[k] == 0 ensures stamp[d] < stamp[k] {
        assert s1.bufs[k] == s.bufs[k] && s.Of(k) == 0;
        SpareByRefs(s, m, k);
      }
    }
    BootedInstall(g, s, r, stamp, clock, l, lb, d, hb, m.stuck, seen);
  }

  /** The blocks the first n buffers are for, one buffer left out. */
  function BlocksOf(bufs: seq<Buf>, n: nat, but: int): set<int>
    requires n <= |bufs|
  {
    if n == 0 then {} else BlocksOf(bufs, n - 1, but) + if but == n - 1 then {} else {bufs[n - 1].blockno}
  }

  lemma {:induction false} BlocksOfAt(bufs: seq<Buf>, n: nat, but: int, i: int)
    requires n <= |bufs|
    ensures |BlocksOf(bufs, n, but)| <= n - One(0 <= but < n)
    ensures 0 <= i < n && i != but ==> bufs[i].blockno in BlocksOf(bufs, n, but)
    decreases n
  {
    if n > 0 {
      BlocksOfAt(bufs, n - 1, but, i);
    }
  }

  lemma ElemsLast(lh: seq<int>)
    requires lh != []
    ensures Elems(lh) == Elems(lh[..|lh| - 1]) + {lh[|lh| - 1]}
    ensures Distinct(lh) ==> Distinct(lh[..|lh| - 1]) && lh[|lh| - 1] !in Elems(lh[..|lh| - 1])
  {
    assert lh == lh[..|lh| - 1] + [lh[|lh| - 1]];
  }

  lemma {:induction false} FewElems(lh: seq<int>)
    ensures |Elems(lh)| <= |lh| && (Distinct(lh) ==> |Elems(lh)| == |lh|)
    decreases |lh|
  {
    if lh == [] {
      assert forall b :: b !in Elems(lh);
      assert |Elems(lh)| == 0;
    } else {
      ElemsLast(lh);
      hide Elems, Distinct;
      FewElems(lh[..|lh| - 1]);
    }
  }

  lemma Within(bs: set<int>, cs: set<int>)
    requires bs <= cs
    ensures |bs| <= |cs|
  {
    assert |cs - bs| + |bs| == |cs| by { assert (cs - bs) + bs == cs && (cs - bs) !! bs; }
  }

  /**
   With nobody holding a buffer, one has no references exactly when the blocks pinned or left a
   reference short are together fewer than the buffers.
   */
  lemma SpareIff(s: State, m: Marks, lh: seq<int>)
    requires Held(s, m) && m.pinned == Elems(lh) && Distinct(lh)
    requires forall i :: 0 <= i < |s.refs.users| ==> s.refs.users[i] == 0
    ensures !AllHeld(s.bufs) <==> |lh| + |m.stuck| < |s.bufs|
  {
    hide Tracked, Gripped, Wrap, Elems;
    TrackedSized(s);
    FewElems(lh);
    var marked := m.pinned + m.stuck;
    assert |marked| == |m.pinned| + |m.stuck|;
    if AllHeld(s.bufs) {
      forall i | 0 <= i < |s.bufs| ensures s.bufs[i].dev == ROOTDEV && s.bufs[i].blockno in marked {
        SpareByRefs(s, m, i);
      }
      TrackedUnique(s);
      Pigeons(s.bufs, |s.disk|, marked, |s.bufs|, -1);
    } else {
      var v :| 0 <= v < |s.bufs| && s.bufs[v].refcnt == 0;
      SpareByRefs(s, m, v);
      var others := BlocksOf(s.bufs, |s.bufs|, v);
      forall b | b in marked ensures b in others {
        var i :| Caches(s.bufs, i, b);
        BlocksOfAt(s.bufs, |s.bufs|, v, i);
      }
      BlocksOfAt(s.bufs, |s.bufs|, v, 0);
      Within(marked, others);
    }
  }

  lemma TrackedUnique(s: State)
    requires Tracked(s)
    ensures Unique(s.bufs, |s.disk|)
  {
  }
}
