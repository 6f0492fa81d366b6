/**
 The buffer cache of kernel/bio.c. `logical` is what each block of the disk holds as clients
 see it: its contents at first, then whatever was last stored into its locked buffer. The
 cache is transparent when a buffer read always holds that, whatever was evicted meanwhile.
 */
module Bio {
  import opened BlockDisk
  import opened BufferRing

  /** The one device; buffers that were never used still carry device 0. */
  const ROOTDEV: int := 1
  const UINT_SPAN: int := 0x1_0000_0000

  datatype Buf = Buf(valid: bool, dev: int, blockno: int, refcnt: int, locked: bool, data: Block)

  /** The value of a C uint; refcnt++ and refcnt-- on one. */
  function Wrap(n: int): int { n % UINT_SPAN }
  function Inc(refcnt: int): int { Wrap(refcnt + 1) }
  function Dec(refcnt: int): int { Wrap(refcnt - 1) }

  /** Per buffer: bget callers that have not released it, and bpin calls less bunpin calls. */
  datatype Refs = Refs(users: seq<nat>, pins: seq<int>)

  datatype State = State(bufs: seq<Buf>, refs: Refs, disk: Disk, logical: Disk) {
    ghost predicate Sized() {
      |refs.users| == |bufs| == |refs.pins| && |logical| == |disk|
    }

    /** The references a buffer really has. */
    ghost function Of(i: int): int
      requires Sized() && 0 <= i < |bufs|
    {
      refs.users[i] + refs.pins[i]
    }
  }

  predicate Names(b: Buf, dev: int, blockno: int) {
    b.dev == dev && b.blockno == blockno
  }

  ghost predicate Caches(bufs: seq<Buf>, i: int, blockno: int) {
    0 <= i < |bufs| && bufs[i].valid && Names(bufs[i], ROOTDEV, blockno)
  }

  /** refcnt counts the references, modulo 2^32. */
  ghost predicate Counted(s: State) {
    && s.Sized()
    && (forall i :: 0 <= i < |s.bufs| ==> -UINT_SPAN < s.Of(i) < UINT_SPAN && s.bufs[i].refcnt == Wrap(s.Of(i)))
    && (forall i :: 0 <= i < |s.bufs| && (s.refs.users[i] > 0 || s.refs.pins[i] != 0) ==> s.bufs[i].dev == ROOTDEV)
    && (forall i :: 0 <= i < |s.bufs| && s.bufs[i].locked ==> s.refs.users[i] > 0)
  }

  /** At most one buffer per block. */
  ghost predicate Unique(bufs: seq<Buf>, blocks: nat) {
    && (forall i :: 0 <= i < |bufs| ==>
          bufs[i].dev == 0 || (bufs[i].dev == ROOTDEV && 0 <= bufs[i].blockno < blocks))
    && (forall i :: 0 <= i < |bufs| && bufs[i].valid ==> bufs[i].dev == ROOTDEV)
    && (forall i, j :: 0 <= i < j < |bufs| && bufs[i].dev == ROOTDEV && bufs[j].dev == ROOTDEV ==>
          bufs[i].blockno != bufs[j].blockno)
  }

  /** Buffers hold the logical contents; a block that differs from the disk is in a held buffer. */
  ghost predicate Coherent(s: State)
    requires s.Sized() && Unique(s.bufs, |s.disk|)
  {
    && (forall i :: 0 <= i < |s.bufs| && s.bufs[i].valid ==> s.bufs[i].data == s.logical[s.bufs[i].blockno])
    && (forall i :: 0 <= i < |s.bufs| && s.bufs[i].valid && s.Of(i) == 0 ==>
          s.disk[s.bufs[i].blockno] == s.logical[s.bufs[i].blockno])
    && (forall b :: 0 <= b < |s.disk| && s.disk[b] != s.logical[b] ==> exists i :: Caches(s.bufs, i, b))
  }

  ghost predicate Tracked(s: State) {
    Counted(s) && Unique(s.bufs, |s.disk|) && Coherent(s)
  }

  /** Every bunpin had its bpin. */
  ghost predicate Backed(r: Refs) {
    forall i :: 0 <= i < |r.pins| ==> r.pins[i] >= 0
  }

  ghost predicate Sound(s: State) {
    Tracked(s) && Backed(s.refs)
  }

  /** No buffer is for this block. */
  ghost predicate Missing(bufs: seq<Buf>, blockno: int) {
    forall i :: 0 <= i < |bufs| ==> !Names(bufs[i], ROOTDEV, blockno)
  }

  ghost predicate AllHeld(bufs: seq<Buf>) {
    forall i :: 0 <= i < |bufs| ==> bufs[i].refcnt != 0
  }

  /** Buffer b is unreferenced and was released before every other unreferenced one. */
  ghost predicate Oldest(bufs: seq<Buf>, stamp: seq<int>, b: int) {
    && 0 <= b < |bufs| == |stamp| && bufs[b].refcnt == 0
    && forall i :: 0 <= i < |bufs| && bufs[i].refcnt == 0 ==> stamp[b] <= stamp[i]
  }

  // ---- the operations on values

  ghost predicate Ready(s: State, i: int) {
    s.Sized() && 0 <= i < |s.bufs|
  }

  /** The buffer is for a block of the disk. */
  ghost predicate OnDisk(s: State, i: int) {
    Ready(s, i) && 0 <= s.bufs[i].blockno < |s.disk|
  }

  ghost function WithBuf(s: State, i: int, b: Buf): State
    requires Ready(s, i)
  {
    s.(bufs := s.bufs[i := b])
  }

  ghost function WithUsers(s: State, i: int, n: nat): State
    requires Ready(s, i)
  {
    s.(refs := s.refs.(users := s.refs.users[i := n]))
  }

  ghost function WithPins(s: State, i: int, n: int): State
    requires Ready(s, i)
  {
    s.(refs := s.refs.(pins := s.refs.pins[i := n]))
  }

  /** bget finds its block. */
  ghost function Hit(s: State, i: int): State
    requires Ready(s, i)
  {
    WithUsers(WithBuf(s, i, s.bufs[i].(refcnt := Inc(s.bufs[i].refcnt))), i, s.refs.users[i] + 1)
  }

  function Recycled(b: Buf, blockno: int): Buf {
    b.(dev := ROOTDEV, blockno := blockno, valid := false, refcnt := 1)
  }

  /** bget takes buffer i for a block that has none. */
  ghost function Recycle(s: State, i: int, blockno: int): State
    requires Ready(s, i)
  {
    WithUsers(WithBuf(s, i, Recycled(s.bufs[i], blockno)), i, s.refs.users[i] + 1)
  }

  ghost function Lock(s: State, i: int): State
    requires Ready(s, i)
  {
    WithBuf(s, i, s.bufs[i].(locked := true))
  }

  ghost function Fill(s: State, i: int): State
    requires OnDisk(s, i)
  {
    if s.bufs[i].valid then s else WithBuf(s, i, s.bufs[i].(valid := true, data := s.disk[s.bufs[i].blockno]))
  }

  /** The holder of the lock changes the data. */
  ghost function Store(s: State, i: int, data: Block): State
    requires OnDisk(s, i)
  {
    WithBuf(s, i, s.bufs[i].(data := data)).(logical := s.logical[s.bufs[i].blockno := data])
  }

  ghost function Flush(s: State, i: int): State
    requires OnDisk(s, i)
  {
    s.(disk := s.disk[s.bufs[i].blockno := s.bufs[i].data])
  }

  /** brelse: releasesleep, then refcnt--. */
  ghost function Unlock(s: State, i: int): State
    requires Ready(s, i)
  {
    WithBuf(s, i, s.bufs[i].(locked := false))
  }

  ghost function Drop(s: State, i: int): State
    requires Ready(s, i) && s.refs.users[i] > 0
  {
    WithUsers(WithBuf(s, i, s.bufs[i].(refcnt := Dec(s.bufs[i].refcnt))), i, s.refs.users[i] - 1)
  }

  ghost function Pin(s: State, i: int): State
    requires Ready(s, i)
  {
    WithPins(WithBuf(s, i, s.bufs[i].(refcnt := Inc(s.bufs[i].refcnt))), i, s.refs.pins[i] + 1)
  }

  ghost function Unpin(s: State, i: int): State
    requires Ready(s, i)
  {
    WithPins(WithBuf(s, i, s.bufs[i].(refcnt := Dec(s.bufs[i].refcnt))), i, s.refs.pins[i] - 1)
  }

  // ---- one lemma per operation

  lemma WrapZero(n: int)
    requires -UINT_SPAN < n < UINT_SPAN
    ensures Wrap(n) == 0 <==> n == 0
    ensures n >= 0 ==> Wrap(n) == n
    ensures n == -1 ==> Wrap(n) == 0xFFFF_FFFF
  {
  }

  lemma WrapNext(n: int)
    ensures Inc(Wrap(n)) == Wrap(n + 1) && Dec(Wrap(n)) == Wrap(n - 1)
  {
  }

  /** A changed count is still the number of references, if it changes with them. */
  lemma Recounted(s: State, t: State, i: int)
    requires Counted(s) && Ready(s, i) && t.Sized() && |t.bufs| == |s.bufs|
    requires t.bufs == s.bufs[i := s.bufs[i].(refcnt := t.bufs[i].refcnt)] && s.bufs[i].dev == ROOTDEV
    requires t.refs.users == s.refs.users[i := t.refs.users[i]] && t.refs.pins == s.refs.pins[i := t.refs.pins[i]]
    requires -UINT_SPAN < t.Of(i) < UINT_SPAN && t.bufs[i].refcnt == Wrap(t.Of(i))
    requires s.bufs[i].locked ==> t.refs.users[i] > 0
    ensures Counted(t)
  {
    hide Wrap;
  }

  /** Changing counts and locks leaves every block where it was cached. */
  lemma SameBlocks(s: State, t: State)
    requires Tracked(s) && |t.bufs| == |s.bufs| && t.disk == s.disk && t.logical == s.logical && t.Sized()
    requires forall i :: 0 <= i < |s.bufs| ==>
               t.bufs[i] == s.bufs[i].(refcnt := t.bufs[i].refcnt, locked := t.bufs[i].locked)
    requires forall i :: 0 <= i < |s.bufs| && s.bufs[i].valid && t.Of(i) == 0 ==>
               s.Of(i) == 0 || s.disk[s.bufs[i].blockno] == s.bufs[i].data
    ensures Unique(t.bufs, |t.disk|) && Coherent(t)
  {
    hide Wrap;
    forall b | 0 <= b < |t.disk| && t.disk[b] != t.logical[b] ensures exists i :: Caches(t.bufs, i, b) {
      var i :| Caches(s.bufs, i, b);
      assert Caches(t.bufs, i, b);
    }
  }

  lemma HitTracked(s: State, i: int)
    requires Tracked(s) && Ready(s, i) && s.bufs[i].dev == ROOTDEV && 0 <= s.Of(i) < UINT_SPAN - 1
    ensures Tracked(Hit(s, i))
  {
    WrapNext(s.Of(i));
    Recounted(s, Hit(s, i), i);
    SameBlocks(s, Hit(s, i));
  }

  /** Recycling a buffer nobody has loses nothing: what it held is on the disk. */
  lemma RecycleTracked(s: State, v: int, blockno: int)
    requires Tracked(s) && Ready(s, v) && s.bufs[v].refcnt == 0 && s.refs.users[v] == 0 && 0 <= blockno < |s.disk|
    requires Missing(s.bufs, blockno)
    ensures Tracked(Recycle(s, v, blockno))
  {
    hide Wrap;
    var t := Recycle(s, v, blockno);
    WrapZero(s.Of(v));
    WrapZero(1);
    forall b | 0 <= b < |t.disk| && t.disk[b] != t.logical[b] ensures exists i :: Caches(t.bufs, i, b) {
      var i :| Caches(s.bufs, i, b);
      assert Caches(t.bufs, i, b);
    }
  }

  lemma LockTracked(s: State, i: int)
    requires Tracked(s) && Ready(s, i) && s.refs.users[i] > 0
    ensures Tracked(Lock(s, i)) && Tracked(Unlock(s, i))
  {
    hide Wrap;
    SameBlocks(s, Lock(s, i));
    SameBlocks(s, Unlock(s, i));
  }

  /** Filling an invalid buffer from the disk gives it the logical contents. */
  lemma FillTracked(s: State, i: int)
    requires Tracked(s) && Ready(s, i) && s.bufs[i].dev == ROOTDEV
    ensures OnDisk(s, i) && Tracked(Fill(s, i)) && Fill(s, i).bufs[i].data == s.logical[s.bufs[i].blockno]
  {
    hide Wrap;
    var t := Fill(s, i);
    if !s.bufs[i].valid {
      forall b | 0 <= b < |t.disk| && t.disk[b] != t.logical[b]
        ensures b != s.bufs[i].blockno && exists j :: Caches(t.bufs, j, b)
      {
        var j :| Caches(s.bufs, j, b);
        assert Caches(t.bufs, j, b);
      }
    }
  }

  lemma StoreTracked(s: State, i: int, data: Block)
    requires Tracked(s) && Ready(s, i) && s.bufs[i].valid && s.Of(i) > 0
    ensures OnDisk(s, i) && Tracked(Store(s, i, data))
  {
    hide Wrap, Coherent;
    StoreCoherent(s, i, data);
  }

  lemma StoreCoherent(s: State, i: int, data: Block)
    requires s.Sized() && Unique(s.bufs, |s.disk|) && Coherent(s) && Ready(s, i) && s.bufs[i].valid && s.Of(i) > 0
    ensures OnDisk(s, i) && Unique(Store(s, i, data).bufs, |s.disk|) && Coherent(Store(s, i, data))
  {
    var t := Store(s, i, data);
    forall b | 0 <= b < |t.disk| && t.disk[b] != t.logical[b] ensures exists j :: Caches(t.bufs, j, b) {
      if b == s.bufs[i].blockno {
        assert Caches(t.bufs, i, b);
      } else {
        var j :| Caches(s.bufs, j, b);
        assert Caches(t.bufs, j, b);
      }
    }
  }

  lemma FlushTracked(s: State, i: int)
    requires Tracked(s) && Ready(s, i) && s.bufs[i].valid
    ensures OnDisk(s, i) && Tracked(Flush(s, i))
  {
    hide Wrap;
  }

  /** A last reference may go only from a buffer that agrees with the disk. */
  ghost predicate Clean(s: State, i: int) {
    OnDisk(s, i) && (s.bufs[i].valid && s.Of(i) == 1 ==> s.disk[s.bufs[i].blockno] == s.bufs[i].data)
  }

  lemma DropTracked(s: State, i: int)
    requires Tracked(s) && Ready(s, i) && s.refs.users[i] > (if s.bufs[i].locked then 1 else 0) && Clean(s, i)
    requires s.Of(i) > -UINT_SPAN + 1
    ensures Tracked(Drop(s, i))
  {
    WrapNext(s.Of(i));
    Recounted(s, Drop(s, i), i);
    SameBlocks(s, Drop(s, i));
  }

  lemma PinTracked(s: State, i: int)
    requires Tracked(s) && Ready(s, i) && s.refs.users[i] > 0 && 0 <= s.Of(i) < UINT_SPAN - 1
    ensures Tracked(Pin(s, i))
  {
    WrapNext(s.Of(i));
    Recounted(s, Pin(s, i), i);
    SameBlocks(s, Pin(s, i));
  }

  lemma UnpinTracked(s: State, i: int)
    requires Tracked(s) && Ready(s, i) && s.refs.users[i] > 0 && s.Of(i) > 0 && Clean(s, i)
    ensures Tracked(Unpin(s, i))
  {
    WrapNext(s.Of(i));
    Recounted(s, Unpin(s, i), i);
    SameBlocks(s, Unpin(s, i));
  }

  // ---- least recently used

  /** `order` lists every buffer; earlier ones were moved to the front later. */
  ghost predicate Aged(order: seq<int>, stamp: seq<int>, clock: int) {
    && Slots(|stamp|, order)
    && (forall b :: 0 <= b < |stamp| ==> b in order && stamp[b] < clock)
    && (forall i, j :: 0 <= i < j < |order| ==> stamp[order[i]] > stamp[order[j]])
  }

  /** Each release has its own time. */
  ghost predicate Stamped(stamp: seq<int>, clock: int) {
    && (forall k :: 0 <= k < |stamp| ==> stamp[k] < clock)
    && (forall i, j :: 0 <= i < |stamp| && 0 <= j < |stamp| && i != j ==> stamp[i] != stamp[j])
  }

  lemma AgedStamps(order: seq<int>, stamp: seq<int>, clock: int)
    requires Aged(order, stamp, clock)
    ensures Stamped(stamp, clock)
  {
    forall i, j | 0 <= i < |stamp| && 0 <= j < |stamp| && i != j ensures stamp[i] != stamp[j] {
      assert i in order && j in order;
      var a :| 0 <= a < |order| && order[a] == i;
      var b :| 0 <= b < |order| && order[b] == j;
    }
  }

  lemma AgedAfterMove(order: seq<int>, stamp: seq<int>, clock: int, k: int)
    requires Aged(order, stamp, clock) && NoRepeats(order) && 0 <= k < |order|
    ensures Aged([order[k]] + Without(order, k), stamp[order[k] := clock], clock + 1)
  {
    hide Without;
    var b, r := order[k], Without(order, k);
    WithoutAt(order, k);
    WithoutSound(order, k);
    var order', stamp' := [b] + r, stamp[b := clock];
    forall i | 0 <= i < |order'| ensures 0 <= order'[i] < |stamp| {
      assert i > 0 ==> order'[i] == r[i - 1];
    }
    forall i, j | 0 <= i < j < |order'| ensures stamp'[order'[i]] > stamp'[order'[j]] {
      assert order'[j] == r[j - 1] && r[j - 1] in r;
      if i > 0 {
        assert order'[i] == r[i - 1] && r[i - 1] in r;
      }
    }
  }

  /** The last unreferenced buffer of the list is the one released longest ago. */
  lemma LastIsOldest(bufs: seq<Buf>, order: seq<int>, stamp: seq<int>, clock: int, k: int, i: int)
    requires Aged(order, stamp, clock) && |bufs| == |stamp| && 0 <= k < |order|
    requires forall j :: k < j < |order| ==> bufs[order[j]].refcnt != 0
    requires 0 <= i < |bufs| && bufs[i].refcnt == 0
    ensures stamp[order[k]] <= stamp[i]
  {
    assert i in order;
    var j :| 0 <= j < |order| && order[j] == i;
  }

  // ---- soundness of whole calls

  /** One more reference to the block's buffer does not overflow its count. */
  ghost predicate Countable(s: State, blockno: int) {
    s.Sized() && forall i :: 0 <= i < |s.bufs| && Names(s.bufs[i], ROOTDEV, blockno) ==> s.Of(i) < UINT_SPAN - 1
  }

  /** What bget does to the cache: one more reference to buffer i, for `blockno` from now on. */
  ghost predicate Got(s: State, t: State, i: int, blockno: int) {
    && Ready(s, i)
    && if Names(s.bufs[i], ROOTDEV, blockno) then t == Hit(s, i)
       else t == Recycle(s, i, blockno) && s.bufs[i].refcnt == 0 && Missing(s.bufs, blockno)
  }

  lemma GetSound(s: State, t: State, i: int, blockno: int)
    requires Sound(s) && Got(s, t, i, blockno) && 0 <= blockno < |s.disk| && Countable(s, blockno)
    ensures Sound(t)
  {
    if Names(s.bufs[i], ROOTDEV, blockno) {
      HitTracked(s, i);
    } else {
      WrapZero(s.Of(i));
      RecycleTracked(s, i, blockno);
    }
  }

  const NBUF: nat := 30

  class BufferCache {
    var bufs: seq<Buf>
    var next: seq<int>
    var prev: seq<int>
    var disk: Disk
    ghost var order: seq<int>
    ghost var stamp: seq<int>
    ghost var clock: int
    ghost var refs: Refs
    ghost var logical: Disk

    ghost function Now(): State
      reads this
    {
      State(bufs, refs, disk, logical)
    }

    /** The links form one ring of all buffers, in order of release. */
    ghost predicate Shaped()
      reads this
    {
      && |bufs| == NBUF == |stamp| && Now().Sized()
      && Ring(next, prev, NBUF, order)
      && Aged(order, stamp, clock)
    }

    ghost predicate Valid()
      reads this
    {
      Shaped() && Sound(Now())
    }

    /** binit: all buffers free and zeroed, the last one initialised at the front. */
    constructor (disk: Disk)
      ensures Valid() && this.disk == disk && logical == disk
      ensures bufs == seq(NBUF, _ => Buf(false, 0, 0, 0, false, ZeroBlock()))
      ensures refs == Refs(seq(NBUF, _ => 0), seq(NBUF, _ => 0))
    {
      this.disk, logical := disk, disk;
      bufs := seq(NBUF, _ => Buf(false, 0, 0, 0, false, ZeroBlock()));
      refs := Refs(seq(NBUF, _ => 0), seq(NBUF, _ => 0));
      var nx, pv := seq(NBUF + 1, _ => 0)[NBUF := NBUF], seq(NBUF + 1, _ => 0)[NBUF := NBUF];
      ghost var ring := [];
      var b := 0;
      while b < NBUF
        invariant 0 <= b <= NBUF && |ring| == b
        invariant Ring(nx, pv, NBUF, ring)
        invariant forall i :: 0 <= i < |ring| ==> ring[i] == b - 1 - i
      {
        PushRing(nx, pv, NBUF, ring, b);
        hide Ring;
        var first := nx[NBUF];
        nx := nx[b := first];
        pv := pv[b := NBUF];
        pv := pv[first := b];
        nx := nx[NBUF := b];
        ring := [b] + ring;
        b := b + 1;
      }
      forall i | 0 <= i < NBUF ensures i in ring {
        assert ring[NBUF - 1 - i] == i;
      }
      next, prev, order := nx, pv, ring;
      stamp, clock := seq(NBUF, i => i), NBUF;
    }

    /** bget's first loop: the buffer of a block, or NBUF. */
    method FindCached(blockno: int) returns (b: int)
      requires Shaped()
      ensures 0 <= b <= NBUF
      ensures b < NBUF ==> Names(bufs[b], ROOTDEV, blockno)
      ensures b == NBUF ==> Missing(bufs, blockno)
    {
      b := next[NBUF];
      ghost var k := 0;
      while b != NBUF
        invariant 0 <= k <= |order| && b == if k < |order| then order[k] else NBUF
        invariant forall i :: 0 <= i < k ==> !Names(bufs[order[i]], ROOTDEV, blockno)
        decreases |order| - k
      {
        if bufs[b].dev == ROOTDEV && bufs[b].blockno == blockno {
          return b;
        }
        assert next[order[k]] == After(order, k, NBUF);
        b := next[b];
        k := k + 1;
      }
      forall i | 0 <= i < NBUF ensures !Names(bufs[i], ROOTDEV, blockno) {
        assert i in order;
      }
    }

    /** bget's second loop: the unreferenced buffer released longest ago, or NBUF. */
    method FindVictim() returns (b: int)
      requires Shaped()
      ensures 0 <= b <= NBUF
      ensures b < NBUF ==> Oldest(bufs, stamp, b)
      ensures b == NBUF ==> AllHeld(bufs)
    {
      b := prev[NBUF];
      ghost var k := |order| - 1;
      while b != NBUF
        invariant -1 <= k < |order| && b == if k >= 0 then order[k] else NBUF
        invariant forall i :: k < i < |order| ==> bufs[order[i]].refcnt != 0
        decreases k
      {
        if bufs[b].refcnt == 0 {
          forall i | 0 <= i < NBUF && bufs[i].refcnt == 0 ensures stamp[b] <= stamp[i] {
            LastIsOldest(bufs, order, stamp, clock, k, i);
          }
          return b;
        }
        assert prev[order[k]] == Before(order, k, NBUF);
        b := prev[b];
        k := k - 1;
      }
      forall i | 0 <= i < NBUF ensures bufs[i].refcnt != 0 {
        assert i in order;
      }
    }

    /**
     bget up to the point where it waits for the buffer's lock; NBUF stands for its panic. It
     takes any buffer whose count is 0, also one that somebody holds.
     */
    method Bget(blockno: int) returns (b: int)
      requires Shaped()
      modifies `bufs, `refs
      ensures Shaped() && 0 <= b <= NBUF
      ensures b == NBUF ==> Now() == old(Now()) && Missing(bufs, blockno) && AllHeld(bufs)
      ensures b < NBUF ==> Got(old(Now()), Now(), b, blockno)
      ensures b < NBUF && !Names(old(bufs)[b], ROOTDEV, blockno) ==> Oldest(old(bufs), stamp, b)
      ensures old(Valid()) && 0 <= blockno < |disk| && old(Countable(Now(), blockno)) ==> Valid()
    {
      hide Sound, Ring, Aged, Missing, AllHeld, Oldest, Inc, Countable;
      ghost var s := Now();
      b := FindCached(blockno);
      if b != NBUF {
        refs := refs.(users := refs.users[b := refs.users[b] + 1]);
        bufs := bufs[b := bufs[b].(refcnt := Inc(bufs[b].refcnt))];
      } else {
        b := FindVictim();
        if b == NBUF {
          return;
        }
        OldestFree(bufs, stamp, b, blockno);
        refs := refs.(users := refs.users[b := refs.users[b] + 1]);
        bufs := bufs[b := Recycled(bufs[b], blockno)];
      }
      if Sound(s) && 0 <= blockno < |disk| && Countable(s, blockno) {
        GetSound(s, Now(), b, blockno);
      }
    }

    /** acquiresleep on a buffer one has a reference to, once its holder has let go */
    method Acquire(b: int)
      requires Shaped() && 0 <= b < NBUF && refs.users[b] > 0 && !bufs[b].locked
      modifies `bufs
      ensures Shaped() && Now() == Lock(old(Now()), b)
      ensures old(Valid()) ==> Valid()
    {
      hide Sound, Ring, Aged;
      ghost var s := Now();
      bufs := bufs[b := bufs[b].(locked := true)];
      if Sound(s) {
        LockSound(s, b);
      }
    }

    /** The rest of bread: the locked buffer now holds the block's logical contents. */
    method Load(b: int)
      requires Shaped() && 0 <= b < NBUF && bufs[b].locked && 0 <= bufs[b].blockno < |disk|
      modifies `bufs
      ensures Shaped() && Now() == Fill(old(Now()), b)
      ensures old(Valid()) ==> Valid() && bufs[b].data == logical[bufs[b].blockno]
    {
      hide Sound, Ring, Aged;
      ghost var s := Now();
      if !bufs[b].valid {
        bufs := bufs[b := bufs[b].(valid := true, data := disk[bufs[b].blockno])];
      }
      if Sound(s) {
        LoadSound(s, b);
      }
    }

    /** The holder of the lock stores new contents; clients do so after bread, when the buffer is valid. */
    method Modify(b: int, data: Block)
      requires Shaped() && 0 <= b < NBUF && bufs[b].locked && 0 <= bufs[b].blockno < |disk|
      modifies `bufs, `logical
      ensures Shaped() && Now() == Store(old(Now()), b, data)
      ensures old(Valid()) && bufs[b].valid ==> Valid()
    {
      hide Sound, Ring, Aged;
      ghost var s := Now();
      logical := logical[bufs[b].blockno := data];
      bufs := bufs[b := bufs[b].(data := data)];
      if Sound(s) && s.bufs[b].valid {
        ModifySound(s, b, data);
      }
    }

    method Bwrite(b: int)
      requires Shaped() && 0 <= b < NBUF && bufs[b].locked && bufs[b].valid && 0 <= bufs[b].blockno < |disk|
      modifies `disk
      ensures Shaped() && Now() == Flush(old(Now()), b)
      ensures old(Valid()) ==> Valid()
    {
      hide Sound, Ring, Aged;
      ghost var s := Now();
      disk := disk[bufs[b].blockno := bufs[b].data];
      if Sound(s) {
        FlushSound(s, b);
      }
    }

    /** brelse up to releasesleep */
    method Release(b: int)
      requires Shaped() && 0 <= b < NBUF && bufs[b].locked
      modifies `bufs
      ensures Shaped() && Now() == Unlock(old(Now()), b)
      ensures old(Valid()) ==> Valid()
    {
      hide Sound, Ring, Aged;
      ghost var s := Now();
      bufs := bufs[b := bufs[b].(locked := false)];
      if Sound(s) {
        UnlockSound(s, b);
      }
    }

    /** The rest of brelse: a count that reaches 0 moves the buffer to the front of the list. */
    method Unref(b: int)
      requires Shaped() && 0 <= b < NBUF && refs.users[b] > if bufs[b].locked then 1 else 0
      modifies `bufs, `refs, `next, `prev, `order, `stamp, `clock
      ensures Shaped() && Now() == Drop(old(Now()), b)
      ensures bufs[b].refcnt == 0 ==>
                |order| > 0 && order[0] == b && stamp == old(stamp)[b := old(clock)] && clock == old(clock) + 1
      ensures bufs[b].refcnt != 0 ==> order == old(order) && stamp == old(stamp) && clock == old(clock)
      ensures old(Valid() && Clean(Now(), b)) ==> Valid()
    {
      hide Sound, Ring, Aged, Clean;
      ghost var s := Now();
      refs := refs.(users := refs.users[b := refs.users[b] - 1]);
      bufs := bufs[b := bufs[b].(refcnt := Dec(bufs[b].refcnt))];
      if bufs[b].refcnt == 0 {
        ToFront(b);
      }
      if Sound(s) && Clean(s, b) {
        UnrefSound(s, b);
      }
    }

    /** brelse's list surgery. */
    method ToFront(b: int)
      requires |bufs| == NBUF == |stamp| && Ring(next, prev, NBUF, order) && Aged(order, stamp, clock) && 0 <= b < NBUF
      modifies `next, `prev, `order, `stamp, `clock
      ensures Ring(next, prev, NBUF, order) && Aged(order, stamp, clock)
      ensures |order| > 0 && order[0] == b && stamp == old(stamp)[b := old(clock)] && clock == old(clock) + 1
    {
      hide *;
      ghost var k := Position(next, prev, order, stamp, clock, b);
      MoveToFront(next, prev, NBUF, order, k);
      AgedAfterMove(order, stamp, clock, k);
      var after, before := next[b], prev[b];
      prev := prev[after := before];
      next := next[before := after];
      var first := next[NBUF];
      next := next[b := first];
      prev := prev[b := NBUF];
      prev := prev[first := b];
      next := next[NBUF := b];
      stamp, clock := stamp[b := clock], clock + 1;
      order := [b] + Without(order, k);
    }

    method Bpin(b: int)
      requires Shaped() && 0 <= b < NBUF && bufs[b].locked
      modifies `bufs, `refs
      ensures Shaped() && Now() == Pin(old(Now()), b)
      ensures old(Valid() && Now().Of(b) < UINT_SPAN - 1) ==> Valid()
    {
      hide Sound, Ring, Aged, Inc;
      ghost var s := Now();
      refs := refs.(pins := refs.pins[b := refs.pins[b] + 1]);
      bufs := bufs[b := bufs[b].(refcnt := Inc(bufs[b].refcnt))];
      if Sound(s) && s.Of(b) < UINT_SPAN - 1 {
        PinSound(s, b);
      }
    }

    /** bunpin keeps the cache sound exactly when the buffer was pinned. */
    method Bunpin(b: int)
      requires Shaped() && 0 <= b < NBUF && bufs[b].locked
      modifies `bufs, `refs
      ensures Shaped() && Now() == Unpin(old(Now()), b)
      ensures old(Valid()) ==> (Valid() <==> old(refs.pins)[b] > 0)
    {
      hide Sound, Ring, Aged;
      ghost var s := Now();
      refs := refs.(pins := refs.pins[b := refs.pins[b] - 1]);
      bufs := bufs[b := bufs[b].(refcnt := Dec(bufs[b].refcnt))];
      if Sound(s) {
        UnpinSoundIff(s, b);
      }
    }
  }

  lemma OldestFree(bufs: seq<Buf>, stamp: seq<int>, b: int, blockno: int)
    requires Oldest(bufs, stamp, b) && Missing(bufs, blockno)
    ensures bufs[b].refcnt == 0 && !Names(bufs[b], ROOTDEV, blockno)
  {
  }

  lemma LockSound(s: State, i: int)
    requires Sound(s) && Ready(s, i) && s.refs.users[i] > 0
    ensures Sound(Lock(s, i))
  {
    LockTracked(s, i);
  }

  lemma UnlockSound(s: State, i: int)
    requires Sound(s) && Ready(s, i) && s.bufs[i].locked
    ensures Sound(Unlock(s, i))
  {
    LockTracked(s, i);
  }

  /** bread: a locked buffer that is filled holds the logical contents of its block. */
  lemma LoadSound(s: State, i: int)
    requires Sound(s) && Ready(s, i) && s.bufs[i].locked
    ensures OnDisk(s, i) && Sound(Fill(s, i)) && Fill(s, i).bufs[i].data == s.logical[s.bufs[i].blockno]
  {
    FillTracked(s, i);
  }

  lemma ModifySound(s: State, i: int, data: Block)
    requires Sound(s) && Ready(s, i) && s.bufs[i].locked && s.bufs[i].valid
    ensures OnDisk(s, i) && Sound(Store(s, i, data))
  {
    StoreTracked(s, i, data);
  }

  lemma FlushSound(s: State, i: int)
    requires Sound(s) && Ready(s, i) && s.bufs[i].valid
    ensures OnDisk(s, i) && Sound(Flush(s, i))
  {
    FlushTracked(s, i);
  }

  lemma UnrefSound(s: State, i: int)
    requires Sound(s) && Ready(s, i) && s.refs.users[i] > (if s.bufs[i].locked then 1 else 0) && Clean(s, i)
    ensures Sound(Drop(s, i))
  {
    DropTracked(s, i);
  }

  lemma PinSound(s: State, i: int)
    requires Sound(s) && Ready(s, i) && s.bufs[i].locked && s.Of(i) < UINT_SPAN - 1
    ensures Sound(Pin(s, i))
  {
    PinTracked(s, i);
  }

  lemma UnpinSoundIff(s: State, i: int)
    requires Sound(s) && Ready(s, i) && s.bufs[i].locked
    ensures Sound(Unpin(s, i)) <==> s.refs.pins[i] > 0
  {
    if s.refs.pins[i] > 0 {
      assert Clean(s, i);
      UnpinTracked(s, i);
    } else {
      assert Unpin(s, i).refs.pins[i] < 0;
    }
  }

  /**
   bread, bunpin and brelse of a cached block that agrees with the disk, as install_trans does
   after its bwrite: sound afterwards if and only if the block was pinned.
   */
  lemma InstallSoundIff(s: State, i: int)
    requires Sound(s) && OnDisk(s, i) && s.bufs[i].valid && !s.bufs[i].locked && s.Of(i) < UINT_SPAN - 1
    requires s.disk[s.bufs[i].blockno] == s.logical[s.bufs[i].blockno]
    ensures Sound(Drop(Unlock(Unpin(Lock(Hit(s, i), i), i), i), i)) <==> s.refs.pins[i] > 0
  {
    hide Wrap;
    var held := Lock(Hit(s, i), i);
    var r := Drop(Unlock(Unpin(held, i), i), i);
    if s.refs.pins[i] > 0 {
      HitTracked(s, i);
      LockTracked(Hit(s, i), i);
      UnpinSoundIff(held, i);
      LockTracked(Unpin(held, i), i);
      DropTracked(Unlock(Unpin(held, i), i), i);
    } else {
      assert r.refs.pins[i] < 0;
    }
  }

  lemma Position(next: seq<int>, prev: seq<int>, order: seq<int>, stamp: seq<int>, clock: int,
          b: int)
      returns (k: int)
    requires Ring(next, prev, |stamp|, order) && Aged(order, stamp, clock) && 0 <= b < |stamp|
    ensures 0 <= k < |order| && order[k] == b && NoRepeats(order) && |next| == |prev| == |stamp| + 1
  {
    assert b in order;
    k :| 0 <= k < |order| && order[k] == b;
  }

  function ZeroBlock(): Block {
    seq(BLOCK_WORDS, _ => 0)
  }
}
