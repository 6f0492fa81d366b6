/**
 Processes that use the buffer cache beside the log, as a machine whose steps interleave
 freely: bread is Get and Enter, brelse is Leave and Forget, and what lies between is a store
 and log_write. `latest` is what was last stored for each block by the processes' own
 account. Reading a block gives that in every run exactly if no block is fetched that the
 last recovery installed.
 */
module ClientRuns {
  import opened BlockDisk
  import opened RedoLog
  import opened Bio
  import opened LogCache
  import opened LogDevice

  const NPROC: nat := 64

  /** Where a process is with a buffer: waiting for its lock, inside (with a store to log or not), or past it. */
  datatype Phase = Waiting | Inside(changed: bool) | Leaving

  /** The block asked for, the buffer bget gave, and how far the process is. */
  datatype Hold = Hold(b: int, i: int, phase: Phase)

  datatype World = World(s: State, stamp: seq<int>, clock: int, lh: seq<int>, holds: map<nat, Hold>, latest: Disk)

  datatype Step =
    | Get(p: nat, b: int, i: int)
    | Enter(p: nat)
    | Put(p: nat, data: Block)
    | Log(p: nat)
    | Leave(p: nat)
    | Forget(p: nat)

  /** bget gives buffer i for block b. */
  ghost predicate Takes(w: World, i: int, b: int) {
    && Ready(w.s, i)
    && (Names(w.s.bufs[i], ROOTDEV, b) || (Missing(w.s.bufs, b) && Oldest(w.s.bufs, w.stamp, i)))
  }

  ghost predicate At(w: World, p: nat, phase: Phase) {
    p in w.holds && w.holds[p].phase == phase && OnDisk(w.s, w.holds[p].i)
  }

  ghost predicate IsInside(w: World, p: nat) {
    p in w.holds && w.holds[p].phase.Inside? && OnDisk(w.s, w.holds[p].i) && 0 <= w.holds[p].b < |w.latest|
  }

  /** The process may do this now; it waits while another has the lock, and releases only what it logged. */
  ghost predicate Can(g: Region, w: World, e: Step) {
    match e
    case Get(p, b, i) => p < NPROC && p !in w.holds && Home(g, |w.s.disk|, b) && Takes(w, i, b)
    case Enter(p) => At(w, p, Waiting) && !w.s.bufs[w.holds[p].i].locked
    case Put(p, _) => IsInside(w, p)
    case Log(p) => IsInside(w, p) && |w.lh| < Capacity(g)
    case Leave(p) => At(w, p, Inside(false))
    case Forget(p) => At(w, p, Leaving) && w.s.refs.users[w.holds[p].i] > 0
  }

  ghost function Moved(w: World, p: nat, phase: Phase): map<nat, Hold>
    requires p in w.holds
  {
    w.holds[p := w.holds[p].(phase := phase)]
  }

  ghost function Dropped(w: World, p: nat, i: int): World
    requires Ready(w.s, i) && w.s.refs.users[i] > 0
  {
    var t := w.(s := Drop(w.s, i), holds := w.holds - {p});
    if t.s.bufs[i].refcnt == 0 && i < |w.stamp| then t.(stamp := w.stamp[i := w.clock], clock := w.clock + 1) else t
  }

  ghost function Next(g: Region, w: World, e: Step): World
    requires Can(g, w, e)
  {
    match e
    case Get(p, b, i) =>
      w.(s := if Names(w.s.bufs[i], ROOTDEV, b) then Hit(w.s, i) else Recycle(w.s, i, b),
         holds := w.holds[p := Hold(b, i, Waiting)])
    case Enter(p) =>
      w.(s := Fill(Lock(w.s, w.holds[p].i), w.holds[p].i), holds := Moved(w, p, Inside(false)))
    case Put(p, data) =>
      w.(s := Store(w.s, w.holds[p].i, data), holds := Moved(w, p, Inside(true)),
         latest := w.latest[w.holds[p].b := data])
    case Log(p) =>
      var i := w.holds[p].i;
      w.(s := if w.s.bufs[i].blockno in w.lh then w.s else Pin(w.s, i), lh := AddBlock(w.lh, w.s.bufs[i].blockno),
         holds := Moved(w, p, Inside(false)))
    case Leave(p) => w.(s := Unlock(w.s, w.holds[p].i), holds := Moved(w, p, Leaving))
    case Forget(p) => Dropped(w, p, w.holds[p].i)
  }

  ghost predicate Run(g: Region, w: World, es: seq<Step>, w': World)
    decreases |es|
  {
    if es == [] then w == w' else Can(g, w, es[0]) && Run(g, Next(g, w, es[0]), es[1..], w')
  }

  lemma {:induction false} RunMore(g: Region, w: World, es: seq<Step>, w': World, e: Step)
    requires Run(g, w, es, w') && Can(g, w', e)
    ensures Run(g, w, es + [e], Next(g, w', e))
    decreases |es|
  {
    hide Can, Next;
    if es == [] {
      assert (es + [e])[1..] == [];
    } else {
      RunMore(g, Next(g, w, es[0]), es[1..], w', e);
      assert (es + [e])[1..] == es[1..] + [e];
    }
  }

  // ---- what is promised

  /** What bread of block b gives. */
  ghost function Reads(s: State, b: int): Block
    requires 0 <= b < |s.disk|
  {
    if exists i :: Caches(s.bufs, i, b) then var i :| Caches(s.bufs, i, b); s.bufs[i].data else s.disk[b]
  }

  /** Every block reads as what was last stored for it, and whoever is inside a buffer has its block. */
  ghost predicate Transparent(w: World) {
    && |w.latest| == |w.s.disk|
    && (forall b :: 0 <= b < |w.s.disk| ==> Reads(w.s, b) == w.latest[b])
    && (forall p :: p in w.holds && w.holds[p].phase.Inside? ==> Caches(w.s.bufs, w.holds[p].i, w.holds[p].b))
  }

  ghost predicate Fetches(es: seq<Step>, allowed: set<int>) {
    forall k :: 0 <= k < |es| && es[k].Get? ==> es[k].b in allowed
  }

  ghost predicate Avoids(es: seq<Step>, stuck: set<int>) {
    forall k :: 0 <= k < |es| && es[k].Get? ==> es[k].b !in stuck
  }

  // ---- the invariant

  ghost function On(holds: map<nat, Hold>, i: int): set<nat> {
    set p | p in holds && holds[p].i == i
  }

  ghost function Dirty(holds: map<nat, Hold>): set<int> {
    set p | p in holds && holds[p].phase == Inside(true) :: holds[p].b
  }

  ghost function MarksOf(w: World, stuck: set<int>): Marks {
    Marks(Elems(w.lh), stuck, Dirty(w.holds))
  }

  /** Each process has its block's buffer, and the one inside has it locked and valid. */
  ghost predicate Holding(g: Region, w: World, p: nat)
    requires p in w.holds
  {
    var h := w.holds[p];
    && p < NPROC && Ready(w.s, h.i) && Names(w.s.bufs[h.i], ROOTDEV, h.b) && Home(g, |w.s.disk|, h.b)
    && (h.phase.Inside? ==> w.s.bufs[h.i].locked && w.s.bufs[h.i].valid)
  }

  ghost predicate InsideOf(holds: map<nat, Hold>, p: nat, i: int) {
    p in holds && holds[p].phase.Inside? && holds[p].i == i
  }

  ghost predicate Alone(holds: map<nat, Hold>) {
    forall p, q, i :: InsideOf(holds, p, i) && InsideOf(holds, q, i) ==> p == q
  }

  ghost predicate LockedBy(w: World) {
    forall i :: 0 <= i < |w.s.bufs| && w.s.bufs[i].locked ==> exists p :: InsideOf(w.holds, p, i)
  }

  ghost predicate Counts(w: World) {
    w.s.Sized() && forall i :: 0 <= i < |w.s.bufs| ==> w.s.refs.users[i] == |On(w.holds, i)|
  }

  ghost predicate HoldsInv(g: Region, w: World) {
    (forall p :: p in w.holds ==> Holding(g, w, p)) && Alone(w.holds) && LockedBy(w) && Counts(w)
  }

  ghost predicate Inv(g: Region, w: World, stuck: set<int>) {
    && Held(w.s, MarksOf(w, stuck)) && Consistent(g, w.s, MarksOf(w, stuck), w.lh)
    && w.latest == w.s.logical && HoldsInv(g, w)
  }

  lemma TrackedReads(s: State, b: int)
    requires Tracked(s) && 0 <= b < |s.disk|
    ensures Reads(s, b) == s.logical[b]
  {
    hide Wrap;
  }

  lemma InvTransparent(g: Region, w: World, stuck: set<int>)
    requires Inv(g, w, stuck)
    ensures Transparent(w)
  {
    hide Reads, Consistent, Cached, Gripped;
    forall b | 0 <= b < |w.s.disk| ensures Reads(w.s, b) == w.latest[b] {
      TrackedReads(w.s, b);
    }
    forall p | p in w.holds && w.holds[p].phase.Inside? ensures Caches(w.s.bufs, w.holds[p].i, w.holds[p].b) {
      assert Holding(g, w, p);
    }
  }

  // ---- counting

  lemma {:induction false} FewBelow(ps: set<nat>, n: nat)
    requires forall p :: p in ps ==> p < n
    ensures |ps| <= n
    decreases n
  {
    if n > 0 {
      FewBelow(ps - {n - 1}, n - 1);
      assert |ps| <= |ps - {n - 1}| + 1;
    } else {
      assert ps == {};
    }
  }

  lemma FewUsers(g: Region, w: World, stuck: set<int>, i: int)
    requires Inv(g, w, stuck) && 0 <= i < |w.s.bufs|
    ensures w.s.Of(i) < UINT_SPAN - 2
  {
    hide Tracked, Cached, Gripped, Consistent;
    forall p | p in On(w.holds, i) ensures p < NPROC {
      assert Holding(g, w, p);
    }
    FewBelow(On(w.holds, i), NPROC);
  }

  lemma OnAdded(holds: map<nat, Hold>, p: nat, h: Hold, i: int)
    requires p !in holds
    ensures |On(holds[p := h], i)| == |On(holds, i)| + if h.i == i then 1 else 0
  {
    if h.i == i {
      assert On(holds[p := h], i) == On(holds, i) + {p};
    } else {
      assert On(holds[p := h], i) == On(holds, i);
    }
  }

  lemma OnMoved(holds: map<nat, Hold>, p: nat, h: Hold, i: int)
    requires p in holds && h.i == holds[p].i
    ensures On(holds[p := h], i) == On(holds, i)
  {
  }

  lemma OnRemoved(holds: map<nat, Hold>, p: nat, i: int)
    requires p in holds
    ensures |On(holds - {p}, i)| == |On(holds, i)| - if holds[p].i == i then 1 else 0
  {
    if holds[p].i == i {
      assert On(holds - {p}, i) == On(holds, i) - {p};
    } else {
      assert On(holds - {p}, i) == On(holds, i);
    }
  }

  /** With nobody on buffer i, no process has it. */
  lemma NobodyOn(holds: map<nat, Hold>, i: int, p: nat)
    requires |On(holds, i)| == 0 && p in holds
    ensures holds[p].i != i
  {
    assert p !in On(holds, i);
  }

  lemma TwoOn(holds: map<nat, Hold>, i: int, p: nat, q: nat)
    requires p in holds && q in holds && p != q && holds[p].i == i == holds[q].i
    ensures |On(holds, i)| >= 2
  {
    assert {p, q} <= On(holds, i);
    assert |On(holds, i) - {p, q}| + 2 == |On(holds, i)|;
  }

  // ---- each step keeps it

  /** Counts, locks and data may change as long as every buffer is for the block it was for. */
  lemma ConsistentSame(g: Region, s: State, t: State, m: Marks, m': Marks, lh: seq<int>)
    requires Consistent(g, s, m, lh) && t.Sized() && |t.bufs| == |s.bufs| && t.disk == s.disk
    requires m'.pinned == m.pinned && m'.stuck == m.stuck && forall b :: b in m'.dirty ==> Home(g, |s.disk|, b)
    requires forall i :: 0 <= i < |s.bufs| ==>
               t.bufs[i].dev == s.bufs[i].dev && t.bufs[i].blockno == s.bufs[i].blockno
               && t.refs.users[i] <= s.refs.users[i]
    ensures Consistent(g, t, m', lh)
  {
    hide Quiet, ValidHeader;
  }

  lemma DirtyHome(g: Region, w: World)
    requires forall p :: p in w.holds ==> Holding(g, w, p)
    ensures forall b :: b in Dirty(w.holds) ==> Home(g, |w.s.disk|, b)
  {
    forall b | b in Dirty(w.holds) ensures Home(g, |w.s.disk|, b) {
      var p :| p in w.holds && w.holds[p].phase == Inside(true) && w.holds[p].b == b;
      assert Holding(g, w, p);
    }
  }

  lemma GetKeeps(g: Region, w: World, stuck: set<int>, e: Step)
    requires Inv(g, w, stuck) && e.Get? && Can(g, w, e) && e.b !in stuck
    ensures Inv(g, Next(g, w, e), stuck)
  {
    hide Held, Missing, Oldest, Consistent, HoldsInv;
    var w', m := Next(g, w, e), MarksOf(w, stuck);
    GotFrom(w, e.i, e.b);
    GetReady(g, w, stuck, e.b);
    DirtyAdded(w.holds, e.p, Hold(e.b, e.i, Waiting));
    HeldGet(w.s, w'.s, e.i, e.b, m);
    ConsistentGet(g, w.s, w'.s, e.i, e.b, m, w.lh);
    GetHolds(g, w, stuck, e);
  }

  lemma GetHolds(g: Region, w: World, stuck: set<int>, e: Step)
    requires Inv(g, w, stuck) && e.Get? && Can(g, w, e)
    ensures HoldsInv(g, Next(g, w, e))
  {
    hide Held, Missing, Oldest, Consistent, On, Holding;
    var w', m := Next(g, w, e), MarksOf(w, stuck);
    if !Names(w.s.bufs[e.i], ROOTDEV, e.b) {
      ConsistentAside(g, w.s, m, w.lh);
      OldestSpare(w.s, w.stamp, e.i);
      SpareIsFree(w.s, e.i, m);
    }
    forall i | 0 <= i < |w'.s.bufs| ensures w'.s.refs.users[i] == |On(w'.holds, i)| {
      OnAdded(w.holds, e.p, Hold(e.b, e.i, Waiting), i);
    }
    forall p | p in w'.holds ensures Holding(g, w', p) {
      GetHolding(g, w, stuck, e, p);
    }
    LockedStays(w, w');
  }

  lemma OldestSpare(s: State, stamp: seq<int>, i: int)
    requires Oldest(s.bufs, stamp, i)
    ensures s.bufs[i].refcnt == 0
  {
  }

  lemma GotFrom(w: World, i: int, b: int)
    requires Takes(w, i, b)
    ensures Got(w.s, if Names(w.s.bufs[i], ROOTDEV, b) then Hit(w.s, i) else Recycle(w.s, i, b), i, b)
  {
  }

  lemma ConsistentAside(g: Region, s: State, m: Marks, lh: seq<int>)
    requires Consistent(g, s, m, lh)
    ensures Unstuck(s, m)
  {
  }

  lemma GetReady(g: Region, w: World, stuck: set<int>, b: int)
    requires Inv(g, w, stuck) && Home(g, |w.s.disk|, b) && b !in stuck
    ensures Gettable(w.s, MarksOf(w, stuck), b)
  {
    hide Held;
    HeldSized(w.s, MarksOf(w, stuck));
    forall i | 0 <= i < |w.s.bufs| ensures w.s.Of(i) < UINT_SPAN - 1 {
      FewUsers(g, w, stuck, i);
    }
  }

  lemma DirtyAdded(holds: map<nat, Hold>, p: nat, h: Hold)
    requires p !in holds && h.phase == Waiting
    ensures Dirty(holds[p := h]) == Dirty(holds)
  {
    var more := holds[p := h];
    forall b ensures b in Dirty(more) <==> b in Dirty(holds) {
      if b in Dirty(holds) {
        var q :| q in holds && holds[q].phase == Inside(true) && holds[q].b == b;
        assert q in more && more[q] == holds[q];
      }
    }
  }

  lemma GetHolding(g: Region, w: World, stuck: set<int>, e: Step, p: nat)
    requires Inv(g, w, stuck) && e.Get? && Can(g, w, e) && p in Next(g, w, e).holds
    requires !Names(w.s.bufs[e.i], ROOTDEV, e.b) ==> w.s.refs.users[e.i] == 0
    ensures Holding(g, Next(g, w, e), p)
  {
    hide Held, Consistent, Missing, Oldest;
    var w' := Next(g, w, e);
    if p != e.p {
      assert Holding(g, w, p);
      if !Names(w.s.bufs[e.i], ROOTDEV, e.b) {
        NobodyOn(w.holds, e.i, p);
      }
    }
  }

  /** No buffer becomes locked, and whoever was inside still is. */
  lemma LockedStays(w: World, w': World)
    requires LockedBy(w) && Alone(w.holds) && |w'.s.bufs| == |w.s.bufs|
    requires forall i :: 0 <= i < |w.s.bufs| && w'.s.bufs[i].locked ==> w.s.bufs[i].locked
    requires forall q, i :: InsideOf(w.holds, q, i) <==> InsideOf(w'.holds, q, i)
    ensures LockedBy(w') && Alone(w'.holds)
  {
    forall i | 0 <= i < |w'.s.bufs| && w'.s.bufs[i].locked ensures exists q :: InsideOf(w'.holds, q, i) {
      var q :| InsideOf(w.holds, q, i);
      assert InsideOf(w'.holds, q, i);
    }
  }

  /** A step of process p on its own buffer, which stays for the same block. */
  ghost predicate OwnStep(w: World, w': World, p: nat, phase: Phase) {
    && p in w.holds && Ready(w.s, w.holds[p].i) && w'.holds == Moved(w, p, phase)
    && var i := w.holds[p].i;
    && w'.s.Sized() && |w'.s.bufs| == |w.s.bufs| && w'.s.bufs == w.s.bufs[i := w'.s.bufs[i]]
    && w'.s.bufs[i].dev == w.s.bufs[i].dev && w'.s.bufs[i].blockno == w.s.bufs[i].blockno
    && w'.s.refs.users == w.s.refs.users && w'.s.disk == w.s.disk
    && (w.s.bufs[i].valid ==> w'.s.bufs[i].valid)
    && w'.s.bufs[i].locked == phase.Inside? && (phase.Inside? ==> w'.s.bufs[i].valid)
    && (w.holds[p].phase.Inside? || !w.s.bufs[i].locked)
  }

  lemma OwnStepHolds(g: Region, w: World, w': World, p: nat, phase: Phase)
    requires HoldsInv(g, w) && OwnStep(w, w', p, phase)
    ensures HoldsInv(g, w')
  {
    hide On;
    var i := w.holds[p].i;
    assert Holding(g, w, p);
    forall k | 0 <= k < |w'.s.bufs| ensures w'.s.refs.users[k] == |On(w'.holds, k)| {
      OnMoved(w.holds, p, w'.holds[p], k);
    }
    forall q, k | InsideOf(w'.holds, q, k) ensures q == p || InsideOf(w.holds, q, k) {
    }
    forall q | InsideOf(w.holds, q, i) ensures q == p {
      assert Holding(g, w, q);
      if w.holds[p].phase.Inside? {
        assert InsideOf(w.holds, p, i);
      }
    }
    forall q | q in w'.holds ensures Holding(g, w', q) {
      assert Holding(g, w, q);
      assert InsideOf(w.holds, q, w.holds[q].i) <==> w.holds[q].phase.Inside?;
    }
    forall k | 0 <= k < |w'.s.bufs| && w'.s.bufs[k].locked ensures exists q :: InsideOf(w'.holds, q, k) {
      if k == i {
        assert InsideOf(w'.holds, p, i);
      } else {
        var q :| InsideOf(w.holds, q, k);
        assert InsideOf(w'.holds, q, k);
      }
    }
  }

  /** Moving p between phases neither of which is a change to log leaves the changed blocks alone. */
  lemma DirtySame(holds: map<nat, Hold>, p: nat, phase: Phase)
    requires p in holds && holds[p].phase != Inside(true) && phase != Inside(true)
    ensures Dirty(holds[p := holds[p].(phase := phase)]) == Dirty(holds)
  {
    var more := holds[p := holds[p].(phase := phase)];
    forall b ensures b in Dirty(more) <==> b in Dirty(holds) {
      if b in Dirty(holds) {
        var q :| q in holds && holds[q].phase == Inside(true) && holds[q].b == b;
        assert q in more && more[q] == holds[q];
      }
    }
  }

  lemma DirtyMore(holds: map<nat, Hold>, p: nat)
    requires p in holds
    ensures Dirty(holds[p := holds[p].(phase := Inside(true))]) == Dirty(holds) + {holds[p].b}
  {
    var more := holds[p := holds[p].(phase := Inside(true))];
    forall b ensures b in Dirty(more) <==> b in Dirty(holds) + {holds[p].b} {
      if b in Dirty(holds) {
        var q :| q in holds && holds[q].phase == Inside(true) && holds[q].b == b;
        assert q in more && more[q].b == b;
      } else if b == holds[p].b {
        assert p in more && more[p].b == b;
      }
    }
  }

  /** Nobody else has changed the block of a process that is inside. */
  lemma DirtyLess(g: Region, w: World, p: nat)
    requires HoldsInv(g, w) && Unique(w.s.bufs, |w.s.disk|) && p in w.holds && w.holds[p].phase.Inside?
    ensures Dirty(Moved(w, p, Inside(false))) == Dirty(w.holds) - {w.holds[p].b}
  {
    var less := Moved(w, p, Inside(false));
    assert Holding(g, w, p);
    forall q | q in w.holds && w.holds[q].phase == Inside(true) && w.holds[q].b == w.holds[p].b ensures q == p {
      assert Holding(g, w, q);
      assert InsideOf(w.holds, p, w.holds[p].i) && InsideOf(w.holds, q, w.holds[p].i);
    }
    forall b ensures b in Dirty(less) <==> b in Dirty(w.holds) - {w.holds[p].b} {
      if b in Dirty(w.holds) && b != w.holds[p].b {
        var q :| q in w.holds && w.holds[q].phase == Inside(true) && w.holds[q].b == b;
        assert q in less && less[q] == w.holds[q];
      }
    }
  }

  lemma DirtyGone(holds: map<nat, Hold>, p: nat)
    requires p in holds && holds[p].phase == Leaving
    ensures Dirty(holds - {p}) == Dirty(holds)
  {
    var less := holds - {p};
    forall b ensures b in Dirty(less) <==> b in Dirty(holds) {
      if b in Dirty(holds) {
        var q :| q in holds && holds[q].phase == Inside(true) && holds[q].b == b;
        assert q in less && less[q] == holds[q];
      }
    }
  }

  /** The facts about the process that moves, and about its buffer. */
  lemma Mover(g: Region, w: World, stuck: set<int>, p: nat)
    requires Inv(g, w, stuck) && p in w.holds
    ensures Holding(g, w, p) && OnDisk(w.s, w.holds[p].i) && w.s.refs.users[w.holds[p].i] > 0
    ensures w.holds[p].b !in stuck && Unstuck(w.s, MarksOf(w, stuck)) && Unique(w.s.bufs, |w.s.disk|)
    ensures forall b :: b in Dirty(w.holds) ==> Home(g, |w.s.disk|, b)
  {
    hide Cached, Gripped, Wrap, Coherent, Quiet, ValidHeader;
    assert Holding(g, w, p);
    var i := w.holds[p].i;
    assert p in On(w.holds, i);
    assert |On(w.holds, i)| > 0;
    DirtyHome(g, w);
  }

  lemma EnterKeeps(g: Region, w: World, stuck: set<int>, p: nat)
    requires Inv(g, w, stuck) && Can(g, w, Enter(p))
    ensures Inv(g, Next(g, w, Enter(p)), stuck)
  {
    hide Held, Consistent, HoldsInv, Dirty, On;
    var w', m, i := Next(g, w, Enter(p)), MarksOf(w, stuck), w.holds[p].i;
    Mover(g, w, stuck, p);
    HeldLock(w.s, i, m);
    HeldFill(Lock(w.s, i), i, m);
    DirtySame(w.holds, p, Inside(false));
    ConsistentSame(g, w.s, w'.s, m, m, w.lh);
    OwnStepHolds(g, w, w', p, Inside(false));
  }

  lemma PutKeeps(g: Region, w: World, stuck: set<int>, p: nat, data: Block)
    requires Inv(g, w, stuck) && Can(g, w, Put(p, data))
    ensures Inv(g, Next(g, w, Put(p, data)), stuck)
  {
    hide Held, Consistent, HoldsInv, Dirty, On;
    var w', m, i := Next(g, w, Put(p, data)), MarksOf(w, stuck), w.holds[p].i;
    Mover(g, w, stuck, p);
    HeldStore(w.s, i, data, m);
    DirtyMore(w.holds, p);
    ConsistentSame(g, w.s, w'.s, m, m.(dirty := m.dirty + {w.holds[p].b}), w.lh);
    OwnStepHolds(g, w, w', p, Inside(true));
  }

  lemma LogKeeps(g: Region, w: World, stuck: set<int>, p: nat)
    requires Inv(g, w, stuck) && Can(g, w, Log(p))
    ensures Inv(g, Next(g, w, Log(p)), stuck)
  {
    hide Held, Consistent, HoldsInv, Dirty, On, Elems;
    var w', m, i := Next(g, w, Log(p)), MarksOf(w, stuck), w.holds[p].i;
    Mover(g, w, stuck, p);
    FewUsers(g, w, stuck, i);
    LoggedSound(g, w.s, i, m, w.lh);
    DirtyLess(g, w, p);
    ElemsAdd(w.lh, w.s.bufs[i].blockno);
    OwnStepHolds(g, w, w', p, Inside(false));
  }

  lemma LeaveKeeps(g: Region, w: World, stuck: set<int>, p: nat)
    requires Inv(g, w, stuck) && Can(g, w, Leave(p))
    ensures Inv(g, Next(g, w, Leave(p)), stuck)
  {
    hide Held, Consistent, HoldsInv, Dirty, On;
    var w', m, i := Next(g, w, Leave(p)), MarksOf(w, stuck), w.holds[p].i;
    Mover(g, w, stuck, p);
    DirtyLess(g, w, p);
    DirtySame(w.holds, p, Inside(false));
    ReleaseHeld(w.s, i, m);
    DirtySame(w.holds, p, Leaving);
    ConsistentSame(g, w.s, w'.s, m, m, w.lh);
    OwnStepHolds(g, w, w', p, Leaving);
  }

  lemma ForgetKeeps(g: Region, w: World, stuck: set<int>, p: nat)
    requires Inv(g, w, stuck) && Can(g, w, Forget(p))
    ensures Inv(g, Next(g, w, Forget(p)), stuck)
  {
    hide Held, Consistent, HoldsInv, Dirty, On;
    var w', m, i := Next(g, w, Forget(p)), MarksOf(w, stuck), w.holds[p].i;
    Mover(g, w, stuck, p);
    OtherReference(g, w, p);
    HeldDrop(w.s, i, m);
    DirtyGone(w.holds, p);
    ConsistentSame(g, w.s, w'.s, m, m, w.lh);
    ForgetHolds(g, w, p);
  }

  /** If the buffer is locked, its holder has a reference beside that of a process that is leaving. */
  lemma OtherReference(g: Region, w: World, p: nat)
    requires HoldsInv(g, w) && p in w.holds && w.holds[p].phase == Leaving && Ready(w.s, w.holds[p].i)
    ensures w.s.refs.users[w.holds[p].i] > One(w.s.bufs[w.holds[p].i].locked)
  {
    var i := w.holds[p].i;
    assert p in On(w.holds, i);
    assert |On(w.holds, i)| > 0;
    if w.s.bufs[i].locked {
      var q :| InsideOf(w.holds, q, i);
      TwoOn(w.holds, i, p, q);
    }
  }

  lemma ForgetHolds(g: Region, w: World, p: nat)
    requires HoldsInv(g, w) && Can(g, w, Forget(p))
    ensures HoldsInv(g, Next(g, w, Forget(p)))
  {
    hide On;
    var w' := Next(g, w, Forget(p));
    forall k | 0 <= k < |w'.s.bufs| ensures w'.s.refs.users[k] == |On(w'.holds, k)| {
      OnRemoved(w.holds, p, k);
    }
    forall q | q in w'.holds ensures Holding(g, w', q) {
      assert Holding(g, w, q);
    }
    LockedStays(w, w');
  }

  lemma NextKeeps(g: Region, w: World, stuck: set<int>, e: Step)
    requires Inv(g, w, stuck) && Can(g, w, e) && (e.Get? ==> e.b !in stuck)
    ensures Inv(g, Next(g, w, e), stuck)
  {
    hide Inv, Next, Can;
    match e
    case Get(_, _, _) => GetKeeps(g, w, stuck, e);
    case Enter(p) => EnterKeeps(g, w, stuck, p);
    case Put(p, data) => PutKeeps(g, w, stuck, p, data);
    case Log(p) => LogKeeps(g, w, stuck, p);
    case Leave(p) => LeaveKeeps(g, w, stuck, p);
    case Forget(p) => ForgetKeeps(g, w, stuck, p);
  }

  /** Runs that leave the installed blocks alone. */
  lemma {:induction false} RunKeeps(g: Region, w: World, stuck: set<int>, es: seq<Step>, w': World)
    requires Inv(g, w, stuck) && Run(g, w, es, w') && Avoids(es, stuck)
    ensures Inv(g, w', stuck)
    decreases |es|
  {
    hide Inv, Next, Can;
    if es != [] {
      NextKeeps(g, w, stuck, es[0]);
      RunKeeps(g, Next(g, w, es[0]), stuck, es[1..], w');
    }
  }

  // ---- after a boot

  /** Nobody has a buffer, nothing is logged, and recovery installed the blocks of `hd`. */
  ghost predicate AfterBoot(g: Region, w: World, hd: seq<int>, seen: set<int>) {
    && w.holds == map[] && w.lh == [] && w.latest == w.s.logical == w.s.disk
    && Held(w.s, Marks({}, Elems(hd), {})) && Booted(g, w.s, w.stamp, Elems(hd), seen)
    && Consistent(g, w.s, Marks({}, Elems(hd), {}), []) && Shortened(w.s.bufs, hd)
  }

  lemma AfterBootInv(g: Region, w: World, hd: seq<int>, seen: set<int>)
    requires AfterBoot(g, w, hd, seen)
    ensures Inv(g, w, Elems(hd))
  {
    hide Held, Consistent, Shortened;
    NoElems();
    assert MarksOf(w, Elems(hd)) == Marks({}, Elems(hd), {});
    forall i | 0 <= i < |w.s.bufs| ensures !w.s.bufs[i].locked && w.s.refs.users[i] == |On(w.holds, i)| {
      assert On(w.holds, i) == {};
      AtRest(w.s, Marks({}, Elems(hd), {}), i);
    }
  }

  lemma AtRest(s: State, m: Marks, i: int)
    requires Held(s, m) && Ready(s, i) && s.refs.users[i] == 0
    ensures !s.bufs[i].locked
  {
    hide Cached, Gripped, Wrap;
  }

  /** An installed block is cached, in one buffer, with count 2^32 - 1. */
  lemma InstalledSlot(g: Region, w: World, hd: seq<int>, seen: set<int>, x: int) returns (a: int)
    requires AfterBoot(g, w, hd, seen) && x in hd
    ensures Ready(w.s, a) && Caches(w.s.bufs, a, x) && w.s.refs.pins[a] == -1 && Home(g, |w.s.disk|, x)
    ensures forall i :: 0 <= i < |w.s.bufs| && Names(w.s.bufs[i], ROOTDEV, x) ==> i == a
    ensures w.s.disk[x] == w.s.logical[x] == w.s.bufs[a].data && !w.s.bufs[a].locked
    ensures w.s.bufs[a].refcnt == 0xFFFF_FFFF
  {
    hide Wrap, Quiet, ValidHeader;
    assert x in Elems(hd);
    a :| Caches(w.s.bufs, a, x);
  }

  lemma NotCached(g: Region, w: World, hd: seq<int>, seen: set<int>, y: int)
    requires AfterBoot(g, w, hd, seen) && y !in hd && y !in seen && Home(g, |w.s.disk|, y)
    ensures Missing(w.s.bufs, y)
  {
    hide Held, Consistent, Shortened;
  }

  /** While somebody has the buffer of an installed block, it is the one bget recycles next. */
  lemma NextVictim(g: Region, w: World, hd: seq<int>, seen: set<int>, x: int, a: int, v: int)
    requires AfterBoot(g, w, hd, seen) && x in hd && x !in seen
    requires OnDisk(w.s, a) && Caches(w.s.bufs, a, x) && w.s.refs.pins[a] == -1
    ensures
      var t := Fill(Lock(Hit(w.s, a), a), a);
      && !AllHeld(t.bufs) && Oldest(t.bufs, w.stamp, a) && (Oldest(t.bufs, w.stamp, v) ==> v == a)
  {
    hide Tracked, Cached, Gripped, Consistent;
    var t := Fill(Lock(Hit(w.s, a), a), a);
    assert t.bufs[a].refcnt == 0;
    forall i | 0 <= i < |t.bufs| && t.bufs[i].refcnt == 0 ensures w.stamp[a] <= w.stamp[i] {
      if i != a {
        assert t.bufs[i] == w.s.bufs[i] && w.s.refs.pins[i] == 0;
      }
    }
  }

  function TheftSteps(x: int, y: int, a: int): seq<Step> {
    [Get(0, x, a), Enter(0), Get(1, y, a)]
  }

  /** The world after process 0 did bread of x and process 1 bget of y: both have the one buffer. */
  ghost function Stolen(w: World, x: int, y: int, a: int): World
    requires OnDisk(w.s, a)
  {
    w.(s := Recycle(Fill(Lock(Hit(w.s, a), a), a), a, y),
       holds := map[0 := Hold(x, a, Inside(false)), 1 := Hold(y, a, Waiting)])
  }

  /**
   For every installed block x and every block y that is not cached: a process reads x, and
   the buffer it has locked is given to the next one that asks for y.
   */
  lemma Theft(g: Region, w: World, hd: seq<int>, seen: set<int>, x: int, y: int) returns (a: int)
    requires AfterBoot(g, w, hd, seen) && x in hd && x !in seen
    requires y !in hd && y !in seen && Home(g, |w.s.disk|, y)
    ensures OnDisk(w.s, a) && Caches(w.s.bufs, a, x) && w.s.disk[x] == w.s.logical[x] == w.s.bufs[a].data
    ensures forall i :: 0 <= i < |w.s.bufs| && Names(w.s.bufs[i], ROOTDEV, x) ==> i == a
    ensures w.s.bufs[a].refcnt == 0xFFFF_FFFF && w.s.refs.users[a] == 0
    ensures Run(g, w, TheftSteps(x, y, a), Stolen(w, x, y, a))
  {
    a := InstalledSlot(g, w, hd, seen, x);
    NotCached(g, w, hd, seen, y);
    NextVictim(g, w, hd, seen, x, a, a);
    hide Held, Consistent, Shortened, Oldest;
    var w1 := Next(g, w, Get(0, x, a));
    var w2 := Next(g, w1, Enter(0));
    assert w2.s == Fill(Lock(Hit(w.s, a), a), a);
    MissingStays(w.s.bufs, w2.s.bufs, a, y);
    assert Can(g, w2, Get(1, y, a));
    var w3 := Next(g, w2, Get(1, y, a));
    assert w3 == Stolen(w, x, y, a);
    RunThree(g, w, Get(0, x, a), Enter(0), Get(1, y, a));
  }

  lemma MissingStays(bufs: seq<Buf>, bufs': seq<Buf>, a: int, y: int)
    requires Missing(bufs, y) && 0 <= a < |bufs| == |bufs'| && bufs' == bufs[a := bufs'[a]]
    requires bufs'[a].dev == bufs[a].dev && bufs'[a].blockno == bufs[a].blockno
    ensures Missing(bufs', y)
  {
    assert !Names(bufs[a], ROOTDEV, y);
  }

  lemma RunThree(g: Region, w: World, d: Step, e: Step, f: Step)
    requires Can(g, w, d) && Can(g, Next(g, w, d), e) && Can(g, Next(g, Next(g, w, d), e), f)
    ensures Run(g, w, [d, e, f], Next(g, Next(g, Next(g, w, d), e), f))
  {
    hide Can, Next;
    var w1 := Next(g, w, d);
    var w2 := Next(g, w1, e);
    var w3 := Next(g, w2, f);
    assert Run(g, w3, [], w3);
    assert [f][1..] == [];
    assert Run(g, w2, [f], w3);
    assert [e, f][1..] == [f];
    assert Run(g, w1, [e, f], w3);
    assert [d, e, f][1..] == [e, f];
  }

  /** What the first process then stores is read by nobody who asks for x. */
  lemma StoreIsLost(g: Region, w: World, hd: seq<int>, seen: set<int>, x: int, y: int, data: Block)
      returns (es: seq<Step>, w': World)
    requires AfterBoot(g, w, hd, seen) && x in hd && x !in seen
    requires y !in hd && y !in seen && Home(g, |w.s.disk|, y)
    ensures Run(g, w, es, w') && Fetches(es, {x, y}) && 0 <= x < |w'.s.disk| == |w'.latest| == |w.s.logical|
    ensures w'.latest[x] == data && Reads(w'.s, x) == w.s.logical[x]
  {
    var a := Theft(g, w, hd, seen, x, y);
    var t := Stolen(w, x, y, a);
    hide Held, Booted, Consistent, Shortened;
    HeldSized(w.s, Marks({}, Elems(hd), {}));
    assert IsInside(t, 0);
    es, w' := TheftSteps(x, y, a) + [Put(0, data)], Next(g, t, Put(0, data));
    RunMore(g, w, TheftSteps(x, y, a), t, Put(0, data));
    forall i ensures !Caches(w'.s.bufs, i, x) {
    }
  }

  ghost predicate AllTransparent(g: Region, w: World, allowed: set<int>) {
    forall es, w' :: Run(g, w, es, w') && Fetches(es, allowed) ==> Transparent(w')
  }

  /**
   After a boot that installed the blocks of `hd`, let processes fetch the blocks of `allowed`,
   one of which is not in the cache. Every read gives what was last stored, in every run, if
   and only if no installed block is among them.
   */
  lemma TransparentIff(g: Region, w: World, hd: seq<int>, seen: set<int>, allowed: set<int>, y: int)
    requires AfterBoot(g, w, hd, seen) && forall x :: x in hd ==> x !in seen
    requires y in allowed && y !in hd && y !in seen && Home(g, |w.s.disk|, y)
    ensures AllTransparent(g, w, allowed) <==> forall x :: x in hd ==> x !in allowed
  {
    hide AfterBoot, Run, Transparent, Inv;
    if forall x :: x in hd ==> x !in allowed {
      AfterBootInv(g, w, hd, seen);
      forall es, w' | Run(g, w, es, w') && Fetches(es, allowed) ensures Transparent(w') {
        RunKeeps(g, w, Elems(hd), es, w');
        InvTransparent(g, w', Elems(hd));
      }
    } else {
      var x :| x in hd && x in allowed;
      Untransparent(g, w, hd, seen, allowed, x, y);
    }
  }

  lemma Untransparent(g: Region, w: World, hd: seq<int>, seen: set<int>, allowed: set<int>, x: int, y: int)
    requires AfterBoot(g, w, hd, seen) && x in hd && x !in seen && x in allowed
    requires y in allowed && y !in hd && y !in seen && Home(g, |w.s.disk|, y)
    ensures !AllTransparent(g, w, allowed)
  {
    hide Run, Reads;
    var a := InstalledSlot(g, w, hd, seen, x);
    hide AfterBoot;
    var was := w.s.logical[x];
    var data: Block := was[0 := was[0] + 1];
    assert data[0] != was[0];
    var es, w' := StoreIsLost(g, w, hd, seen, x, y, data);
    assert !Transparent(w');
  }
}
