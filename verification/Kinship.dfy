/**
 Parents and children over whole runs of exit, wait and fork (kernel/proc.c): who may be
 whose parent, and when wait may return -1. Every process but init has a parent in use, the
 one that forked it or, once that one has called exit, init; and a process past reparent has
 no children, so its slot can be freed.
 */
module Kinship {
  import opened ExitWait

  predicate InUse(s: Sys, j: int) { Slot(s, j) && s.procs[j].state != Unused }

  /** How many slots a thread at pc knows not to be its children. */
  function Past(pc: Pc, i: int, n: int): int {
    match pc
    case Reparent(_, k) => k
    case LockChild(_, k) => k
    case GiveChild(_, k) => k
    case WakeParent(_) => n
    case BecomeZombie(_) => n
    case UnlockParent(_) => n
    case Leave => n
    case Gone => n
    case Scan(k, kids) => if kids || i == INIT then 0 else k
    case _ => 0
  }

  ghost predicate Childless(ps: seq<Proc>, i: int, k: int) {
    forall j :: 0 <= j < k && j < |ps| ==> ps[j].parent != i
  }

  /** The parent of c is in use and older; it forked c, or it is init and the one that did has called exit. */
  ghost predicate Related(s: Sys, c: int)
    requires Slot(s, c)
  {
    var pid, p := s.procs[c].pid, s.procs[c].parent;
    && InUse(s, p) && (p == INIT || s.procs[p].pid < pid)
    && pid in s.forks && (s.forks[pid] == s.procs[p].pid || (p == INIT && s.forks[pid] in s.exited))
  }

  /** A scan by init that has found no child so far has one ahead, as long as there is another process. */
  ghost predicate InitSees(s: Sys) {
    Slot(s, INIT) && s.procs[INIT].pc.Scan? && !s.procs[INIT].pc.kids && (exists j :: j != INIT && InUse(s, j)) ==>
      exists c :: s.procs[INIT].pc.k <= c < |s.procs| && Slot(s, c) && s.procs[c].parent == INIT
  }

  ghost predicate AllRelated(s: Sys) {
    forall c :: InUse(s, c) && c != INIT ==> Related(s, c)
  }

  ghost predicate Kin(s: Sys) {
    && AllRelated(s) && InitSees(s)
    && forall i :: Slot(s, i) ==> Childless(s.procs, i, Past(s.procs[i].pc, i, |s.procs|))
  }

  /** Going up from any process leads to a child of init. */
  lemma {:induction false} ChildOfInit(s: Sys, j: int) returns (c: int)
    requires AllRelated(s) && Ids(s) && InUse(s, j) && j != INIT
    ensures Slot(s, c) && s.procs[c].parent == INIT
    decreases s.procs[j].pid
  {
    var p := s.procs[j].parent;
    if p == INIT {
      c := j;
    } else {
      c := ChildOfInit(s, p);
    }
  }

  lemma ScanStarts(s: Sys)
    requires AllRelated(s) && Ids(s) && Slot(s, INIT) && s.procs[INIT].pc.Scan? && s.procs[INIT].pc.k == 0
    ensures InitSees(s)
  {
    hide AllRelated, Ids;
    if j :| j != INIT && InUse(s, j) {
      var c := ChildOfInit(s, j);
    }
  }

  /** The same processes with the same parents. */
  ghost predicate SameFamily(s: Sys, t: Sys) {
    && |t.procs| == |s.procs| && t.forks == s.forks && (forall pid :: pid in s.exited ==> pid in t.exited)
    && forall j :: Slot(s, j) ==>
         && t.procs[j].parent == s.procs[j].parent && t.procs[j].pid == s.procs[j].pid
         && (t.procs[j].state == Unused <==> s.procs[j].state == Unused)
  }

  lemma SameRelated(s: Sys, t: Sys)
    requires AllRelated(s) && SameFamily(s, t)
    ensures AllRelated(t)
  {
    forall c | InUse(t, c) && c != INIT ensures Related(t, c) {
      assert InUse(s, c) && Related(s, c);
    }
  }

  /** A step of thread i that changes no family. */
  lemma KinSame(s: Sys, t: Sys, i: int)
    requires Kin(s) && SameFamily(s, t) && Slot(s, i)
    requires forall j :: Slot(s, j) && j != i ==> t.procs[j].pc == s.procs[j].pc
    requires Childless(t.procs, i, Past(t.procs[i].pc, i, |t.procs|)) && (i == INIT ==> InitSees(t))
    ensures Kin(t)
  {
    hide AllRelated, Past;
    SameRelated(s, t);
    forall j | Slot(t, j) ensures Childless(t.procs, j, Past(t.procs[j].pc, j, |t.procs|)) {
      assert Childless(s.procs, j, Past(s.procs[j].pc, j, |s.procs|));
    }
    if i != INIT {
      SameInUse(s, t);
      SeesStill(s, t);
    }
  }

  lemma SeesStill(s: Sys, t: Sys)
    requires InitSees(s) && |t.procs| == |s.procs| && (Slot(s, INIT) ==> t.procs[INIT].pc == s.procs[INIT].pc)
    requires (exists j :: j != INIT && InUse(t, j)) ==> exists j :: j != INIT && InUse(s, j)
    requires forall c :: Slot(s, c) && s.procs[c].parent == INIT ==> t.procs[c].parent == INIT
    ensures InitSees(t)
  {
  }

  /** Steps after which thread i is not in a scan of its children. */
  lemma KinElsewhere(s: Sys, t: Sys, i: int)
    requires Kin(s) && SameFamily(s, t) && Slot(s, i)
    requires forall j :: Slot(s, j) && j != i ==> t.procs[j].pc == s.procs[j].pc
    requires t.procs[i].pc == s.procs[i].pc || (Past(t.procs[i].pc, i, |t.procs|) == 0 && !t.procs[i].pc.Scan?)
    ensures Kin(t)
  {
    hide AllRelated, Past;
    assert Childless(s.procs, i, Past(s.procs[i].pc, i, |s.procs|));
    if i == INIT && t.procs[i].pc == s.procs[i].pc {
      SameInUse(s, t);
      SeesStill(s, t);
    }
    KinSame(s, t, i);
  }

  lemma SameInUse(s: Sys, t: Sys)
    requires SameFamily(s, t)
    ensures forall j :: InUse(t, j) <==> InUse(s, j)
  {
  }

  // ---- steps that change no family

  /** Thread i moves from s to t, and no family changes. */
  ghost predicate Moves(s: Sys, t: Sys, i: int) {
    SameFamily(s, t) && Slot(s, i) && forall j :: Slot(s, j) && j != i ==> t.procs[j].pc == s.procs[j].pc
  }

  ghost predicate SameKin(p: Proc, p': Proc) {
    p'.parent == p.parent && p'.pid == p.pid && (p'.state == Unused <==> p.state == Unused)
  }

  lemma MovesPut(s: Sys, i: int, p': Proc)
    requires Slot(s, i) && SameKin(s.procs[i], p')
    ensures Moves(s, Put(s, i, p'), i)
  {
  }

  /** First another slot's lock or state, then thread i. */
  lemma MovesTwo(s: Sys, q: int, p': Proc, i: int, pc: Pc)
    requires Slot(s, q) && SameKin(s.procs[q], p') && p'.pc == s.procs[q].pc && Slot(s, i)
    ensures Moves(s, At(Put(s, q, p'), i, pc), i)
  {
  }

  lemma PlainKin(s: Sys, a: Act)
    requires Inv(s) && Kin(s) && Enabled(s, a) && !a.Go? && !a.Fork?
    ensures Kin(Next(s, a))
  {
    hide Kin, Locks, Threads, Ids, Reports, ParentKnown, ChildKnown, Watchful, AllRelated;
    var i := if a.Exit? || a.Wait? || a.Yield? || a.Sleep? then a.i else a.q;
    SlotFacts(s.procs, i);
    KinElsewhere(s, Next(s, a), i);
  }

  lemma ExitMoves(s: Sys, i: int)
    requires Inv(s) && CanGo(s, i) && InExit(s.procs[i].pc) && !s.procs[i].pc.GiveChild?
    ensures Moves(s, GoExit(s, i), i)
  {
    hide Locks, Threads, Ids, Reports, ParentKnown, ChildKnown, Watchful, Moves, AllRelated;
    SlotFacts(s.procs, i);
    var pc := s.procs[i].pc;
    if pc.LockInit? {
      MovesTwo(s, INIT, s.procs[INIT].(holder := i), i, WakeInit);
    } else if pc.WakeInit? {
      MovesTwo(s, INIT, Wake(s, INIT).procs[INIT].(holder := FREE), i, LockSelf);
      assert GoExit(s, i) == At(Put(s, INIT, Wake(s, INIT).procs[INIT].(holder := FREE)), i, LockSelf);
    } else if pc.LockParent? {
      MovesTwo(s, pc.op, s.procs[pc.op].(holder := i), i, LockSelfAgain(pc.op));
    } else if pc.LockChild? {
      MovesTwo(s, pc.k, s.procs[pc.k].(holder := i), i, GiveChild(pc.op, pc.k));
    } else if pc.WakeParent? {
      MovesTwo(s, pc.op, Wake(s, pc.op).procs[pc.op], i, BecomeZombie(pc.op));
      assert GoExit(s, i) == At(Put(s, pc.op, Wake(s, pc.op).procs[pc.op]), i, BecomeZombie(pc.op));
    } else if pc.UnlockParent? {
      MovesTwo(s, pc.op, s.procs[pc.op].(holder := FREE), i, Leave);
    } else {
      MovesPut(s, i, GoExit(s, i).procs[i]);
    }
  }

  /** How far thread i knows afterwards. */
  lemma ExitPast(s: Sys, i: int)
    requires Inv(s) && Kin(s) && CanGo(s, i) && InExit(s.procs[i].pc) && !s.procs[i].pc.GiveChild?
    ensures |GoExit(s, i).procs| == |s.procs|
    ensures Childless(s.procs, i, Past(GoExit(s, i).procs[i].pc, i, |s.procs|))
  {
    hide Inv, AllRelated, InitSees;
    PastOf(s, i);
    if s.procs[i].pc.Reparent? && s.procs[i].pc.k < |s.procs| && s.procs[s.procs[i].pc.k].parent != i {
      ChildlessMore(s.procs, i, s.procs[i].pc.k);
    }
  }

  /** The steps of exit, but for giving a child away. */
  lemma ExitKin(s: Sys, i: int)
    requires Inv(s) && Kin(s) && CanGo(s, i) && InExit(s.procs[i].pc) && !s.procs[i].pc.GiveChild?
    ensures Kin(GoExit(s, i))
  {
    hide Kin, Inv, GoExit, Past;
    var t := GoExit(s, i);
    NotInit(s, i);
    ExitMoves(s, i);
    ExitPast(s, i);
    ChildlessSame(s, t, i, Past(t.procs[i].pc, i, |t.procs|));
    KinSame(s, t, i);
  }

  lemma NotInit(s: Sys, i: int)
    requires Inv(s) && Slot(s, i) && InExit(s.procs[i].pc)
    ensures i != INIT
  {
    hide Locks, Ids, Reports, Fits, ParentKnown, ChildKnown, Watchful, Threads;
    SlotFacts(s.procs, i);
  }

  lemma PastOf(s: Sys, i: int)
    requires Kin(s) && Slot(s, i)
    ensures Childless(s.procs, i, Past(s.procs[i].pc, i, |s.procs|)) && Childless(s.procs, i, 0)
  {
    hide Past, AllRelated, InitSees;
  }

  lemma ChildlessMore(ps: seq<Proc>, i: int, k: int)
    requires Childless(ps, i, k) && 0 <= k < |ps| && ps[k].parent != i
    ensures Childless(ps, i, k + 1)
  {
  }

  lemma ChildlessSame(s: Sys, t: Sys, i: int, k: int)
    requires Childless(s.procs, i, k) && SameFamily(s, t)
    ensures Childless(t.procs, i, k)
  {
  }

  /** A step of wait that frees no child. */
  ghost predicate Keeps(s: Sys, i: int, arg: int) {
    CanGo(s, i) && !InExit(s.procs[i].pc) && GoWait(s, i, arg).reports == s.reports
  }

  lemma WaitMoves(s: Sys, i: int, arg: int)
    requires Inv(s) && Keeps(s, i, arg)
    ensures Moves(s, GoWait(s, i, arg), i)
  {
    hide Locks, Threads, Ids, Reports, ParentKnown, Watchful, Moves, AllRelated;
    SlotFacts(s.procs, i);
    var pc := s.procs[i].pc;
    if pc.LockKid? {
      MovesTwo(s, pc.k, s.procs[pc.k].(holder := i), i, CheckKid(pc.k));
    } else if pc.CheckKid? {
      if s.procs[pc.k].state != Zombie {
        MovesTwo(s, pc.k, s.procs[pc.k].(holder := FREE), i, Scan(pc.k + 1, true));
      } else {
        CopyFails(s, i, pc.k, arg);
      }
    } else {
      MovesPut(s, i, GoWait(s, i, arg).procs[i]);
    }
  }

  lemma Longer(rs: seq<Report>, r: Report)
    ensures rs + [r] != rs
  {
    assert |rs + [r]| == |rs| + 1;
  }

  lemma CopyFails(s: Sys, i: int, k: int, arg: int)
    requires Inv(s) && Keeps(s, i, arg) && s.procs[i].pc == CheckKid(k) && s.procs[k].state == Zombie
    ensures arg == 0 && Moves(s, GoWait(s, i, arg), i)
  {
    hide Inv;
    Longer(s.reports, Report(i, s.procs[k].pid, s.procs[k].xstate));
  }

  /** Where a scan goes. */
  lemma WaitPast(s: Sys, i: int, arg: int)
    requires Inv(s) && Kin(s) && Keeps(s, i, arg) && |GoWait(s, i, arg).procs| == |s.procs|
    ensures Childless(s.procs, i, Past(GoWait(s, i, arg).procs[i].pc, i, |s.procs|))
  {
    hide Locks, Threads, Ids, Reports, ParentKnown, Watchful, Family, ChildKnown, Moves, AllRelated, InitSees;
    SlotFacts(s.procs, i);
    PastOf(s, i);
    hide Kin, Inv, Childless;
    if s.procs[i].pc.Scan? && s.procs[i].pc.k < |s.procs| && s.procs[s.procs[i].pc.k].parent != i
       && Past(s.procs[i].pc, i, |s.procs|) == s.procs[i].pc.k {
      ChildlessMore(s.procs, i, s.procs[i].pc.k);
    }
  }

  lemma InitScans(s: Sys, arg: int)
    requires Inv(s) && Kin(s) && Keeps(s, INIT, arg) && Moves(s, GoWait(s, INIT, arg), INIT)
    ensures InitSees(GoWait(s, INIT, arg))
  {
    hide Inv, AllRelated, Past, Childless;
    var t := GoWait(s, INIT, arg);
    if s.procs[INIT].pc.Scan? && t.procs[INIT].pc.Scan? {
      SeesOn(s, t, arg);
    } else if t.procs[INIT].pc.Scan? && !t.procs[INIT].pc.kids {
      ScanFirst(s, arg);
      NextIds(s, Go(INIT, arg));
      SameRelated(s, t);
      ScanStarts(t);
    }
  }

  lemma NextIds(s: Sys, a: Act)
    requires Inv(s) && Enabled(s, a)
    ensures Ids(Next(s, a))
  {
    hide Locks, Threads, Reports, Ids;
    NextKeeps(s, a);
  }

  lemma SeesOn(s: Sys, t: Sys, arg: int)
    requires InitSees(s) && CanGo(s, INIT) && s.procs[INIT].pc.Scan? && t == GoWait(s, INIT, arg) && SameFamily(s, t)
    requires t.procs[INIT].pc.Scan?
    ensures InitSees(t)
  {
    SameInUse(s, t);
  }

  /** A scan that starts, starts at 0. */
  lemma ScanFirst(s: Sys, arg: int)
    requires Inv(s) && Keeps(s, INIT, arg) && |GoWait(s, INIT, arg).procs| == |s.procs|
    requires !s.procs[INIT].pc.Scan? && GoWait(s, INIT, arg).procs[INIT].pc.Scan?
    ensures GoWait(s, INIT, arg).procs[INIT].pc.kids || GoWait(s, INIT, arg).procs[INIT].pc.k == 0
  {
    hide Locks, Threads, Ids, Reports, ParentKnown, Watchful;
    SlotFacts(s.procs, INIT);
  }

  /** The steps of wait, but for freeing a child. */
  lemma WaitKin(s: Sys, i: int, arg: int)
    requires Inv(s) && Kin(s) && Keeps(s, i, arg)
    ensures Kin(GoWait(s, i, arg))
  {
    hide Kin, Inv, GoWait, Past, InitSees;
    var t := GoWait(s, i, arg);
    WaitMoves(s, i, arg);
    WaitPast(s, i, arg);
    ChildlessSame(s, t, i, Past(t.procs[i].pc, i, |t.procs|));
    if i == INIT {
      InitScans(s, arg);
    }
    KinSame(s, t, i);
  }

  // ---- steps that do

  /** reparent gives child k of i to init. */
  lemma GiveKin(s: Sys, i: int)
    requires Inv(s) && Kin(s) && CanGo(s, i) && s.procs[i].pc.GiveChild?
    ensures Kin(GoExit(s, i))
  {
    hide Inv, Kin, AllRelated, InitSees, Past, Childless;
    var t, k := GoExit(s, i), s.procs[i].pc.k;
    GiveFacts(s, i);
    GiveRelated(s, i);
    forall j | Slot(t, j) ensures Childless(t.procs, j, Past(t.procs[j].pc, j, |t.procs|)) {
      GiveChildless(s, i, j);
    }
    GiveSees(s, t, i, k);
    assert Kin(t) by { KinIntro(t); }
  }

  lemma KinIntro(t: Sys)
    requires AllRelated(t) && InitSees(t)
    requires forall j :: Slot(t, j) ==> Childless(t.procs, j, Past(t.procs[j].pc, j, |t.procs|))
    ensures Kin(t)
  {
  }

  /** What the step does, and to whom. */
  lemma GiveFacts(s: Sys, i: int)
    requires Inv(s) && Kin(s) && CanGo(s, i) && s.procs[i].pc.GiveChild?
    ensures
      var t, pc := GoExit(s, i), s.procs[i].pc;
      && |t.procs| == |s.procs| && Slot(s, pc.k) && pc.k != i && i != INIT && pc.k != INIT && InitSees(s)
      && s.procs[pc.k].parent == i && Slot(s, INIT) && InUse(s, INIT) && Past(s.procs[INIT].pc, INIT, |s.procs|) == 0
      && t == s.(procs := s.procs[pc.k := s.procs[pc.k].(parent := INIT, holder := FREE)]
                                 [i := s.procs[i].(pc := Reparent(pc.op, pc.k + 1))])
  {
    hide Locks, Threads, Ids, Reports, ParentKnown, Watchful, AllRelated;
    SlotFacts(s.procs, i);
    SlotFacts(s.procs, INIT);
    NotInit(s, i);
  }

  lemma GiveRelated(s: Sys, i: int)
    requires Inv(s) && Kin(s) && CanGo(s, i) && s.procs[i].pc.GiveChild?
    ensures AllRelated(GoExit(s, i))
  {
    hide Locks, Threads, Reports, InitSees, Childless, Past;
    GiveFacts(s, i);
    var t := GoExit(s, i);
    assert Leaving(s.procs[i]);
    forall c | InUse(t, c) && c != INIT ensures Related(t, c) {
      assert InUse(s, c) && Related(s, c);
    }
  }

  lemma GiveChildless(s: Sys, i: int, j: int)
    requires Inv(s) && Kin(s) && CanGo(s, i) && s.procs[i].pc.GiveChild? && Slot(s, j)
    ensures
      var t := GoExit(s, i);
      |t.procs| == |s.procs| && Childless(t.procs, j, Past(t.procs[j].pc, j, |t.procs|))
  {
    GiveFacts(s, i);
    PastOf(s, j);
    hide Inv, Kin;
  }

  lemma GiveSees(s: Sys, t: Sys, i: int, k: int)
    requires InitSees(s) && |t.procs| == |s.procs| && (Slot(s, INIT) ==> t.procs[INIT].pc == s.procs[INIT].pc)
    requires forall j :: Slot(s, j) ==> (t.procs[j].state == Unused <==> s.procs[j].state == Unused)
    requires forall c :: Slot(s, c) && s.procs[c].parent == INIT ==> t.procs[c].parent == INIT
    ensures InitSees(t)
  {
    assert forall j :: InUse(t, j) <==> InUse(s, j);
    SeesStill(s, t);
  }

  /** wait frees the slot of a child, which has no children itself. */
  ghost predicate Reaps(s: Sys, i: int, arg: int) {
    CanGo(s, i) && s.procs[i].pc.CheckKid? && s.procs[s.procs[i].pc.k].state == Zombie && arg != 0
  }

  lemma ReapFacts(s: Sys, i: int, arg: int)
    requires Inv(s) && Kin(s) && Reaps(s, i, arg)
    ensures
      var t, k := GoWait(s, i, arg), s.procs[i].pc.k;
      && |t.procs| == |s.procs| && Slot(s, k) && k != i && k != INIT && s.procs[k].parent == i
      && Childless(s.procs, k, |s.procs|) && t.forks == s.forks && t.exited == s.exited
      && t.procs == s.procs[k := Cleared(FREE)][i := s.procs[i].(holder := FREE, pc := User)]
  {
    hide Locks, Threads, Ids, Reports, ParentKnown, Watchful, AllRelated, InitSees;
    var k := s.procs[i].pc.k;
    SlotFacts(s.procs, i);
    SlotFacts(s.procs, k);
    HoldsIs(s, i, k);
    ZombieGone(s, i, k);
    PastOf(s, k);
  }

  lemma ReapKin(s: Sys, i: int, arg: int)
    requires Inv(s) && Kin(s) && Reaps(s, i, arg)
    ensures Kin(GoWait(s, i, arg))
  {
    var t, k := GoWait(s, i, arg), s.procs[i].pc.k;
    ReapFacts(s, i, arg);
    hide Inv, GoWait, Past, AllRelated, InitSees, Childless;
    ReapRelated(s, t, i, k);
    forall j | Slot(t, j) ensures Childless(t.procs, j, Past(t.procs[j].pc, j, |t.procs|)) {
      ReapChildless(s, i, arg, j);
    }
    ReapSees(s, t, i, k);
    KinIntro(t);
  }

  lemma ReapRelated(s: Sys, t: Sys, i: int, k: int)
    requires AllRelated(s) && Slot(s, i) && Slot(s, k) && k != i && t.forks == s.forks && t.exited == s.exited
    requires Childless(s.procs, k, |s.procs|)
    requires t.procs == s.procs[k := Cleared(FREE)][i := s.procs[i].(holder := FREE, pc := User)]
    ensures AllRelated(t)
  {
    forall c | InUse(t, c) && c != INIT ensures Related(t, c) {
      assert InUse(s, c) && Related(s, c);
    }
  }

  lemma ReapChildless(s: Sys, i: int, arg: int, j: int)
    requires Inv(s) && Kin(s) && Reaps(s, i, arg) && Slot(s, j)
    ensures
      var t := GoWait(s, i, arg);
      |t.procs| == |s.procs| && Childless(t.procs, j, Past(t.procs[j].pc, j, |t.procs|))
  {
    ReapFacts(s, i, arg);
    PastOf(s, j);
    hide Inv, Kin, GoWait;
  }

  lemma ReapSees(s: Sys, t: Sys, i: int, k: int)
    requires InitSees(s) && Slot(s, i) && Slot(s, k) && k != i && k != INIT && s.procs[k].parent == i
    requires t.procs == s.procs[k := Cleared(FREE)][i := s.procs[i].(holder := FREE, pc := User)]
    ensures InitSees(t)
  {
    if i != INIT {
      assert forall j :: InUse(t, j) ==> InUse(s, j);
      SeesStill(s, t);
    }
  }

  lemma ForkKin(s: Sys, i: int, k: int)
    requires Inv(s) && Kin(s) && Enabled(s, Fork(i, k))
    ensures Kin(Next(s, Fork(i, k)))
  {
    var t := Next(s, Fork(i, k));
    ForkFacts(s, i, k);
    hide Inv, Past, AllRelated, InitSees, Childless;
    ForkRelated(s, t, i, k);
    forall j | Slot(t, j) ensures Childless(t.procs, j, Past(t.procs[j].pc, j, |t.procs|)) {
      ForkChildless(s, i, k, j);
    }
    ForkSees(s, t, i, k);
    KinIntro(t);
  }

  lemma ForkRelated(s: Sys, t: Sys, i: int, k: int)
    requires AllRelated(s) && InUse(s, i) && Slot(s, k) && !InUse(s, k) && t.exited == s.exited
    requires forall c :: InUse(s, c) ==> s.procs[c].pid < s.nextpid
    requires t.procs == s.procs[k := Forked(s, i, k)] && t.forks == s.forks[s.nextpid := s.procs[i].pid]
    ensures AllRelated(t)
  {
    forall c | InUse(t, c) && c != INIT ensures Related(t, c) {
      if c != k {
        assert InUse(s, c) && Related(s, c);
      }
    }
  }

  lemma ForkFacts(s: Sys, i: int, k: int)
    requires Inv(s) && Enabled(s, Fork(i, k))
    ensures InUse(s, i) && !InUse(s, k) && k != INIT && s.procs[k].parent == NONE && s.procs[i].pid < s.nextpid
    ensures forall c :: InUse(s, c) ==> s.procs[c].pid < s.nextpid
  {
    hide Locks, Threads, Reports, ParentKnown, Watchful, ChildKnown;
    SlotFacts(s.procs, i);
    SlotFacts(s.procs, k);
  }

  lemma ForkChildless(s: Sys, i: int, k: int, j: int)
    requires Inv(s) && Kin(s) && Enabled(s, Fork(i, k)) && Slot(s, j)
    ensures
      var t := Next(s, Fork(i, k));
      |t.procs| == |s.procs| && Childless(t.procs, j, Past(t.procs[j].pc, j, |t.procs|))
  {
    PastOf(s, j);
    hide Inv, Kin;
  }

  lemma ForkSees(s: Sys, t: Sys, i: int, k: int)
    requires InitSees(s) && AtUser(s, i) && InUse(s, i) && Slot(s, k) && !InUse(s, k) && k != INIT
    requires s.procs[k].parent == NONE && t.procs == s.procs[k := Forked(s, i, k)]
    ensures InitSees(t)
  {
    if Slot(s, INIT) && s.procs[INIT].pc.Scan? {
      assert i != INIT && InUse(s, i);
      SeesStill(s, t);
    }
  }

  // ---- every step, every run

  lemma NextKin(s: Sys, a: Act)
    requires Inv(s) && Kin(s) && Enabled(s, a)
    ensures Kin(Next(s, a))
  {
    hide Inv, Kin, GoExit, GoWait;
    if a.Fork? {
      ForkKin(s, a.i, a.k);
    } else if a.Go? {
      if s.procs[a.i].pc.GiveChild? {
        GiveKin(s, a.i);
      } else if InExit(s.procs[a.i].pc) {
        ExitKin(s, a.i);
      } else if Reaps(s, a.i, a.arg) {
        ReapKin(s, a.i, a.arg);
      } else {
        assert Keeps(s, a.i, a.arg) by { NoReport(s, a.i, a.arg); }
        WaitKin(s, a.i, a.arg);
      }
    } else {
      PlainKin(s, a);
    }
  }

  lemma NoReport(s: Sys, i: int, arg: int)
    requires CanGo(s, i) && !InExit(s.procs[i].pc) && !Reaps(s, i, arg)
    ensures Keeps(s, i, arg)
  {
  }

  lemma BootKin(n: nat)
    requires n > 0
    ensures Kin(Boot(n))
  {
  }

  lemma {:induction false} RunKin(s: Sys, acts: seq<Act>, t: Sys)
    requires Inv(s) && Kin(s) && Run(s, acts, t)
    ensures Inv(t) && Kin(t)
    decreases |acts|
  {
    hide Inv, Kin, Enabled, Next;
    if acts != [] {
      NextKeeps(s, acts[0]);
      NextKin(s, acts[0]);
      RunKin(Next(s, acts[0]), acts[1..], t);
    }
  }

  /**
   When wait returns -1: the process was killed, or has no child at that moment, or the status
   of a zombie child could not be copied out. This holds of init too.
   */
  lemma WaitFailsOnly(n: nat, acts: seq<Act>, s: Sys, i: int, arg: int)
    requires n > 0 && Run(Boot(n), acts, s) && Enabled(s, Go(i, arg))
    requires s.procs[i].pc.Scan? || s.procs[i].pc.CheckKid?
    requires AtUser(Next(s, Go(i, arg)), i) && Next(s, Go(i, arg)).reports == s.reports
    ensures
      || (s.procs[i].pc.Scan? && (s.procs[i].killed || forall j :: Slot(s, j) ==> s.procs[j].parent != i))
      || (s.procs[i].pc.CheckKid? && Slot(s, s.procs[i].pc.k) && s.procs[s.procs[i].pc.k].parent == i
          && s.procs[s.procs[i].pc.k].state == Zombie && arg == 0)
  {
    hide Run, Kin, Inv;
    BootSound(n);
    BootKin(n);
    RunKin(Boot(n), acts, s);
    if s.procs[i].pc.Scan? {
      if !s.procs[i].killed {
        NoneLeft(s, i);
      }
    } else {
      KidFails(s, i, arg);
    }
  }

  lemma NoneLeft(s: Sys, i: int)
    requires Inv(s) && Kin(s) && Slot(s, i) && s.procs[i].pc == Scan(|s.procs|, false)
    ensures forall j :: Slot(s, j) ==> s.procs[j].parent != i
  {
    hide Locks, Ids, Reports, AllRelated, ParentKnown, Watchful;
    PastOf(s, i);
    if i == INIT {
      forall j | Slot(s, j) ensures s.procs[j].parent != INIT {
        SlotFacts(s.procs, j);
        assert InUse(s, j) ==> j == INIT;
      }
    }
  }

  lemma KidFails(s: Sys, i: int, arg: int)
    requires Inv(s) && CanGo(s, i) && s.procs[i].pc.CheckKid?
    requires AtUser(GoWait(s, i, arg), i) && GoWait(s, i, arg).reports == s.reports
    ensures Slot(s, s.procs[i].pc.k) && s.procs[s.procs[i].pc.k].parent == i
    ensures s.procs[s.procs[i].pc.k].state == Zombie && arg == 0
  {
    hide Locks, Threads, Ids, Reports, ParentKnown, Watchful;
    SlotFacts(s.procs, i);
    var k := s.procs[i].pc.k;
    Longer(s.reports, Report(i, s.procs[k].pid, s.procs[k].xstate));
  }

  /**
   In every reachable state each process but init has a parent in use: the one that forked it
   or, only once that one has called exit, init.
   */
  lemma ParentForked(n: nat, acts: seq<Act>, s: Sys, c: int)
    requires n > 0 && Run(Boot(n), acts, s) && InUse(s, c) && c != INIT
    ensures Related(s, c)
  {
    hide Run, Inv;
    BootSound(n);
    BootKin(n);
    RunKin(Boot(n), acts, s);
  }

  /** Nobody calls exit twice, so the record of a pid stays. */
  lemma {:induction false} ExitedStays(s: Sys, acts: seq<Act>, t: Sys, pid: int)
    requires Inv(s) && Run(s, acts, t) && pid in s.exited
    ensures pid in t.exited && t.exited[pid] == s.exited[pid]
    decreases |acts|
  {
    hide Inv, Enabled, Next;
    if acts != [] {
      NextKeeps(s, acts[0]);
      StepStays(s, acts[0], pid);
      ExitedStays(Next(s, acts[0]), acts[1..], t, pid);
    }
  }

  lemma StepStays(s: Sys, a: Act, pid: int)
    requires Inv(s) && Enabled(s, a) && pid in s.exited
    ensures pid in Next(s, a).exited && Next(s, a).exited[pid] == s.exited[pid]
  {
    hide Locks, Threads, Reports, GoExit, GoWait;
    if a.Exit? {
      SlotFacts(s.procs, a.i);
    } else if a.Go? {
      GoExits(s, a.i, a.arg);
    }
  }

  lemma GoExits(s: Sys, i: int, arg: int)
    requires CanGo(s, i)
    ensures GoExit(s, i).exited == s.exited && GoWait(s, i, arg).exited == s.exited
  {
  }

  /** What is on record of exit is what its caller passed. */
  lemma {:induction false} ExitedByCall(s: Sys, acts: seq<Act>, t: Sys, pid: int) returns (k: nat, u: Sys)
    requires Inv(s) && Run(s, acts, t) && pid in t.exited && pid !in s.exited
    ensures k < |acts| && Run(s, acts[..k], u) && acts[k].Exit? && Enabled(u, acts[k])
    ensures u.procs[acts[k].i].pid == pid && t.exited[pid] == acts[k].status
    decreases |acts|
  {
    hide Inv, Enabled, Next;
    var s1 := Next(s, acts[0]);
    NextKeeps(s, acts[0]);
    if pid in s1.exited {
      ExitedStays(s1, acts[1..], t, pid);
      Recorded(s, acts[0], pid);
      k, u := 0, s;
    } else {
      k, u := ExitedByCall(s1, acts[1..], t, pid);
      k := k + 1;
      assert acts[..k][1..] == acts[1..][..k - 1];
    }
  }

  lemma Recorded(s: Sys, a: Act, pid: int)
    requires Enabled(s, a) && pid in Next(s, a).exited && pid !in s.exited
    ensures a.Exit? && s.procs[a.i].pid == pid && Next(s, a).exited[pid] == a.status
  {
    hide GoExit, GoWait;
    if a.Go? {
      GoExits(s, a.i, a.arg);
    }
  }

  /** Every successful wait reports what the child passed to exit. */
  lemma ReportsCall(n: nat, acts: seq<Act>, s: Sys, r: int) returns (k: nat, u: Sys)
    requires n > 0 && Run(Boot(n), acts, s) && 0 <= r < |s.reports|
    ensures k < |acts| && Run(Boot(n), acts[..k], u) && acts[k].Exit? && Enabled(u, acts[k])
    ensures u.procs[acts[k].i].pid == s.reports[r].pid && s.reports[r].status == acts[k].status
  {
    hide Run, Inv;
    BootSound(n);
    ReportedOnce(n, acts, s, r, r);
    k, u := ExitedByCall(Boot(n), acts, s, s.reports[r].pid);
  }
}
