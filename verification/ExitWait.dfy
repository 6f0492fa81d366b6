/**
 exit, wait and reparent of kernel/proc.c with the process locks, sleep and wakeup they use,
 as a machine whose steps interleave freely. A step reads or writes shared fields while the
 code holds the locks it holds there; parent fields are also read without a lock, as the
 code does. The scheduler takes over the lock of a process that gives up the CPU.
 */
module ExitWait {

  /** The slot of the init process. */
  const INIT: int := 0
  /** No parent, or no channel; a lock nobody holds; a lock the scheduler holds. */
  const NONE: int := -1
  const FREE: int := -1
  const CPU: int := -2

  datatype PState = Unused | Sleeping | Runnable | Running | Zombie

  /** Where a process's kernel thread is. `op` is exit's original_parent, k a scan index. */
  datatype Pc =
    | Idle
    | User
    // exit
    | LockInit | WakeInit | LockSelf | ReadParent
    | LockParent(op: int) | LockSelfAgain(op: int)
    | Reparent(op: int, k: int) | LockChild(op: int, k: int) | GiveChild(op: int, k: int)
    | WakeParent(op: int) | BecomeZombie(op: int) | UnlockParent(op: int) | Leave | Gone
    // wait
    | LockWait | Scan(k: int, kids: bool) | LockKid(k: int) | CheckKid(k: int) | InWait | Woken
    // yield, and sleep on any other channel; the thread goes on at `back`
    | Parked(back: Pc) | Resumed(back: Pc)

  /** `status` is the argument of the exit call the thread is in. */
  datatype Proc = Proc(state: PState, parent: int, pid: int, xstate: int, chan: int, killed: bool, holder: int, pc: Pc,
          status: int)

  /** What a successful wait returned: to which process, for which pid, with which status. */
  datatype Report = Report(waiter: int, pid: int, status: int)

  /**
   For the record: `exited` has the argument of every call of exit by pid, `reports` every
   successful wait, and `forks` the pid of the process that forked a pid.
   */
  datatype Sys = Sys(procs: seq<Proc>, nextpid: int, exited: map<int, int>, reports: seq<Report>, forks: map<int, int>)

  // ---- steps

  function Put(s: Sys, i: int, p: Proc): Sys
    requires 0 <= i < |s.procs|
  {
    s.(procs := s.procs[i := p])
  }

  function At(s: Sys, i: int, pc: Pc): Sys
    requires 0 <= i < |s.procs|
  {
    Put(s, i, s.procs[i].(pc := pc))
  }

  function SetLock(s: Sys, q: int, holder: int): Sys
    requires 0 <= q < |s.procs|
  {
    Put(s, q, s.procs[q].(holder := holder))
  }

  /** wakeup1 */
  function Wake(s: Sys, q: int): Sys
    requires 0 <= q < |s.procs|
  {
    if s.procs[q].chan == q && s.procs[q].state == Sleeping then Put(s, q, s.procs[q].(state := Runnable)) else s
  }

  /** An entry of the process table as freeproc leaves it, its lock still held. */
  function Cleared(holder: int): Proc { Proc(Unused, NONE, 0, 0, NONE, false, holder, Idle, 0) }

  predicate Slot(s: Sys, i: int) { 0 <= i < |s.procs| }

  predicate LockFree(s: Sys, q: int) { Slot(s, q) && s.procs[q].holder == FREE }

  datatype Act =
    | Fork(i: int, k: int)
    | Exit(i: int, status: int)
    | Wait(i: int)
    | Yield(i: int)
    | Sleep(i: int, chan: int)
    | Wakeup(q: int, chan: int)
    | Kill(q: int)
    | Pick(q: int)
    | Unlock(q: int)
    | Go(i: int, arg: int)

  /** The process may take its next step; it waits while a lock it needs is held. */
  predicate CanGo(s: Sys, i: int) {
    && Slot(s, i)
    && match s.procs[i].pc
       case LockInit => LockFree(s, INIT)
       case LockSelf => LockFree(s, i)
       case LockParent(op) => LockFree(s, op)
       case LockSelfAgain(_) => LockFree(s, i)
       case LockChild(_, k) => LockFree(s, k)
       case LockWait => LockFree(s, i)
       case LockKid(k) => LockFree(s, k)
       case WakeInit => Slot(s, INIT)
       case Reparent(_, k) => 0 <= k <= |s.procs|
       case GiveChild(_, k) => Slot(s, k)
       case WakeParent(op) => Slot(s, op)
       case UnlockParent(op) => Slot(s, op)
       case Scan(k, _) => 0 <= k <= |s.procs|
       case CheckKid(k) => Slot(s, k)
       case Idle => false
       case User => false
       case Gone => false
       case InWait => false
       case Parked(_) => false
       case _ => true
  }

  function GoExit(s: Sys, i: int): Sys
    requires CanGo(s, i)
  {
    var p := s.procs[i];
    match p.pc
    case LockInit => At(SetLock(s, INIT, i), i, WakeInit)
    case WakeInit => At(SetLock(Wake(s, INIT), INIT, FREE), i, LockSelf)
    case LockSelf => Put(s, i, p.(holder := i, pc := ReadParent))
    case ReadParent => Put(s, i, p.(holder := FREE, pc := LockParent(p.parent)))
    case LockParent(op) => At(SetLock(s, op, i), i, LockSelfAgain(op))
    case LockSelfAgain(op) => Put(s, i, p.(holder := i, pc := Reparent(op, 0)))
    case Reparent(op, k) =>
      if k == |s.procs| then At(s, i, WakeParent(op))
      else At(s, i, if s.procs[k].parent == i then LockChild(op, k) else Reparent(op, k + 1))
    case LockChild(op, k) => At(SetLock(s, k, i), i, GiveChild(op, k))
    case GiveChild(op, k) => At(Put(s, k, s.procs[k].(parent := INIT, holder := FREE)), i, Reparent(op, k + 1))
    case WakeParent(op) => At(Wake(s, op), i, BecomeZombie(op))
    case BecomeZombie(op) => Put(s, i, p.(xstate := p.status, state := Zombie, pc := UnlockParent(op)))
    case UnlockParent(op) => At(SetLock(s, op, FREE), i, Leave)
    case Leave => Put(s, i, p.(holder := CPU, pc := Gone))
    case _ => s
  }

  /** wait: arg 0 means copying out the status fails. */
  function GoWait(s: Sys, i: int, arg: int): Sys
    requires CanGo(s, i)
  {
    var p := s.procs[i];
    match p.pc
    case LockWait => Put(s, i, p.(holder := i, pc := Scan(0, false)))
    case Scan(k, kids) =>
      if k < |s.procs| then At(s, i, if s.procs[k].parent == i then LockKid(k) else Scan(k + 1, kids))
      else if !kids || p.killed then Put(s, i, p.(holder := FREE, pc := User))
      else Put(s, i, p.(chan := i, state := Sleeping, holder := CPU, pc := InWait))
    case LockKid(k) => At(SetLock(s, k, i), i, CheckKid(k))
    case CheckKid(k) =>
      var np := s.procs[k];
      if np.state != Zombie then At(SetLock(s, k, FREE), i, Scan(k + 1, true))
      else
        var t := Put(s, k, if arg == 0 then np.(holder := FREE) else Cleared(FREE));
        var t' := Put(t, i, t.procs[i].(holder := FREE, pc := User));
        if arg == 0 then t' else t'.(reports := s.reports + [Report(i, np.pid, np.xstate)])
    case Woken => Put(s, i, p.(chan := NONE, pc := Scan(0, false)))
    case Resumed(back) => Put(s, i, p.(chan := NONE, holder := FREE, pc := back))
    case _ => s
  }

  predicate InExit(pc: Pc) {
    match pc
    case LockInit => true
    case WakeInit => true
    case LockSelf => true
    case ReadParent => true
    case LockParent(_) => true
    case LockSelfAgain(_) => true
    case Reparent(_, _) => true
    case LockChild(_, _) => true
    case GiveChild(_, _) => true
    case WakeParent(_) => true
    case BecomeZombie(_) => true
    case UnlockParent(_) => true
    case Leave => true
    case _ => false
  }

  /** No spinlock is held here, so interrupts are on and a timer interrupt makes the process yield. */
  predicate Interruptible(pc: Pc) {
    pc in {User, LockInit, LockSelf, LockWait} || pc.LockParent?
  }

  /** Where the thread goes on when it has the CPU again. */
  function Place(pc: Pc): Pc {
    if pc.Parked? || pc.Resumed? then pc.back else pc
  }

  predicate AtUser(s: Sys, i: int) { Slot(s, i) && s.procs[i].pc == User }

  predicate Enabled(s: Sys, a: Act) {
    match a
    case Fork(i, k) => AtUser(s, i) && LockFree(s, k) && s.procs[k].state == Unused
    case Exit(i, _) => AtUser(s, i) && i != INIT
    case Wait(i) => AtUser(s, i)
    case Yield(i) => LockFree(s, i) && Interruptible(s.procs[i].pc)
    case Sleep(i, chan) => AtUser(s, i) && LockFree(s, i) && !(0 <= chan < |s.procs|)
    case Wakeup(q, chan) => LockFree(s, q) && !(0 <= chan < |s.procs|)
    case Kill(q) => LockFree(s, q)
    case Pick(q) => LockFree(s, q) && s.procs[q].state == Runnable
    case Unlock(q) => Slot(s, q) && s.procs[q].holder == CPU
    case Go(i, _) => CanGo(s, i)
  }

  /** The child of i in slot k; a kill that found the slot unused is still in force. */
  function Forked(s: Sys, i: int, k: int): Proc
    requires Slot(s, k)
  {
    Proc(Runnable, i, s.nextpid, 0, NONE, s.procs[k].killed, FREE, Parked(User), 0)
  }

  function Next(s: Sys, a: Act): Sys
    requires Enabled(s, a)
  {
    match a
    case Fork(i, k) =>
      Put(s, k, Forked(s, i, k)).(nextpid := s.nextpid + 1, forks := s.forks[s.nextpid := s.procs[i].pid])
    case Exit(i, status) =>
      Put(s, i, s.procs[i].(pc := LockInit, status := status)).(exited := s.exited[s.procs[i].pid := status])
    case Wait(i) => At(s, i, LockWait)
    case Yield(i) => Put(s, i, s.procs[i].(state := Runnable, holder := CPU, pc := Parked(s.procs[i].pc)))
    case Sleep(i, chan) => Put(s, i, s.procs[i].(chan := chan, state := Sleeping, holder := CPU, pc := Parked(User)))
    case Wakeup(q, chan) =>
      if s.procs[q].state == Sleeping && s.procs[q].chan == chan then Put(s, q, s.procs[q].(state := Runnable)) else s
    case Kill(q) =>
      var p := s.procs[q];
      Put(s, q, p.(killed := true, state := if p.state == Sleeping then Runnable else p.state))
    case Pick(q) =>
      Put(s, q, s.procs[q].(state := Running, holder := q,
                            pc := if s.procs[q].pc == InWait then Woken else Resumed(Place(s.procs[q].pc))))
    case Unlock(q) => SetLock(s, q, FREE)
    case Go(i, arg) => if InExit(s.procs[i].pc) then GoExit(s, i) else GoWait(s, i, arg)
  }

  // ---- the invariant

  /** The locks a thread holds at pc. */
  predicate Holds(pc: Pc, i: int, q: int) {
    match pc
    case WakeInit => q == INIT
    case ReadParent => q == i
    case LockSelfAgain(op) => q == op
    case Reparent(op, _) => q == op || q == i
    case LockChild(op, _) => q == op || q == i
    case GiveChild(op, k) => q == op || q == i || q == k
    case WakeParent(op) => q == op || q == i
    case BecomeZombie(op) => q == op || q == i
    case UnlockParent(op) => q == op || q == i
    case Leave => q == i
    case Scan(_, _) => q == i
    case LockKid(_) => q == i
    case CheckKid(k) => q == i || q == k
    case Woken => q == i
    case Resumed(_) => q == i
    case _ => false
  }

  ghost predicate Locks(ps: seq<Proc>) {
    forall i, q :: 0 <= i < |ps| && 0 <= q < |ps| ==> (Holds(ps[i].pc, i, q) <==> ps[q].holder == i)
  }

  /** The state field and the place of the thread go together. */
  predicate Fits(p: Proc, i: int, n: int) {
    match p.pc
    case Idle => p.state == Unused && p.parent == NONE
    case InWait => (p.state == Sleeping || p.state == Runnable) && p.chan == i
    case Parked(back) => (p.state == Sleeping || p.state == Runnable) && !(0 <= p.chan < n) && Interruptible(back)
    case UnlockParent(_) => p.state == Zombie
    case Leave => p.state == Zombie
    case Gone => p.state == Zombie
    case Woken => p.state == Running
    case Resumed(back) => p.state == Running && Interruptible(back)
    case _ => p.state == Running && p.chan == NONE
  }

  /** exit's original parent, once read, is still the parent or init has taken over. */
  predicate ParentKnown(p: Proc, i: int, n: int) {
    match Place(p.pc)
    case LockParent(op) => op != i && (p.parent == op || p.parent == INIT)
    case LockSelfAgain(op) => 0 <= op < n && op != i && (p.parent == op || p.parent == INIT)
    case Reparent(op, k) => 0 <= op < n && op != i && 0 <= k <= n && (p.parent == op || p.parent == INIT)
    case LockChild(op, _) => 0 <= op < n && op != i && (p.parent == op || p.parent == INIT)
    case GiveChild(op, k) => 0 <= op < n && op != i && k != op && (p.parent == op || p.parent == INIT)
    case WakeParent(op) => 0 <= op < n && op != i && (p.parent == op || p.parent == INIT)
    case BecomeZombie(op) => 0 <= op < n && op != i && (p.parent == op || p.parent == INIT)
    case UnlockParent(op) => 0 <= op < n && op != i
    case _ => true
  }

  /** Nobody is its own parent, and init has none, never exits and is never freed. */
  predicate Family(p: Proc, i: int) {
    p.parent != i && (i == INIT ==> p.parent == NONE && !InExit(Place(p.pc)) && p.pc != Gone && p.state != Unused)
  }

  /** The child a scan has picked is still the scanner's. */
  predicate ChildKnown(ps: seq<Proc>, i: int)
    requires 0 <= i < |ps|
  {
    match ps[i].pc
    case LockChild(_, k) => 0 <= k < |ps| && ps[k].parent == i
    case GiveChild(_, k) => 0 <= k < |ps| && ps[k].parent == i
    case LockKid(k) => 0 <= k < |ps| && ps[k].parent == i
    case CheckKid(k) => 0 <= k < |ps| && ps[k].parent == i
    case Scan(k, _) => 0 <= k <= |ps|
    case _ => true
  }

  /** No child of i among the first k slots is a zombie. */
  ghost predicate NoZombieBelow(ps: seq<Proc>, i: int, k: int) {
    forall j :: 0 <= j < k && j < |ps| ==> !(ps[j].parent == i && ps[j].state == Zombie)
  }

  /** Asleep in wait. */
  predicate AsleepInWait(p: Proc, i: int) { p.state == Sleeping && p.chan == i }

  ghost predicate Watchful(ps: seq<Proc>, i: int)
    requires 0 <= i < |ps|
  {
    && (match ps[i].pc
        case Scan(k, _) => NoZombieBelow(ps, i, k)
        case LockKid(k) => NoZombieBelow(ps, i, k)
        case CheckKid(k) => NoZombieBelow(ps, i, k)
        case _ => true)
    && (AsleepInWait(ps[i], i) ==> NoZombieBelow(ps, i, |ps|))
  }

  /** All that is asked of slot i. */
  ghost predicate SlotOk(ps: seq<Proc>, i: int)
    requires 0 <= i < |ps|
  {
    && Fits(ps[i], i, |ps|) && ParentKnown(ps[i], i, |ps|) && Family(ps[i], i) && ChildKnown(ps, i)
    && (i != INIT ==> Watchful(ps, i))
    && (ps[i].pc.BecomeZombie? && 0 <= ps[i].pc.op < |ps| ==> !AsleepInWait(ps[ps[i].pc.op], ps[i].pc.op))
  }

  ghost predicate Threads(ps: seq<Proc>) {
    INIT < |ps| && forall i :: 0 <= i < |ps| ==> SlotOk(ps, i)
  }

  /** Inside exit. */
  predicate Leaving(p: Proc) { InExit(Place(p.pc)) }

  /** pids in use are distinct, and what was exited and reported belongs to other pids or fits. */
  ghost predicate Ids(s: Sys) {
    && (forall i :: Slot(s, i) && s.procs[i].state != Unused ==> 0 < s.procs[i].pid < s.nextpid)
    && (forall i, j :: Slot(s, i) && Slot(s, j) && i != j
                       && s.procs[i].state != Unused && s.procs[j].state != Unused ==>
          s.procs[i].pid != s.procs[j].pid)
    && (forall i :: Slot(s, i) && s.procs[i].state == Zombie ==>
          s.procs[i].pid in s.exited && s.exited[s.procs[i].pid] == s.procs[i].xstate)
    && (forall i :: Slot(s, i) && Leaving(s.procs[i]) ==>
          s.procs[i].state != Unused && s.procs[i].pid in s.exited && s.exited[s.procs[i].pid] == s.procs[i].status)
    && (forall i :: Slot(s, i) && s.procs[i].pid in s.exited && s.procs[i].state != Unused ==>
          s.procs[i].state == Zombie || Leaving(s.procs[i]))
    && (forall pid :: pid in s.exited ==> pid < s.nextpid)
  }

  /** Each report is of an exit with that status, no two are of the same pid, and no reported pid is in use. */
  ghost predicate Reports(s: Sys) {
    && (forall r :: 0 <= r < |s.reports| ==>
          s.reports[r].pid in s.exited && s.exited[s.reports[r].pid] == s.reports[r].status)
    && (forall r, t :: 0 <= r < t < |s.reports| ==> s.reports[r].pid != s.reports[t].pid)
    && (forall r, i :: 0 <= r < |s.reports| && Slot(s, i) && s.procs[i].state != Unused ==>
          s.procs[i].pid != s.reports[r].pid)
  }

  ghost predicate Inv(s: Sys) {
    Locks(s.procs) && Threads(s.procs) && Ids(s) && Reports(s)
  }

  // ---- what a change to one slot may disturb

  lemma LocksStep(ps: seq<Proc>, ps': seq<Proc>, i: int, q: int)
    requires Locks(ps) && |ps'| == |ps| && 0 <= i < |ps| && 0 <= q < |ps|
    requires forall j :: 0 <= j < |ps| && j != i ==> ps'[j].pc == ps[j].pc
    requires forall x :: 0 <= x < |ps| && x != q ==> ps'[x].holder == ps[x].holder
    requires forall x :: 0 <= x < |ps| && x != q ==> (Holds(ps'[i].pc, i, x) <==> Holds(ps[i].pc, i, x))
    requires Holds(ps'[i].pc, i, q) <==> ps'[q].holder == i
    requires ps'[q].holder == ps[q].holder || (ps[q].holder in {FREE, CPU, i} && ps'[q].holder in {FREE, CPU, i})
    ensures Locks(ps')
  {
    hide Holds;
    forall j, x | 0 <= j < |ps'| && 0 <= x < |ps'| ensures Holds(ps'[j].pc, j, x) <==> ps'[x].holder == j {
      assert Holds(ps[j].pc, j, x) <==> ps[x].holder == j;
    }
  }

  /** The new value of slot c gives no other slot reason for concern. */
  predicate Quiet(p: Proc, p': Proc, c: int) {
    p'.parent == p.parent && (p'.state == Zombie ==> p.state == Zombie) && (AsleepInWait(p', c) ==> AsleepInWait(p, c))
  }

  lemma ThreadsOne(ps: seq<Proc>, c: int, p': Proc)
    requires Threads(ps) && 0 <= c < |ps| && Quiet(ps[c], p', c) && SlotOk(ps[c := p'], c)
    ensures Threads(ps[c := p'])
  {
    hide Fits, ParentKnown, Family, AsleepInWait;
    var ps' := ps[c := p'];
    forall i | 0 <= i < |ps'| ensures SlotOk(ps', i) {
      assert SlotOk(ps, i);
    }
  }

  /** Changing the lock of a slot concerns nobody. */
  lemma ThreadsLock(ps: seq<Proc>, q: int, holder: int)
    requires Threads(ps) && 0 <= q < |ps|
    ensures Threads(ps[q := ps[q].(holder := holder)])
  {
    var p' := ps[q].(holder := holder);
    assert SlotOk(ps, q);
    assert SlotOk(ps[q := p'], q) by {
      hide Threads;
      SameZombies(ps, ps[q := p'], q);
    }
    hide SlotOk;
    ThreadsOne(ps, q, p');
  }

  lemma SameZombies(ps: seq<Proc>, ps': seq<Proc>, i: int)
    requires |ps'| == |ps|
    requires forall j :: 0 <= j < |ps| ==>
               (ps'[j].parent == i && ps'[j].state == Zombie <==> ps[j].parent == i && ps[j].state == Zombie)
    ensures forall k :: NoZombieBelow(ps', i, k) <==> NoZombieBelow(ps, i, k)
  {
  }

  /** A change of one slot that keeps its pid and is quiet about exits. */
  lemma IdsOne(s: Sys, c: int, p': Proc)
    requires Ids(s) && Reports(s) && Slot(s, c)
    requires p'.pid == s.procs[c].pid && p'.xstate == s.procs[c].xstate
    requires (p'.state == Unused <==> s.procs[c].state == Unused)
    requires (p'.state == Zombie <==> s.procs[c].state == Zombie)
    requires p'.status == s.procs[c].status && (Leaving(p') ==> Leaving(s.procs[c]))
    requires Leaving(s.procs[c]) ==> Leaving(p') || p'.state == Zombie
    ensures Ids(Put(s, c, p')) && Reports(Put(s, c, p'))
  {
  }

  ghost predicate SameIds(p: Proc, p': Proc) {
    && p'.pid == p.pid && p'.xstate == p.xstate
    && (p'.state == Unused <==> p.state == Unused) && (p'.state == Zombie <==> p.state == Zombie)
    && p'.status == p.status && (Leaving(p') ==> Leaving(p)) && (Leaving(p) ==> Leaving(p') || p'.state == Zombie)
  }

  /** Among the locks of other slots, the thread holds the same at both places. */
  ghost predicate SameHolds(pc: Pc, pc': Pc, i: int, n: int, q: int) {
    forall x :: 0 <= x < n && x != q ==> (Holds(pc', i, x) <==> Holds(pc, i, x))
  }

  /** A step that touches one slot only. */
  lemma OneSlot(s: Sys, c: int, p': Proc)
    requires Inv(s) && Slot(s, c) && Quiet(s.procs[c], p', c) && SameIds(s.procs[c], p') && SlotOk(s.procs[c := p'], c)
    requires SameHolds(s.procs[c].pc, p'.pc, c, |s.procs|, c) && (Holds(p'.pc, c, c) <==> p'.holder == c)
    requires p'.holder == s.procs[c].holder || (s.procs[c].holder in {FREE, CPU, c} && p'.holder in {FREE, CPU, c})
    ensures Inv(Put(s, c, p'))
  {
    hide Holds, Threads, SlotOk, Ids, Reports, Quiet;
    LocksStep(s.procs, s.procs[c := p'], c, c);
    ThreadsOne(s.procs, c, p');
    IdsOne(s, c, p');
  }

  /** A step of i that also takes or drops the lock of q. */
  lemma TwoSlots(s: Sys, i: int, pc': Pc, q: int, holder: int)
    requires Inv(s) && Slot(s, i) && Slot(s, q) && i != q
    requires s.procs[q].holder in {FREE, i} && holder in {FREE, i}
    requires SameHolds(s.procs[i].pc, pc', i, |s.procs|, q) && (Holds(pc', i, q) <==> holder == i)
    requires SlotOk(SetLock(s, q, holder).procs[i := s.procs[i].(pc := pc')], i)
    requires InExit(Place(pc')) <==> Leaving(s.procs[i])
    ensures Inv(At(SetLock(s, q, holder), i, pc'))
  {
    hide Holds, Threads, SlotOk, Ids, Reports, Quiet;
    var t := SetLock(s, q, holder);
    LocksStep(s.procs, At(t, i, pc').procs, i, q);
    ThreadsLock(s.procs, q, holder);
    QuietPc(s.procs[i], pc', i);
    ThreadsOne(t.procs, i, s.procs[i].(pc := pc'));
    IdsOne(s, q, s.procs[q].(holder := holder));
    IdsOne(t, i, s.procs[i].(pc := pc'));
  }

  lemma QuietPc(p: Proc, pc': Pc, i: int)
    ensures Quiet(p, p.(pc := pc'), i)
  {
  }

  // ---- steps outside exit and wait

  lemma SlotFacts(ps: seq<Proc>, i: int)
    requires Threads(ps) && 0 <= i < |ps|
    ensures SlotOk(ps, i)
  {
  }

  lemma YieldKeeps(s: Sys, i: int)
    requires Inv(s) && Enabled(s, Yield(i))
    ensures Inv(Next(s, Yield(i)))
  {
    hide Locks, Threads, Ids, Reports, NoZombieBelow;
    SlotFacts(s.procs, i);
    OneSlot(s, i, s.procs[i].(state := Runnable, holder := CPU, pc := Parked(s.procs[i].pc)));
  }

  lemma SleepKeeps(s: Sys, i: int, chan: int)
    requires Inv(s) && Enabled(s, Sleep(i, chan))
    ensures Inv(Next(s, Sleep(i, chan)))
  {
    hide Locks, Threads, Ids, Reports, NoZombieBelow;
    SlotFacts(s.procs, i);
    OneSlot(s, i, s.procs[i].(chan := chan, state := Sleeping, holder := CPU, pc := Parked(User)));
  }

  lemma WakeupKeeps(s: Sys, q: int, chan: int)
    requires Inv(s) && Enabled(s, Wakeup(q, chan))
    ensures Inv(Next(s, Wakeup(q, chan)))
  {
    hide Locks, Threads, Ids, Reports, NoZombieBelow;
    if s.procs[q].state == Sleeping && s.procs[q].chan == chan {
      RunnableKeeps(s, q, s.procs[q].killed);
    }
  }

  lemma RunnableKeeps(s: Sys, q: int, killed: bool)
    requires Inv(s) && Slot(s, q) && s.procs[q].state == Sleeping
    ensures Inv(Put(s, q, s.procs[q].(state := Runnable, killed := killed)))
  {
    hide Locks, Threads, Ids, Reports, NoZombieBelow;
    SlotFacts(s.procs, q);
    var p' := s.procs[q].(state := Runnable, killed := killed);
    SameZombies(s.procs, s.procs[q := p'], q);
    HoldsSelf(s, q);
    OneSlot(s, q, p');
  }

  lemma HoldsSelf(s: Sys, i: int)
    requires Inv(s) && Slot(s, i)
    ensures Holds(s.procs[i].pc, i, i) <==> s.procs[i].holder == i
  {
    hide Holds, Threads, Ids, Reports;
    assert Holds(s.procs[i].pc, i, i) <==> s.procs[i].holder == i;
  }

  lemma KillKeeps(s: Sys, q: int)
    requires Inv(s) && Enabled(s, Kill(q))
    ensures Inv(Next(s, Kill(q)))
  {
    hide Locks, Threads, Ids, Reports, NoZombieBelow;
    if s.procs[q].state == Sleeping {
      RunnableKeeps(s, q, true);
    } else {
      var p' := s.procs[q].(killed := true);
      SlotFacts(s.procs, q);
      SameZombies(s.procs, s.procs[q := p'], q);
      HoldsSelf(s, q);
      OneSlot(s, q, p');
    }
  }

  lemma PickKeeps(s: Sys, q: int)
    requires Inv(s) && Enabled(s, Pick(q))
    ensures Inv(Next(s, Pick(q)))
  {
    hide Locks, Threads, Ids, Reports, NoZombieBelow;
    SlotFacts(s.procs, q);
    var pc := if s.procs[q].pc == InWait then Woken else Resumed(Place(s.procs[q].pc));
    OneSlot(s, q, s.procs[q].(state := Running, holder := q, pc := pc));
  }

  lemma UnlockKeeps(s: Sys, q: int)
    requires Inv(s) && Enabled(s, Unlock(q))
    ensures Inv(Next(s, Unlock(q)))
  {
    hide Locks, Threads, Ids, Reports, NoZombieBelow;
    SlotFacts(s.procs, q);
    var p' := s.procs[q].(holder := FREE);
    SameZombies(s.procs, s.procs[q := p'], q);
    HoldsSelf(s, q);
    OneSlot(s, q, p');
  }

  lemma PcKeeps(s: Sys, i: int, pc: Pc)
    requires Inv(s) && Slot(s, i) && SlotOk(At(s, i, pc).procs, i) && SameHolds(s.procs[i].pc, pc, i, |s.procs|, NONE)
    requires InExit(Place(pc)) <==> Leaving(s.procs[i])
    ensures Inv(At(s, i, pc))
  {
    hide Locks, Threads, Ids, Reports, NoZombieBelow;
    hide Holds, SlotOk;
    HoldsSelf(s, i);
    OneSlot(s, i, s.procs[i].(pc := pc));
  }

  // ---- exit

  lemma StartKeeps(s: Sys, i: int)
    requires Inv(s) && AtUser(s, i)
    ensures Inv(At(s, i, LockWait))
  {
    hide Locks, Threads, Ids, Reports, NoZombieBelow;
    SlotFacts(s.procs, i);
    PcKeeps(s, i, LockWait);
  }

  lemma ExitKeeps(s: Sys, i: int, status: int)
    requires Inv(s) && AtUser(s, i) && i != INIT
    ensures Inv(Next(s, Exit(i, status)))
  {
    hide Locks, Threads, Ids, Reports, NoZombieBelow;
    SlotFacts(s.procs, i);
    HoldsSelf(s, i);
    var p' := s.procs[i].(pc := LockInit, status := status);
    LocksStep(s.procs, s.procs[i := p'], i, i);
    ThreadsOne(s.procs, i, p');
    ExitIds(s, i, p');
  }

  /** The call of exit is on record, and no report is about this pid. */
  lemma ExitIds(s: Sys, i: int, p': Proc)
    requires Ids(s) && Reports(s) && Slot(s, i) && s.procs[i].state == Running && p'.state == Running
    requires p'.pid == s.procs[i].pid && Leaving(p')
    ensures Ids(Put(s, i, p').(exited := s.exited[p'.pid := p'.status]))
    ensures Reports(Put(s, i, p').(exited := s.exited[p'.pid := p'.status]))
  {
  }

  /** The step of exit at a place that takes a lock of another process. */
  lemma TakeKeeps(s: Sys, i: int)
    requires Inv(s) && CanGo(s, i)
    requires s.procs[i].pc.LockInit? || s.procs[i].pc.LockParent? || s.procs[i].pc.LockChild?
    ensures Inv(GoExit(s, i))
  {
    hide Locks, Threads, Ids, Reports, NoZombieBelow;
    SlotFacts(s.procs, i);
    match s.procs[i].pc
    case LockInit => TwoSlots(s, i, WakeInit, INIT, i);
    case LockParent(op) => TwoSlots(s, i, LockSelfAgain(op), op, i);
    case LockChild(op, k) =>
      NotOwnLock(s, i, op, k);
      TwoSlots(s, i, GiveChild(op, k), k, i);
    case _ =>
  }

  /** The child's lock is free, so it is not the parent's lock that i holds. */
  lemma NotOwnLock(s: Sys, i: int, q: int, k: int)
    requires Inv(s) && Slot(s, i) && Slot(s, q) && LockFree(s, k) && Holds(s.procs[i].pc, i, q)
    ensures k != q
  {
    hide Holds, Threads, Ids, Reports;
    assert Holds(s.procs[i].pc, i, q) <==> s.procs[q].holder == i;
  }

  /** The steps of exit that concern only the process itself. */
  lemma OwnExitKeeps(s: Sys, i: int)
    requires Inv(s) && CanGo(s, i)
    requires s.procs[i].pc in {LockSelf, ReadParent, Leave} || s.procs[i].pc.LockSelfAgain?
    ensures Inv(GoExit(s, i))
  {
    hide Locks, Threads, Ids, Reports, NoZombieBelow;
    SlotFacts(s.procs, i);
    HoldsSelf(s, i);
    var p := s.procs[i];
    match p.pc
    case LockSelf => OneSlot(s, i, p.(holder := i, pc := ReadParent));
    case ReadParent => OneSlot(s, i, p.(holder := FREE, pc := LockParent(p.parent)));
    case LockSelfAgain(op) => OneSlot(s, i, p.(holder := i, pc := Reparent(op, 0)));
    case Leave => OneSlot(s, i, p.(holder := CPU, pc := Gone));
    case _ =>
  }

  lemma ReparentKeeps(s: Sys, i: int)
    requires Inv(s) && CanGo(s, i) && s.procs[i].pc.Reparent?
    ensures Inv(GoExit(s, i))
  {
    hide Locks, Threads, Ids, Reports, NoZombieBelow;
    SlotFacts(s.procs, i);
    var op, k := s.procs[i].pc.op, s.procs[i].pc.k;
    if k == |s.procs| {
      PcKeeps(s, i, WakeParent(op));
    } else if s.procs[k].parent == i {
      PcKeeps(s, i, LockChild(op, k));
    } else {
      PcKeeps(s, i, Reparent(op, k + 1));
    }
  }

  lemma WakeKeeps(s: Sys, q: int)
    requires Inv(s) && Slot(s, q)
    ensures Inv(Wake(s, q)) && !AsleepInWait(Wake(s, q).procs[q], q)
    ensures |Wake(s, q).procs| == |s.procs| && Wake(s, q).procs[q].holder == s.procs[q].holder
    ensures forall i :: Slot(s, i) && i != q ==> Wake(s, q).procs[i] == s.procs[i]
  {
    hide Locks, Threads, Ids, Reports, NoZombieBelow;
    if s.procs[q].chan == q && s.procs[q].state == Sleeping {
      RunnableKeeps(s, q, s.procs[q].killed);
      assert Wake(s, q) == Put(s, q, s.procs[q].(state := Runnable, killed := s.procs[q].killed));
    }
  }

  lemma HoldsIs(s: Sys, i: int, q: int)
    requires Inv(s) && Slot(s, i) && Slot(s, q)
    ensures Holds(s.procs[i].pc, i, q) <==> s.procs[q].holder == i
  {
    hide Holds, Threads, Ids, Reports;
    assert Holds(s.procs[i].pc, i, q) <==> s.procs[q].holder == i;
  }

  /** The steps of exit that wake a process or drop its lock. */
  lemma DropKeeps(s: Sys, i: int)
    requires Inv(s) && CanGo(s, i)
    requires (s.procs[i].pc.WakeInit? || s.procs[i].pc.WakeParent? || s.procs[i].pc.UnlockParent?)
    ensures Inv(GoExit(s, i))
  {
    hide Locks, Threads, Ids, Reports, NoZombieBelow, Wake;
    SlotFacts(s.procs, i);
    match s.procs[i].pc
    case WakeInit =>
      HoldsIs(s, i, INIT);
      WakeKeeps(s, INIT);
      TwoSlots(Wake(s, INIT), i, LockSelf, INIT, FREE);
    case WakeParent(op) =>
      WakeKeeps(s, op);
      PcKeeps(Wake(s, op), i, BecomeZombie(op));
    case UnlockParent(op) =>
      HoldsIs(s, i, op);
      TwoSlots(s, i, Leave, op, FREE);
    case _ =>
  }

  /** A slot changes hands by the doing of its parent, or comes into use: no third process cares. */
  lemma OthersOk(ps: seq<Proc>, ps': seq<Proc>, c: int, author: int)
    requires Threads(ps) && 0 <= c < |ps| == |ps'| && ps' == ps[c := ps'[c]] && 0 <= author < |ps|
    requires ps[c].parent == author || ps[c].parent == NONE
    requires ps'[c].state == Zombie ==> ps'[c].parent == INIT
    requires !AsleepInWait(ps'[c], c) || AsleepInWait(ps[c], c)
    ensures forall j :: 0 <= j < |ps| && j != author && j != c ==> SlotOk(ps', j)
  {
    hide Fits, ParentKnown, Family, AsleepInWait;
    forall j | 0 <= j < |ps| && j != author && j != c ensures SlotOk(ps', j) {
      assert SlotOk(ps, j);
    }
  }

  lemma GiveChildKeeps(s: Sys, i: int)
    requires Inv(s) && CanGo(s, i) && s.procs[i].pc.GiveChild?
    ensures Inv(GoExit(s, i))
  {
    hide Locks, Threads, Ids, Reports, NoZombieBelow;
    SlotFacts(s.procs, i);
    var op, k := s.procs[i].pc.op, s.procs[i].pc.k;
    SlotFacts(s.procs, k);
    var p' := s.procs[k].(parent := INIT, holder := FREE);
    var t := Put(s, k, p');
    GiveChildThreads(s, i, op, k);
    GiveChildLocks(s, i, op, k);
    IdsOne(s, k, p');
    IdsOne(t, i, t.procs[i].(pc := Reparent(op, k + 1)));
  }

  lemma GiveChildLocks(s: Sys, i: int, op: int, k: int)
    requires Inv(s) && CanGo(s, i) && s.procs[i].pc == GiveChild(op, k)
    ensures Locks(GoExit(s, i).procs)
  {
    hide Locks, Threads, Ids, Reports, NoZombieBelow;
    SlotFacts(s.procs, i);
    SlotFacts(s.procs, k);
    HoldsIs(s, i, k);
    LocksStep(s.procs, GoExit(s, i).procs, i, k);
  }

  lemma GiveChildThreads(s: Sys, i: int, op: int, k: int)
    requires Inv(s) && CanGo(s, i) && s.procs[i].pc == GiveChild(op, k)
    ensures Threads(GoExit(s, i).procs)
  {
    hide Locks, Threads, Ids, Reports, NoZombieBelow, Interruptible;
    SlotFacts(s.procs, i);
    SlotFacts(s.procs, k);
    var p' := s.procs[i].(pc := Reparent(op, k + 1));
    var ps := s.procs[i := p'];
    ThreadsOne(s.procs, i, p');
    SlotFacts(ps, k);
    var c' := ps[k].(parent := INIT, holder := FREE);
    OthersOk(ps, ps[k := c'], k, i);
    SameZombies(ps, ps[k := c'], k);
    assert SlotOk(ps[k := c'], i);
    assert SlotOk(ps[k := c'], k);
    AllOk(ps[k := c'], i, k);
    assert GoExit(s, i).procs == ps[k := c'];
  }

  lemma AllOk(ps: seq<Proc>, i: int, k: int)
    requires INIT < |ps| && 0 <= i < |ps| && 0 <= k < |ps| && SlotOk(ps, i) && SlotOk(ps, k)
    requires forall j :: 0 <= j < |ps| && j != i && j != k ==> SlotOk(ps, j)
    ensures Threads(ps)
  {
    hide SlotOk;
  }

  /**
   Becoming a zombie: the parent, if it is not init, is the process whose lock this one holds,
   so it is neither scanning nor, having just been woken, asleep in wait.
   */
  lemma ZombieThreads(s: Sys, i: int, op: int, p': Proc)
    requires Inv(s) && Slot(s, i) && s.procs[i].pc == BecomeZombie(op)
    requires p' == s.procs[i].(xstate := p'.xstate, state := Zombie, pc := UnlockParent(op))
    ensures Threads(s.procs[i := p'])
  {
    hide Locks, Threads, Ids, Reports;
    SlotFacts(s.procs, i);
    SlotFacts(s.procs, op);
    HoldsIs(s, i, op);
    HoldsIs(s, op, op);
    var ps' := s.procs[i := p'];
    forall j | 0 <= j < |ps'| ensures SlotOk(ps', j) {
      SlotFacts(s.procs, j);
      ZombieSlot(s.procs, ps', i, op, j);
    }
    ThreadsAll(ps');
  }

  lemma ThreadsAll(ps: seq<Proc>)
    requires INIT < |ps| && forall j :: 0 <= j < |ps| ==> SlotOk(ps, j)
    ensures Threads(ps)
  {
    hide SlotOk;
  }

  lemma ZombieSlot(ps: seq<Proc>, ps': seq<Proc>, i: int, op: int, j: int)
    requires 0 <= i < |ps| == |ps'| && 0 <= op < |ps| && 0 <= j < |ps| && ps' == ps[i := ps'[i]] && op != i
    requires SlotOk(ps, i) && SlotOk(ps, op) && SlotOk(ps, j) && ps[i].pc == BecomeZombie(op)
    requires ps'[i] == ps[i].(xstate := ps'[i].xstate, state := Zombie, pc := UnlockParent(op))
    requires !(ps[op].pc.Scan? || ps[op].pc.LockKid? || ps[op].pc.CheckKid?)
    ensures SlotOk(ps', j)
  {
    if j != i {
      assert ps'[j] == ps[j];
      if j != op && j != INIT {
        SameZombies(ps, ps', j);
      }
    }
  }

  lemma ZombieIds(s: Sys, i: int, p': Proc)
    requires Ids(s) && Reports(s) && Slot(s, i) && s.procs[i].state == Running && Leaving(s.procs[i])
    requires p'.state == Zombie && p'.pid == s.procs[i].pid && p'.xstate == p'.status == s.procs[i].status
    ensures Ids(Put(s, i, p')) && Reports(Put(s, i, p'))
  {
  }

  lemma BecomeZombieKeeps(s: Sys, i: int)
    requires Inv(s) && CanGo(s, i) && s.procs[i].pc.BecomeZombie?
    ensures Inv(GoExit(s, i))
  {
    hide Locks, Threads, Ids, Reports, NoZombieBelow;
    SlotFacts(s.procs, i);
    var op := s.procs[i].pc.op;
    var p' := s.procs[i].(xstate := s.procs[i].status, state := Zombie, pc := UnlockParent(op));
    ZombieThreads(s, i, op, p');
    HoldsIs(s, i, i);
    LocksStep(s.procs, s.procs[i := p'], i, i);
    ZombieIds(s, i, p');
  }

  // ---- wait

  lemma OwnWaitKeeps(s: Sys, i: int)
    requires Inv(s) && CanGo(s, i) && (s.procs[i].pc in {LockWait, Woken} || s.procs[i].pc.Resumed?)
    ensures Inv(GoWait(s, i, 0))
  {
    hide Locks, Threads, Ids, Reports;
    SlotFacts(s.procs, i);
    HoldsSelf(s, i);
    var p := s.procs[i];
    match p.pc
    case LockWait => OneSlot(s, i, p.(holder := i, pc := Scan(0, false)));
    case Woken => OneSlot(s, i, p.(chan := NONE, pc := Scan(0, false)));
    case Resumed(back) => OneSlot(s, i, p.(chan := NONE, holder := FREE, pc := back));
    case _ =>
  }

  lemma ScanKeeps(s: Sys, i: int)
    requires Inv(s) && CanGo(s, i) && s.procs[i].pc.Scan? && s.procs[i].pc.k < |s.procs|
    ensures Inv(GoWait(s, i, 0))
  {
    hide Locks, Threads, Ids, Reports;
    SlotFacts(s.procs, i);
    var k, kids := s.procs[i].pc.k, s.procs[i].pc.kids;
    if s.procs[k].parent == i {
      PcKeeps(s, i, LockKid(k));
    } else {
      PcKeeps(s, i, Scan(k + 1, kids));
    }
  }

  lemma ScanOverKeeps(s: Sys, i: int)
    requires Inv(s) && CanGo(s, i) && s.procs[i].pc.Scan? && s.procs[i].pc.k == |s.procs|
    ensures Inv(GoWait(s, i, 0))
  {
    hide Locks, Threads, Ids, Reports, NoZombieBelow;
    SlotFacts(s.procs, i);
    HoldsSelf(s, i);
    var p := s.procs[i];
    if !p.pc.kids || p.killed {
      OneSlot(s, i, p.(holder := FREE, pc := User));
    } else {
      SleepThreads(s, i);
      var p' := p.(chan := i, state := Sleeping, holder := CPU, pc := InWait);
      LocksStep(s.procs, s.procs[i := p'], i, i);
      IdsOne(s, i, p');
    }
  }

  /** Going to sleep after a scan that found no zombie, with the own lock held all along. */
  lemma SleepThreads(s: Sys, i: int)
    requires Inv(s) && Slot(s, i) && s.procs[i].pc.Scan? && s.procs[i].pc.k == |s.procs|
    ensures Threads(s.procs[i := s.procs[i].(chan := i, state := Sleeping, holder := CPU, pc := InWait)])
  {
    hide Locks, Threads, Ids, Reports;
    SlotFacts(s.procs, i);
    HoldsSelf(s, i);
    var ps' := s.procs[i := s.procs[i].(chan := i, state := Sleeping, holder := CPU, pc := InWait)];
    forall j | 0 <= j < |ps'| ensures SlotOk(ps', j) {
      SlotFacts(s.procs, j);
      HoldsIs(s, j, i);
      SameZombies(s.procs, ps', j);
    }
    ThreadsAll(ps');
  }

  lemma LockKidKeeps(s: Sys, i: int)
    requires Inv(s) && CanGo(s, i) && s.procs[i].pc.LockKid?
    ensures Inv(GoWait(s, i, 0))
  {
    hide Locks, Threads, Ids, Reports, NoZombieBelow;
    SlotFacts(s.procs, i);
    var k := s.procs[i].pc.k;
    SlotFacts(s.procs, k);
    SameZombies(s.procs, GoWait(s, i, 0).procs, i);
    TwoSlots(s, i, CheckKid(k), k, i);
  }

  lemma LiveKidKeeps(s: Sys, i: int)
    requires Inv(s) && CanGo(s, i) && s.procs[i].pc.CheckKid? && s.procs[s.procs[i].pc.k].state != Zombie
    ensures Inv(GoWait(s, i, 0))
  {
    hide Locks, Threads, Ids, Reports;
    SlotFacts(s.procs, i);
    var k := s.procs[i].pc.k;
    SlotFacts(s.procs, k);
    HoldsIs(s, i, k);
    TwoSlots(s, i, Scan(k + 1, true), k, FREE);
  }

  /** A zombie whose lock can be had has left its CPU. */
  lemma ZombieGone(s: Sys, i: int, k: int)
    requires Inv(s) && Slot(s, i) && Slot(s, k) && i != k && s.procs[k].holder == i && s.procs[k].state == Zombie
    ensures s.procs[k].pc == Gone
  {
    hide Locks, Threads, Ids, Reports, NoZombieBelow;
    SlotFacts(s.procs, k);
    HoldsIs(s, k, k);
  }

  /** wait finds a zombie child but cannot copy its status out. */
  lemma CopyFailedKeeps(s: Sys, i: int)
    requires Inv(s) && CanGo(s, i) && s.procs[i].pc.CheckKid? && s.procs[s.procs[i].pc.k].state == Zombie
    ensures Inv(GoWait(s, i, 0))
  {
    hide Locks, Threads, Ids, Reports, NoZombieBelow;
    SlotFacts(s.procs, i);
    var k := s.procs[i].pc.k;
    SlotFacts(s.procs, k);
    HoldsIs(s, i, k);
    HoldsIs(s, i, i);
    var s1 := At(SetLock(s, k, FREE), i, Scan(0, true));
    NothingBelow(s1.procs, i);
    TwoSlots(s, i, Scan(0, true), k, FREE);
    SlotFacts(s1.procs, i);
    var p' := s1.procs[i].(holder := FREE, pc := User);
    OneSlot(s1, i, p');
    assert GoWait(s, i, 0).procs == Put(s1, i, p').procs;
  }

  lemma NothingBelow(ps: seq<Proc>, i: int)
    ensures NoZombieBelow(ps, i, 0)
  {
  }

  lemma ReapThreads(s: Sys, i: int, k: int, ps: seq<Proc>)
    requires Inv(s) && Slot(s, i) && s.procs[i].pc == CheckKid(k) && Slot(s, k) && s.procs[k].state == Zombie
    requires ps == s.procs[i := s.procs[i].(holder := FREE, pc := User)][k := Cleared(FREE)]
    ensures Threads(ps)
  {
    hide Locks, Threads, Ids, Reports, NoZombieBelow;
    SlotFacts(s.procs, i);
    SlotFacts(s.procs, k);
    var p' := s.procs[i].(holder := FREE, pc := User);
    var ps1 := s.procs[i := p'];
    ThreadsOne(s.procs, i, p');
    SlotFacts(ps1, k);
    OthersOk(ps1, ps, k, i);
    assert SlotOk(ps, i);
    assert SlotOk(ps, k);
    AllOk(ps, i, k);
  }

  lemma ReapLocks(s: Sys, i: int, k: int, ps: seq<Proc>)
    requires Inv(s) && Slot(s, i) && s.procs[i].pc == CheckKid(k) && Slot(s, k) && i != k && s.procs[k].pc == Gone
    requires ps == s.procs[i := s.procs[i].(holder := FREE, pc := User)][k := Cleared(FREE)]
    ensures Locks(ps)
  {
    hide Threads, Ids, Reports;
    forall j, q | 0 <= j < |ps| && 0 <= q < |ps| ensures Holds(ps[j].pc, j, q) <==> ps[q].holder == j {
      HoldsIs(s, j, q);
      HoldsIs(s, i, q);
    }
  }

  /** A reaped slot gives up its pid, which the new report carries. */
  lemma ReapIds(s: Sys, k: int)
    requires Ids(s) && Slot(s, k)
    ensures Ids(Put(s, k, Cleared(FREE)))
  {
  }

  lemma ReapReports(s: Sys, i: int, k: int)
    requires Ids(s) && Reports(s) && Slot(s, k) && s.procs[k].state == Zombie
    ensures Reports(Put(s, k, Cleared(FREE)).(reports := s.reports + [Report(i, s.procs[k].pid, s.procs[k].xstate)]))
  {
    var t := Put(s, k, Cleared(FREE)).(reports := s.reports + [Report(i, s.procs[k].pid, s.procs[k].xstate)]);
    forall r | 0 <= r < |t.reports|
      ensures t.reports[r] == if r < |s.reports| then s.reports[r] else Report(i, s.procs[k].pid, s.procs[k].xstate)
    {
    }
  }

  lemma ReapKeeps(s: Sys, i: int, arg: int)
    requires Inv(s) && CanGo(s, i) && s.procs[i].pc.CheckKid? && s.procs[s.procs[i].pc.k].state == Zombie && arg != 0
    ensures Inv(GoWait(s, i, arg))
  {
    hide Locks, Threads, Ids, Reports, NoZombieBelow;
    SlotFacts(s.procs, i);
    var k := s.procs[i].pc.k;
    SlotFacts(s.procs, k);
    HoldsIs(s, i, k);
    ZombieGone(s, i, k);
    var ps := s.procs[i := s.procs[i].(holder := FREE, pc := User)][k := Cleared(FREE)];
    ReapThreads(s, i, k, ps);
    ReapLocks(s, i, k, ps);
    var p' := s.procs[i].(holder := FREE, pc := User);
    IdsOne(s, i, p');
    ReapIds(Put(s, i, p'), k);
    ReapReports(Put(s, i, p'), i, k);
    assert GoWait(s, i, arg).procs == ps;
    IdsOfProcs(Put(Put(s, i, p'), k, Cleared(FREE)), GoWait(s, i, arg));
  }

  lemma IdsOfProcs(s: Sys, t: Sys)
    requires Ids(s) && t.procs == s.procs && t.nextpid == s.nextpid && t.exited == s.exited
    ensures Ids(t)
  {
  }

  // ---- fork

  lemma ForkThreads(s: Sys, i: int, k: int, ps: seq<Proc>)
    requires Inv(s) && Enabled(s, Fork(i, k))
    requires ps == s.procs[k := Forked(s, i, k)]
    ensures Threads(ps)
  {
    hide Locks, Threads, Ids, Reports, NoZombieBelow;
    SlotFacts(s.procs, i);
    SlotFacts(s.procs, k);
    OthersOk(s.procs, ps, k, i);
    assert SlotOk(ps, i);
    assert SlotOk(ps, k);
    AllOk(ps, i, k);
  }

  lemma ForkIds(s: Sys, i: int, k: int)
    requires Ids(s) && Reports(s) && Enabled(s, Fork(i, k)) && s.nextpid > 0
    ensures Ids(Next(s, Fork(i, k))) && Reports(Next(s, Fork(i, k)))
  {
  }

  lemma ForkKeeps(s: Sys, i: int, k: int)
    requires Inv(s) && Enabled(s, Fork(i, k))
    ensures Inv(Next(s, Fork(i, k)))
  {
    hide Locks, Threads, Ids, Reports, NoZombieBelow;
    var ps := s.procs[k := Forked(s, i, k)];
    SlotFacts(s.procs, k);
    ForkThreads(s, i, k, ps);
    HoldsIs(s, k, k);
    LocksStep(s.procs, ps, k, k);
    PidsPositive(s);
    ForkIds(s, i, k);
  }

  lemma PidsPositive(s: Sys)
    requires Ids(s) && Threads(s.procs)
    ensures s.nextpid > 0
  {
    SlotFacts(s.procs, INIT);
  }

  // ---- every step, every run

  lemma GoExitKeeps(s: Sys, i: int)
    requires Inv(s) && CanGo(s, i) && InExit(s.procs[i].pc)
    ensures Inv(GoExit(s, i))
  {
    hide Inv;
    var pc := s.procs[i].pc;
    if pc.BecomeZombie? {
      BecomeZombieKeeps(s, i);
    } else if pc.GiveChild? {
      GiveChildKeeps(s, i);
    } else if pc.Reparent? {
      ReparentKeeps(s, i);
    } else if pc.LockInit? || pc.LockParent? || pc.LockChild? {
      TakeKeeps(s, i);
    } else if pc.WakeInit? || pc.WakeParent? || pc.UnlockParent? {
      DropKeeps(s, i);
    } else {
      OwnExitKeeps(s, i);
    }
  }

  lemma GoWaitKeeps(s: Sys, i: int, arg: int)
    requires Inv(s) && CanGo(s, i) && !InExit(s.procs[i].pc)
    ensures Inv(GoWait(s, i, arg))
  {
    hide Inv;
    var pc := s.procs[i].pc;
    if pc.Scan? {
      if pc.k < |s.procs| { ScanKeeps(s, i); } else { ScanOverKeeps(s, i); }
    } else if pc.LockKid? {
      LockKidKeeps(s, i);
    } else if pc.CheckKid? {
      if s.procs[pc.k].state != Zombie {
        LiveKidKeeps(s, i);
      } else if arg == 0 {
        CopyFailedKeeps(s, i);
      } else {
        ReapKeeps(s, i, arg);
      }
    } else {
      OwnWaitKeeps(s, i);
    }
  }

  lemma NextKeeps(s: Sys, a: Act)
    requires Inv(s) && Enabled(s, a)
    ensures Inv(Next(s, a))
  {
    hide Inv, GoExit, GoWait;
    match a
    case Fork(i, k) => ForkKeeps(s, i, k);
    case Exit(i, status) => ExitKeeps(s, i, status);
    case Wait(i) => StartKeeps(s, i);
    case Yield(i) => YieldKeeps(s, i);
    case Sleep(i, chan) => SleepKeeps(s, i, chan);
    case Wakeup(q, chan) => WakeupKeeps(s, q, chan);
    case Kill(q) => KillKeeps(s, q);
    case Pick(q) => PickKeeps(s, q);
    case Unlock(q) => UnlockKeeps(s, q);
    case Go(i, arg) => if InExit(s.procs[i].pc) { GoExitKeeps(s, i); } else { GoWaitKeeps(s, i, arg); }
  }

  /** userinit: init alone, ready to run, in a table of n slots. */
  function Boot(n: nat): Sys
    requires n > 0
  {
    Sys(seq(n, i => Cleared(FREE))
          [INIT := Proc(Runnable, NONE, 1, 0, NONE, false, FREE, Parked(User), 0)], 2, map[], [],
        map[])
  }

  lemma BootSound(n: nat)
    requires n > 0
    ensures Inv(Boot(n))
  {
    var s := Boot(n);
    forall i | 0 <= i < n ensures SlotOk(s.procs, i) {
    }
    assert Locks(s.procs) by { hide SlotOk, Threads, Ids, Reports; }
    assert Ids(s) && Reports(s) by { hide SlotOk, Threads, Locks, Holds; }
  }

  ghost predicate Run(s: Sys, acts: seq<Act>, s': Sys)
    decreases |acts|
  {
    if acts == [] then s == s' else Enabled(s, acts[0]) && Run(Next(s, acts[0]), acts[1..], s')
  }

  lemma {:induction false} RunKeeps(s: Sys, acts: seq<Act>, s': Sys)
    requires Inv(s) && Run(s, acts, s')
    ensures Inv(s')
    decreases |acts|
  {
    hide Inv, Enabled, Next;
    if acts != [] {
      NextKeeps(s, acts[0]);
      RunKeeps(Next(s, acts[0]), acts[1..], s');
    }
  }

  /** No parent but init is ever asleep in wait while it has a zombie child. */
  lemma NoLostZombie(n: nat, acts: seq<Act>, s: Sys, i: int, j: int)
    requires n > 0 && Run(Boot(n), acts, s) && Slot(s, i) && i != INIT && AsleepInWait(s.procs[i], i)
    requires Slot(s, j) && s.procs[j].parent == i
    ensures s.procs[j].state != Zombie
  {
    hide Run, Locks, Ids, Reports, Boot, Threads;
    BootSound(n);
    RunKeeps(Boot(n), acts, s);
    SlotFacts(s.procs, i);
  }

  /** Every reaped child is reported once, with its own pid and the status it exited with. */
  lemma ReportedOnce(n: nat, acts: seq<Act>, s: Sys, r: int, t: int)
    requires n > 0 && Run(Boot(n), acts, s) && 0 <= r < |s.reports| && 0 <= t < |s.reports|
    ensures s.reports[r].pid in s.exited && s.exited[s.reports[r].pid] == s.reports[r].status
    ensures s.reports[r].pid == s.reports[t].pid ==> r == t
  {
    hide Run, Locks, Ids, Boot, Threads;
    BootSound(n);
    RunKeeps(Boot(n), acts, s);
  }

  /** What wait reports is a child of the caller, a zombie that has left its CPU, at that moment. */
  lemma ReapsOwnChild(n: nat, acts: seq<Act>, s: Sys, i: int, arg: int)
    requires n > 0 && Run(Boot(n), acts, s) && Enabled(s, Go(i, arg)) && |Next(s, Go(i, arg)).reports| > |s.reports|
    ensures
      var pc := s.procs[i].pc;
      && pc.CheckKid? && Slot(s, pc.k) && s.procs[pc.k].parent == i
      && s.procs[pc.k].state == Zombie && s.procs[pc.k].pc == Gone
      && Next(s, Go(i, arg)).reports == s.reports + [Report(i, s.procs[pc.k].pid, s.procs[pc.k].xstate)]
  {
    hide Run, Locks, Ids, Reports, Boot, Threads, NoZombieBelow;
    BootSound(n);
    RunKeeps(Boot(n), acts, s);
    SlotFacts(s.procs, i);
    HoldsIs(s, i, s.procs[i].pc.k);
    ZombieGone(s, i, s.procs[i].pc.k);
  }
}
