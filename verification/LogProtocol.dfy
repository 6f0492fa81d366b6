/**
 Group commit over whole runs: begin_op, reads, log_write, end_op, every block write of
 commit() and of recovery, and crashes, in any order the locks of kernel/log.c allow.
 Recovery leaves the blocks it installs one reference short in the cache, and once such a
 block is read or logged the cache may give and log anything (the module LostUpdate shows
 how); the theorems about contents are for the runs that leave these blocks alone.
 */
module LogProtocol {
  import opened BlockDisk
  import opened RedoLog
  import opened LogCache
  import opened LogDevice

  /** One log_write by operation `op`. */
  datatype Update = Update(op: nat, blockno: int, data: Block)

  type Group = seq<Update>

  datatype Event =
    | Begin
    | Read(blockno: int)
    // `at` is the block the buffer stands for when it is logged
    | LogWrite(op: nat, blockno: int, data: Block, at: int)
    | Stray(blockno: int, data: Block)
    | End(op: nat)
    | DiskWrite
    | CommitDone
    | Crash
    | BootDone

  datatype State = State(
    disk: Disk,
    view: Disk,               // what bread returns for home blocks
    lh: seq<int>,
    active: map<nat, nat>,    // running operations, and how many blocks each has added
    committing: bool,
    booting: bool,
    base: Disk,               // disk when the running commit or recovery began
    plan: seq<Write>,         // all block writes of that commit or recovery
    done: nat,                // how many of them have happened
    nextOp: nat,
    installed: set<int>,      // blocks the last recovery installed
    spared: bool,             // no block was read or logged that its boot's recovery had installed
    // History, read by no step.
    since: nat,               // the first operation of this boot
    current: set<nat>,        // operations begun since the last commit or crash
    pending: Group,           // their updates
    durable: seq<Group>,      // groups whose header reached the disk, oldest first
    written: seq<Update>,     // every log_write ever made
    acked: set<nat>)          // operations of every group whose commit returned

  // ---- steps

  ghost predicate Enabled(g: Region, s: State, e: Event) {
    match e
    case Begin =>
      !s.booting && !s.committing && RoomToBegin(|s.lh|, |s.active|)
    case Read(b) =>
      !s.booting && Home(g, |s.disk|, b)
    case LogWrite(op, b, _, at) =>
      && !s.booting && op in s.active && Home(g, |s.disk|, b) && Home(g, |s.disk|, at)
      && !Panics(g, s)
      && (at !in s.lh ==> s.active[op] < MAXOPBLOCKS)
      && (StillSpared(s, b) ==> at == b)
    case Stray(b, _) =>
      !s.booting && !s.spared && Home(g, |s.disk|, b)
    case End(op) =>
      !s.booting && op in s.active && !s.committing
    case DiskWrite =>
      (s.booting || s.committing) && s.done < |s.plan| && s.plan[s.done].blockno < |s.disk|
    case CommitDone =>
      !s.booting && s.committing && s.done == |s.plan|
    case Crash =>
      ValidDisk(g, s.disk)
    case BootDone =>
      s.booting && s.done == |s.plan|
  }

  /** After fetching block b. */
  ghost predicate StillSpared(s: State, b: int) {
    s.spared && b !in s.installed
  }

  /** log_write panics, whether or not it would add a block (the test precedes absorption). */
  ghost predicate Panics(g: Region, s: State) {
    |s.lh| >= Capacity(g)
  }

  ghost predicate CanCommit(g: Region, s: State) {
    ValidDisk(g, s.disk) && ValidHeader(g, |s.disk|, s.lh) && |s.view| == |s.disk|
  }

  ghost function CommitPlan(g: Region, s: State): seq<Write> {
    if s.lh == [] || !CanCommit(g, s) then [] else CommitWrites(g, s.disk, s.lh, s.view)
  }

  ghost function Booted(g: Region, s: State): State
    requires ValidDisk(g, s.disk)
  {
    s.(view := s.disk, lh := [], active := map[], committing := false, booting := true,
       base := s.disk, plan := RecoverWrites(g, s.disk), done := 0, installed := Elems(Head(s.disk[g.start])),
       since := s.nextOp, current := {}, pending := [])
  }

  ghost function Next(g: Region, s: State, e: Event): State
    requires Enabled(g, s, e)
  {
    match e
    case Begin =>
      s.(active := s.active[s.nextOp := 0], nextOp := s.nextOp + 1, current := s.current + {s.nextOp})
    case Read(b) =>
      s.(spared := StillSpared(s, b))
    case LogWrite(op, b, data, at) =>
      var u := Update(op, b, data);
      s.(view := if |s.view| == |s.disk| then s.view[at := data] else s.view,
         lh := AddBlock(s.lh, at), spared := StillSpared(s, b),
         active := if at in s.lh then s.active else s.active[op := s.active[op] + 1],
         pending := s.pending + [u], written := s.written + [u])
    case Stray(b, data) =>
      s.(view := if |s.view| == |s.disk| then s.view[b := data] else s.view)
    case End(op) =>
      var t := s.(active := s.active - {op});
      if t.active != map[] then t
      else t.(committing := true, base := s.disk, plan := CommitPlan(g, s), done := 0)
    case DiskWrite =>
      var w := s.plan[s.done];
      s.(disk := s.disk[w.blockno := w.data], done := s.done + 1,
         durable := if s.committing && s.done == |s.lh| then s.durable + [s.pending] else s.durable)
    case CommitDone =>
      s.(committing := false, lh := [], view := s.disk, plan := [], done := 0,
         acked := s.acked + s.current, current := {}, pending := [])
    case Crash =>
      Booted(g, s)
    case BootDone =>
      s.(booting := false, view := s.disk, plan := [], done := 0)
  }

  /** The first boot from disk `d`. */
  ghost function Start(g: Region, d: Disk): State
    requires ValidDisk(g, d)
  {
    Booted(g, State(d, d, [], map[], false, true, d, [], 0, 0, {}, true, 0, {}, [], [], [], {}))
  }

  datatype Reached = Stuck | At(state: State)

  /** Where the events `es` lead from the first boot, if each is enabled in turn. */
  ghost function Exec(g: Region, d: Disk, es: seq<Event>): Reached
    requires ValidDisk(g, d)
    decreases |es|
  {
    if es == [] then At(Start(g, d))
    else
      var r := Exec(g, d, es[..|es| - 1]);
      var e := es[|es| - 1];
      if r.At? && Enabled(g, r.state, e) then At(Next(g, r.state, e)) else Stuck
  }

  ghost predicate Run(g: Region, d: Disk, es: seq<Event>, t: State)
    requires ValidDisk(g, d)
  {
    Exec(g, d, es) == At(t)
  }

  lemma RunNext(g: Region, d: Disk, es: seq<Event>, s: State, e: Event)
    requires ValidDisk(g, d) && Run(g, d, es, s) && Enabled(g, s, e)
    ensures Run(g, d, es + [e], Next(g, s, e))
  {
    assert (es + [e])[..|es|] == es;
  }

  // ---- histories

  function Writes(us: seq<Update>): (ws: seq<Write>)
    requires forall i :: 0 <= i < |us| ==> 0 <= us[i].blockno
    ensures |ws| == |us|
  {
    seq(|us|, i requires 0 <= i < |us| => Write(us[i].blockno, us[i].data))
  }

  ghost predicate AllHome(g: Region, size: nat, us: seq<Update>) {
    forall i :: 0 <= i < |us| ==> Home(g, size, us[i].blockno)
  }

  /** The disk after `us`, oldest first. */
  ghost function Replay(g: Region, d: Disk, us: seq<Update>): (r: Disk)
    requires AllHome(g, |d|, us)
    ensures |r| == |d|
  {
    Apply(d, Writes(us))
  }

  function Flatten(gs: seq<Group>): seq<Update>
    decreases |gs|
  {
    if gs == [] then [] else Flatten(gs[..|gs| - 1]) + gs[|gs| - 1]
  }

  /** The updates of one operation, in order. */
  function By(op: nat, us: seq<Update>): seq<Update>
    decreases |us|
  {
    if us == [] then []
    else
      var u := us[|us| - 1];
      By(op, us[..|us| - 1]) + if u.op == op then [u] else []
  }

  /** How many more blocks an operation may add. */
  function Allowance(used: nat): nat {
    if used < MAXOPBLOCKS then MAXOPBLOCKS - used else 0
  }

  ghost function Unused(active: map<nat, nat>, ops: set<nat>): nat
    requires ops <= active.Keys
  {
    if ops == {} then 0
    else
      var op :| op in ops;
      Allowance(active[op]) + Unused(active, ops - {op})
  }

  lemma {:induction false} UnusedSplit(active: map<nat, nat>, ops: set<nat>, op: nat)
    requires ops <= active.Keys && op in ops
    ensures Unused(active, ops) == Allowance(active[op]) + Unused(active, ops - {op})
    decreases |ops|
  {
    var first :| first in ops && Unused(active, ops) == Allowance(active[first]) + Unused(active, ops - {first});
    if first != op {
      UnusedSplit(active, ops - {first}, op);
      UnusedSplit(active, ops - {op}, first);
      assert ops - {first} - {op} == ops - {op} - {first};
    }
  }

  lemma {:induction false} UnusedAgree(active: map<nat, nat>, other: map<nat, nat>, ops: set<nat>)
    requires ops <= active.Keys && ops <= other.Keys
    requires forall op :: op in ops ==> active[op] == other[op]
    ensures Unused(active, ops) == Unused(other, ops)
    decreases |ops|
  {
    if ops != {} {
      var op :| op in ops;
      UnusedSplit(active, ops, op);
      UnusedSplit(other, ops, op);
      UnusedAgree(active, other, ops - {op});
    }
  }

  lemma {:induction false} UnusedAtMost(active: map<nat, nat>, ops: set<nat>)
    requires ops <= active.Keys
    ensures Unused(active, ops) <= |ops| * MAXOPBLOCKS
    decreases |ops|
  {
    if ops != {} {
      var op :| op in ops;
      UnusedSplit(active, ops, op);
      UnusedAtMost(active, ops - {op});
    }
  }

  // ---- invariant: disk and cache

  /** What the disk should hold: the first boot's blocks, then every durable group. */
  ghost function Ideal(g: Region, d: Disk, s: State): (r: Disk)
    requires ValidDisk(g, d) && AllHome(g, |d|, Flatten(s.durable))
    ensures |r| == |d|
  {
    Replay(g, Recovered(g, d), Flatten(s.durable))
  }

  /** The running commit has written its header. */
  ghost predicate Sealed(s: State) {
    s.committing && s.done > |s.lh|
  }

  ghost predicate Running(g: Region, d: Disk, s: State)
    requires ValidDisk(g, d) && AllHome(g, |d|, Flatten(s.durable)) && AllHome(g, |d|, s.pending)
  {
    && s.plan == []
    && Settled(g, s.disk, s.view, s.lh)
    && SameHome(g, s.disk, Ideal(g, d, s))
    && SameHome(g, s.view, Replay(g, Ideal(g, d, s), s.pending))
  }

  ghost predicate Committing(g: Region, d: Disk, s: State)
    requires ValidDisk(g, d) && AllHome(g, |d|, Flatten(s.durable)) && AllHome(g, |d|, s.pending)
  {
    && s.active == map[]
    && Settled(g, s.base, s.view, s.lh)
    && s.plan == (if s.lh == [] then [] else CommitWrites(g, s.base, s.lh, s.view))
    && s.done <= |s.plan| && s.disk == Apply(s.base, s.plan[..s.done])
    && (if Sealed(s) then SameHome(g, s.view, Ideal(g, d, s))
        else
          && SameHome(g, s.base, Ideal(g, d, s))
          && SameHome(g, s.view, Replay(g, Ideal(g, d, s), s.pending)))
  }

  ghost predicate Booting(g: Region, d: Disk, s: State)
    requires ValidDisk(g, d) && AllHome(g, |d|, Flatten(s.durable))
  {
    && s.active == map[] && s.lh == [] && s.pending == []
    && ValidDisk(g, s.base) && s.plan == RecoverWrites(g, s.base)
    && s.done <= |s.plan| && s.disk == Apply(s.base, s.plan[..s.done])
    && SameHome(g, Recovered(g, s.base), Ideal(g, d, s))
  }

  ghost predicate DiskInv(g: Region, d: Disk, s: State)
    requires ValidDisk(g, d)
  {
    && |s.disk| == |d| && |s.base| == |d| && |s.view| == |d|
    && AllHome(g, |d|, Flatten(s.durable)) && AllHome(g, |d|, s.pending)
    && (forall i :: 0 <= i < |s.pending| ==> s.pending[i].blockno in s.lh)
    && if s.booting then !s.committing && Booting(g, d, s)
       else if s.committing then Committing(g, d, s)
       else Running(g, d, s)
  }

  lemma RecoveredQuiet(g: Region, d: Disk)
    requires Quiet(g, d)
    ensures SameHome(g, Recovered(g, d), d)
  {
    forall b | Home(g, |d|, b) ensures Recovered(g, d)[b] == d[b] {
      RecoveredAt(g, d, b);
    }
  }

  /** A crash now would recover exactly the durable groups. */
  lemma RecoversIdeal(g: Region, d: Disk, s: State)
    requires ValidDisk(g, d) && DiskInv(g, d, s)
    ensures ValidDisk(g, s.disk) && SameHome(g, Recovered(g, s.disk), Ideal(g, d, s))
  {
    if s.booting {
      RecoveryInterrupted(g, s.base, s.done);
    } else if s.committing && s.lh != [] {
      CommitInterrupted(g, s.base, s.lh, s.view, s.done);
    } else {
      RecoveredQuiet(g, s.disk);
    }
  }

  lemma ReplayOne(g: Region, d: Disk, us: seq<Update>, u: Update)
    requires AllHome(g, |d|, us + [u])
    ensures AllHome(g, |d|, us) && Home(g, |d|, u.blockno)
    ensures Replay(g, d, us + [u]) == Replay(g, d, us)[u.blockno := u.data]
  {
    assert us == (us + [u])[..|us|];
    assert u == (us + [u])[|us|];
    assert Writes(us + [u])[..|us|] == Writes(us);
  }

  lemma ReplayBoth(g: Region, d: Disk, us: seq<Update>, vs: seq<Update>)
    requires AllHome(g, |d|, us) && AllHome(g, |d|, vs)
    ensures AllHome(g, |d|, us + vs) && Replay(g, d, us + vs) == Replay(g, Replay(g, d, us), vs)
  {
    assert Writes(us + vs) == Writes(us) + Writes(vs);
    ApplyConcat(d, Writes(us), Writes(vs));
  }

  lemma StartInv(g: Region, d: Disk)
    requires ValidDisk(g, d)
    ensures DiskInv(g, d, Start(g, d))
  {
  }

  lemma StartGroups(g: Region, d: Disk)
    requires ValidDisk(g, d)
    ensures OpsInv(Start(g, d)) && GroupsInv(Start(g, d))
  {
  }

  lemma SettledAfterWrite(g: Region, disk: Disk, view: Disk, lh: seq<int>, b: int, data: Block)
    requires Settled(g, disk, view, lh) && Home(g, |disk|, b) && |lh| < Capacity(g)
    ensures Settled(g, disk, view[b := data], AddBlock(lh, b))
  {
  }

  lemma LogWriteKeepsDisk(g: Region, d: Disk, s: State, e: Event)
    requires ValidDisk(g, d) && DiskInv(g, d, s) && e.LogWrite? && Enabled(g, s, e) && Next(g, s, e).spared
    ensures DiskInv(g, d, Next(g, s, e))
  {
    SettledAfterWrite(g, s.disk, s.view, s.lh, e.blockno, e.data);
    ReplayOne(g, Ideal(g, d, s), s.pending, Update(e.op, e.blockno, e.data));
  }

  lemma EndKeepsDisk(g: Region, d: Disk, s: State, e: Event)
    requires ValidDisk(g, d) && DiskInv(g, d, s) && e.End? && Enabled(g, s, e)
    ensures DiskInv(g, d, Next(g, s, e))
  {
    var t := Next(g, s, e);
    assert t.plan[..0] == [];
  }

  lemma DiskWriteKeepsDisk(g: Region, d: Disk, s: State)
    requires ValidDisk(g, d) && DiskInv(g, d, s) && Enabled(g, s, DiskWrite)
    ensures DiskInv(g, d, Next(g, s, DiskWrite))
  {
    hide Apply, Settled, CommitWrites, RecoverWrites, Recovered, SameHome, Replay;
    var t := Next(g, s, DiskWrite);
    ApplyNext(s.base, s.plan, s.done);
    if s.committing && s.done == |s.lh| {
      assert t.durable[..|s.durable|] == s.durable;
      ReplayBoth(g, Recovered(g, d), Flatten(s.durable), s.pending);
    }
  }

  lemma CommitDoneKeepsDisk(g: Region, d: Disk, s: State)
    requires ValidDisk(g, d) && DiskInv(g, d, s) && Enabled(g, s, CommitDone)
    ensures DiskInv(g, d, Next(g, s, CommitDone))
  {
    assert s.plan[..|s.plan|] == s.plan;
    if s.lh != [] {
      CommitEffect(g, s.base, s.lh, s.view);
    }
  }

  lemma BootDoneKeepsDisk(g: Region, d: Disk, s: State)
    requires ValidDisk(g, d) && DiskInv(g, d, s) && Enabled(g, s, BootDone)
    ensures DiskInv(g, d, Next(g, s, BootDone))
  {
    assert s.plan[..|s.plan|] == s.plan;
    RecoverEffect(g, s.base);
  }

  lemma CrashKeepsDisk(g: Region, d: Disk, s: State)
    requires ValidDisk(g, d) && DiskInv(g, d, s) && Enabled(g, s, Crash)
    ensures DiskInv(g, d, Next(g, s, Crash))
  {
    RecoversIdeal(g, d, s);
  }

  lemma StepKeepsDisk(g: Region, d: Disk, s: State, e: Event)
    requires ValidDisk(g, d) && DiskInv(g, d, s) && Enabled(g, s, e) && Next(g, s, e).spared
    ensures DiskInv(g, d, Next(g, s, e))
  {
    match e
    case Begin =>
    case Read(_) =>
    case LogWrite(_, _, _, _) => LogWriteKeepsDisk(g, d, s, e);
    case Stray(_, _) =>
    case End(_) => EndKeepsDisk(g, d, s, e);
    case DiskWrite => DiskWriteKeepsDisk(g, d, s);
    case CommitDone => CommitDoneKeepsDisk(g, d, s);
    case Crash => CrashKeepsDisk(g, d, s);
    case BootDone => BootDoneKeepsDisk(g, d, s);
  }

  // ---- invariant: which operations each group holds

  ghost predicate OpsBelow(us: seq<Update>, n: nat) {
    forall i :: 0 <= i < |us| ==> us[i].op < n
  }

  /** Groups of the log that are complete: not the one a running commit has just sealed. */
  ghost function Closed(s: State): nat {
    if Sealed(s) && |s.durable| > 0 then |s.durable| - 1 else |s.durable|
  }

  ghost predicate OpsInv(s: State) {
    && (forall op :: op in s.current || op in s.acked ==> op < s.nextOp)
    && s.active.Keys <= s.current
    && s.current !! s.acked
    && OpsBelow(s.written, s.nextOp)
    && (forall i :: 0 <= i < |s.pending| ==> s.pending[i].op in s.current)
    && (forall op :: op in s.current ==> By(op, s.pending) == By(op, s.written))
    && (Sealed(s) ==> |s.durable| > 0 && s.durable[|s.durable| - 1] == s.pending)
  }

  /** A group holds all the updates an operation ever made, or none of them. */
  ghost predicate Unsplit(group: Group, written: seq<Update>) {
    forall op {:trigger By(op, group)} :: By(op, group) == [] || By(op, group) == By(op, written)
  }

  ghost predicate NotIn(group: Group, ops: set<nat>) {
    forall op :: op in ops ==> By(op, group) == []
  }

  ghost predicate GroupsInv(s: State) {
    && (forall k :: 0 <= k < |s.durable| ==> Unsplit(s.durable[k], s.written))
    && (forall k :: 0 <= k < Closed(s) ==> NotIn(s.durable[k], s.current))
    && (forall j, k, op :: 0 <= j < k < |s.durable| && By(op, s.durable[j]) != [] ==>
          By(op, s.durable[k]) == [])
    && (forall op :: op in s.acked ==> Kept(s, op))
  }

  /** Everything `op` logged is in one durable group. */
  ghost predicate Kept(s: State, op: nat) {
    By(op, s.written) == [] ||
    exists k :: 0 <= k < |s.durable| && By(op, s.durable[k]) == By(op, s.written)
  }

  lemma {:induction false} ByOther(op: nat, us: seq<Update>)
    requires forall i :: 0 <= i < |us| ==> us[i].op != op
    ensures By(op, us) == []
    decreases |us|
  {
    if us != [] {
      ByOther(op, us[..|us| - 1]);
    }
  }

  lemma ByLast(op: nat, us: seq<Update>, u: Update)
    ensures By(op, us + [u]) == By(op, us) + if u.op == op then [u] else []
  {
    assert (us + [u])[..|us|] == us;
  }

  lemma LogWriteKeepsOps(g: Region, s: State, e: Event)
    requires OpsInv(s) && GroupsInv(s) && !s.committing && e.LogWrite? && Enabled(g, s, e)
    ensures OpsInv(Next(g, s, e))
  {
    var u := Update(e.op, e.blockno, e.data);
    forall op | op in s.current ensures By(op, s.pending + [u]) == By(op, s.written + [u]) {
      ByLast(op, s.pending, u);
      ByLast(op, s.written, u);
    }
  }

  lemma LogWriteKeepsGroups(g: Region, s: State, e: Event)
    requires OpsInv(s) && GroupsInv(s) && !s.committing && e.LogWrite? && Enabled(g, s, e)
    ensures GroupsInv(Next(g, s, e))
  {
    var u := Update(e.op, e.blockno, e.data);
    var t := Next(g, s, e);
    forall k | 0 <= k < |s.durable| ensures Unsplit(s.durable[k], t.written) {
      forall op ensures By(op, s.durable[k]) == [] || By(op, s.durable[k]) == By(op, t.written) {
        ByLast(op, s.written, u);
        assert NotIn(s.durable[k], s.current);
      }
    }
    forall op | op in s.acked ensures Kept(t, op) {
      ByLast(op, s.written, u);
      assert Kept(s, op);
    }
  }

  lemma BeginKeepsOps(g: Region, s: State)
    requires OpsInv(s) && GroupsInv(s) && !s.committing && Enabled(g, s, Begin)
    ensures OpsInv(Next(g, s, Begin)) && GroupsInv(Next(g, s, Begin))
  {
    var t := Next(g, s, Begin);
    ByOther(s.nextOp, s.written);
    ByOther(s.nextOp, s.pending);
    forall k | 0 <= k < Closed(t) ensures NotIn(s.durable[k], t.current) {
      assert Unsplit(s.durable[k], s.written);
      assert NotIn(s.durable[k], s.current);
      assert By(s.nextOp, s.durable[k]) == [];
    }
    forall op | op in t.acked ensures Kept(t, op) {
      assert Kept(s, op);
    }
  }

  lemma SealKeepsGroups(g: Region, s: State)
    requires OpsInv(s) && GroupsInv(s) && Enabled(g, s, DiskWrite) && s.committing && s.done == |s.lh|
    ensures OpsInv(Next(g, s, DiskWrite)) && GroupsInv(Next(g, s, DiskWrite))
  {
    hide By;
    var t := Next(g, s, DiskWrite);
    forall op ensures By(op, s.pending) == [] || (op in s.current && By(op, s.pending) == By(op, s.written)) {
      if op !in s.current {
        ByOther(op, s.pending);
      }
    }
    forall k | 0 <= k < |t.durable| ensures Unsplit(t.durable[k], t.written) {
      assert k < |s.durable| ==> Unsplit(s.durable[k], s.written);
    }
    forall j, k, op | 0 <= j < k < |t.durable| && By(op, t.durable[j]) != []
      ensures By(op, t.durable[k]) == []
    {
      assert NotIn(s.durable[j], s.current);
    }
    forall op | op in t.acked ensures Kept(t, op) {
      KeptLonger(s, t, op);
    }
  }

  lemma KeptLonger(s: State, t: State, op: nat)
    requires Kept(s, op) && s.durable <= t.durable && t.written == s.written
    ensures Kept(t, op)
  {
    hide By;
    if By(op, s.written) != [] {
      var k :| 0 <= k < |s.durable| && By(op, s.durable[k]) == By(op, s.written);
      assert By(op, t.durable[k]) == By(op, t.written);
    }
  }

  lemma CommitDoneSealed(g: Region, d: Disk, s: State)
    requires ValidDisk(g, d) && DiskInv(g, d, s) && Enabled(g, s, CommitDone)
    ensures s.active == map[]
    ensures if s.lh == [] then s.pending == [] && !Sealed(s) else Sealed(s)
  {
  }

  lemma CommitDoneKeepsOps(g: Region, s: State)
    requires s.active == map[]
    requires if s.lh == [] then s.pending == [] && !Sealed(s) else Sealed(s)
    requires OpsInv(s) && GroupsInv(s) && Enabled(g, s, CommitDone)
    ensures OpsInv(Next(g, s, CommitDone)) && GroupsInv(Next(g, s, CommitDone))
  {
    var t := Next(g, s, CommitDone);
    forall op | op in t.acked ensures Kept(t, op) {
      if op in s.acked {
        assert Kept(s, op);
      } else if s.lh == [] {
        assert s.pending == [];
      } else {
        assert Sealed(s);
        assert By(op, t.durable[|t.durable| - 1]) == By(op, t.written);
      }
    }
  }

  /** The step from `s` to `t` leaves the histories alone, at most forgetting the running operations. */
  ghost predicate SameHistory(s: State, t: State) {
    && t.written == s.written && t.durable == s.durable && t.acked == s.acked && t.nextOp == s.nextOp
    && (|| (t.current == s.current && t.pending == s.pending && t.active.Keys <= s.active.Keys
          && Sealed(t) == Sealed(s))
        || (t.current == {} && t.pending == [] && t.active == map[] && !Sealed(t)))
  }

  lemma SameHistoryKeepsOps(s: State, t: State)
    requires OpsInv(s) && GroupsInv(s) && SameHistory(s, t)
    ensures OpsInv(t) && GroupsInv(t)
  {
    forall k | 0 <= k < Closed(t) ensures NotIn(t.durable[k], t.current) {
      if t.current != {} {
        assert NotIn(s.durable[k], s.current);
      }
    }
    forall op | op in t.acked ensures Kept(t, op) {
      assert Kept(s, op);
    }
  }

  lemma OtherStepKeepsHistory(g: Region, d: Disk, s: State, e: Event)
    requires ValidDisk(g, d) && DiskInv(g, d, s) && Enabled(g, s, e)
    requires e.Read? || e.End? || e.Crash? || e.BootDone? || (e.DiskWrite? && !(s.committing && s.done == |s.lh|))
    ensures SameHistory(s, Next(g, s, e))
  {
    hide Settled, SameHome, CommitPlan, CommitWrites, RecoverWrites, Apply, Replay, Flatten, AllHome, ValidDisk;
  }

  lemma StepKeepsOps(g: Region, d: Disk, s: State, e: Event)
    requires ValidDisk(g, d) && DiskInv(g, d, s)
    requires OpsInv(s) && GroupsInv(s) && Enabled(g, s, e) && Next(g, s, e).spared
    ensures OpsInv(Next(g, s, e)) && GroupsInv(Next(g, s, e))
  {
    if e.Begin? {
      BeginKeepsOps(g, s);
    } else if e.LogWrite? {
      LogWriteKeepsOps(g, s, e);
      LogWriteKeepsGroups(g, s, e);
    } else if e.DiskWrite? && s.committing && s.done == |s.lh| {
      SealKeepsGroups(g, s);
    } else if e.CommitDone? {
      CommitDoneSealed(g, d, s);
      CommitDoneKeepsOps(g, s);
    } else {
      OtherStepKeepsHistory(g, d, s, e);
      SameHistoryKeepsOps(s, Next(g, s, e));
    }
  }

  // ---- invariant: room in the log

  ghost predicate RoomInv(g: Region, s: State) {
    && Distinct(s.lh) && |s.lh| <= Capacity(g)
    && |s.lh| + Unused(s.active, s.active.Keys) <= LOGSIZE
    && forall op :: op in s.active ==> op < s.nextOp
  }

  lemma BeginKeepsRoom(g: Region, s: State)
    requires RoomInv(g, s) && Enabled(g, s, Begin)
    ensures RoomInv(g, Next(g, s, Begin))
  {
    var t := Next(g, s, Begin);
    assert s.nextOp !in s.active.Keys;
    assert t.active.Keys - {s.nextOp} == s.active.Keys;
    UnusedSplit(t.active, t.active.Keys, s.nextOp);
    UnusedAgree(t.active, s.active, s.active.Keys);
    UnusedAtMost(s.active, s.active.Keys);
    assert |t.active.Keys| == |s.active.Keys| + 1;
  }

  lemma LogWriteKeepsRoom(g: Region, s: State, e: Event)
    requires RoomInv(g, s) && e.LogWrite? && Enabled(g, s, e)
    ensures RoomInv(g, Next(g, s, e))
  {
    var t := Next(g, s, e);
    assert t.active.Keys == s.active.Keys;
    UnusedSplit(t.active, t.active.Keys, e.op);
    UnusedSplit(s.active, s.active.Keys, e.op);
    UnusedAgree(t.active, s.active, s.active.Keys - {e.op});
  }

  lemma EndKeepsRoom(g: Region, s: State, e: Event)
    requires RoomInv(g, s) && e.End? && Enabled(g, s, e)
    ensures RoomInv(g, Next(g, s, e))
  {
    var t := Next(g, s, e);
    assert t.active.Keys == s.active.Keys - {e.op};
    UnusedSplit(s.active, s.active.Keys, e.op);
    UnusedAgree(t.active, s.active, t.active.Keys);
  }

  lemma StepKeepsRoom(g: Region, s: State, e: Event)
    requires RoomInv(g, s) && Enabled(g, s, e)
    ensures RoomInv(g, Next(g, s, e))
  {
    match e
    case Begin => BeginKeepsRoom(g, s);
    case LogWrite(_, _, _, _) => LogWriteKeepsRoom(g, s, e);
    case End(_) => EndKeepsRoom(g, s, e);
    case _ =>
  }

  // ---- every run

  ghost predicate Inv(g: Region, d: Disk, s: State)
    requires ValidDisk(g, d)
  {
    DiskInv(g, d, s) && OpsInv(s) && GroupsInv(s)
  }

  /** The room in the log is right in every run. */
  lemma {:induction false} RunRoom(g: Region, d: Disk, es: seq<Event>, t: State)
    requires ValidDisk(g, d) && Run(g, d, es, t)
    ensures RoomInv(g, t)
    decreases |es|
  {
    if es != [] {
      var s := Exec(g, d, es[..|es| - 1]).state;
      RunRoom(g, d, es[..|es| - 1], s);
      StepKeepsRoom(g, s, es[|es| - 1]);
    }
  }

  /** The contents are right in every run that leaves the installed blocks alone. */
  lemma {:induction false} RunInv(g: Region, d: Disk, es: seq<Event>, t: State)
    requires ValidDisk(g, d) && Run(g, d, es, t) && t.spared
    ensures Inv(g, d, t)
    decreases |es|
  {
    hide DiskInv, OpsInv, GroupsInv;
    if es == [] {
      assert OpsInv(Start(g, d)) && GroupsInv(Start(g, d)) by { StartGroups(g, d); }
      StartInv(g, d);
    } else {
      var s := Exec(g, d, es[..|es| - 1]).state;
      var e := es[|es| - 1];
      RunInv(g, d, es[..|es| - 1], s);
      StepKeepsDisk(g, d, s, e);
      StepKeepsOps(g, d, s, e);
    }
  }

  /**
   In every reachable state, a crash followed by recovery gives the blocks of the first
   boot with the durable groups applied in order; no group holds part of an operation, no
   operation is in two groups, and an operation whose group's commit returned is in one.
   */
  lemma CrashSafety(g: Region, d: Disk, es: seq<Event>, t: State)
    requires ValidDisk(g, d) && Run(g, d, es, t) && t.spared
    ensures ValidDisk(g, t.disk) && AllHome(g, |d|, Flatten(t.durable))
    ensures SameHome(g, Recovered(g, t.disk), Replay(g, Recovered(g, d), Flatten(t.durable)))
    ensures forall k :: 0 <= k < |t.durable| ==> Unsplit(t.durable[k], t.written)
    ensures forall j, k, op :: 0 <= j < k < |t.durable| && By(op, t.durable[j]) != [] ==>
              By(op, t.durable[k]) == []
    ensures forall op :: op in t.acked ==> Kept(t, op)
  {
    RunInv(g, d, es, t);
    RecoversIdeal(g, d, t);
  }

  /** Outside commit and recovery, clients read every durable group and every later update. */
  lemma ReadsSeeAllUpdates(g: Region, d: Disk, es: seq<Event>, t: State)
    requires ValidDisk(g, d) && Run(g, d, es, t) && t.spared && !t.booting && !t.committing
    ensures AllHome(g, |d|, Flatten(t.durable) + t.pending)
    ensures SameHome(g, t.view, Replay(g, Recovered(g, d), Flatten(t.durable) + t.pending))
  {
    RunInv(g, d, es, t);
    ReplayBoth(g, Recovered(g, d), Flatten(t.durable), t.pending);
  }

  // ---- every operation that is over has been committed

  /** Operations of this boot wait for a commit or are acknowledged, and none waits while the log is idle. */
  ghost predicate OverInv(s: State) {
    && s.active.Keys <= s.current
    && (s.committing ==> s.active == map[] && !s.booting)
    && (s.booting || Idle(s) ==> s.lh == [] && s.pending == [] && s.current == {})
    && s.since <= s.nextOp && forall op :: s.since <= op < s.nextOp ==> op in s.current || op in s.acked
  }

  /** No operation is running, and no commit or recovery. */
  ghost predicate Idle(s: State) {
    !s.booting && !s.committing && s.active == map[]
  }

  lemma StepKeepsOver(g: Region, s: State, e: Event)
    requires OverInv(s) && Enabled(g, s, e)
    ensures OverInv(Next(g, s, e))
  {
    hide CommitPlan, RecoverWrites, AddBlock, Head, ValidDisk;
    var t := Next(g, s, e);
    if e.Begin? {
      assert s.nextOp in t.active;
    } else if e.LogWrite? {
      assert e.op in t.active;
    }
  }

  lemma {:induction false} RunOver(g: Region, d: Disk, es: seq<Event>, t: State)
    requires ValidDisk(g, d) && Run(g, d, es, t)
    ensures OverInv(t)
    decreases |es|
  {
    hide Next, Enabled;
    if es == [] {
      StartOver(g, d);
    } else {
      var s := Exec(g, d, es[..|es| - 1]).state;
      RunOver(g, d, es[..|es| - 1], s);
      StepKeepsOver(g, s, es[|es| - 1]);
    }
  }

  lemma StartOver(g: Region, d: Disk)
    requires ValidDisk(g, d)
    ensures OverInv(Start(g, d))
  {
    hide RecoverWrites, Head;
  }

  /**
   end_op commits: whenever no operation is running and no commit, nothing is left to commit,
   and all that the operations of this boot logged is on the disk, each in one durable group,
   and is what a crash leaves.
   */
  lemma EndedIsDurable(g: Region, d: Disk, es: seq<Event>, t: State, op: nat)
    requires ValidDisk(g, d) && Run(g, d, es, t) && Idle(t) && t.since <= op < t.nextOp
    ensures t.lh == [] && t.pending == [] && op in t.acked
    ensures t.spared ==> Kept(t, op) && SameHome(g, t.view, t.disk)
    ensures t.spared ==> ValidDisk(g, t.disk) && SameHome(g, Recovered(g, t.disk), t.view)
  {
    hide Run, OpsInv, Kept, By;
    RunOver(g, d, es, t);
    if t.spared {
      RunInv(g, d, es, t);
      RecoversIdeal(g, d, t);
      ReplayNone(g, Ideal(g, d, t));
    }
  }

  lemma ReplayNone(g: Region, d: Disk)
    ensures AllHome(g, |d|, []) && Replay(g, d, []) == d
  {
  }

  lemma StepGrows(g: Region, s: State, e: Event)
    requires Enabled(g, s, e)
    ensures s.durable <= Next(g, s, e).durable && s.acked <= Next(g, s, e).acked
    ensures Next(g, s, e).spared ==> s.spared
  {
    hide CommitWrites, RecoverWrites, AddBlock, Head;
  }

  lemma {:induction false} HistoryGrows(g: Region, d: Disk, es: seq<Event>, s: State, more: seq<Event>, t: State)
    requires ValidDisk(g, d) && Run(g, d, es, s) && Run(g, d, es + more, t)
    ensures s.durable <= t.durable && s.acked <= t.acked && (t.spared ==> s.spared)
    decreases |more|
  {
    hide Next, Enabled;
    if more == [] {
      assert es + more == es;
    } else {
      var front := more[..|more| - 1];
      assert (es + more)[..|es + more| - 1] == es + front;
      var u := Exec(g, d, es + front).state;
      HistoryGrows(g, d, es, s, front, u);
      StepGrows(g, u, more[|more| - 1]);
    }
  }

  lemma {:induction false} FlattenConcat(gs: seq<Group>, hs: seq<Group>)
    ensures Flatten(gs + hs) == Flatten(gs) + Flatten(hs)
    decreases |hs|
  {
    if hs == [] {
      assert gs + hs == gs;
    } else {
      assert (gs + hs)[..|gs + hs| - 1] == gs + hs[..|hs| - 1];
      FlattenConcat(gs, hs[..|hs| - 1]);
    }
  }

  lemma {:induction false} ReplaySame(g: Region, d: Disk, e: Disk, us: seq<Update>)
    requires SameHome(g, d, e) && AllHome(g, |d|, us)
    ensures SameHome(g, Replay(g, d, us), Replay(g, e, us))
    decreases |us|
  {
    if us != [] {
      var front, u := us[..|us| - 1], us[|us| - 1];
      assert us == front + [u];
      ReplaySame(g, d, e, front);
      ReplayOne(g, d, front, u);
      ReplayOne(g, e, front, u);
    }
  }

  /**
   What a crash at one point of a run would leave is what a crash at any later point leaves,
   but for the groups that became durable in between, applied in order; and what is
   acknowledged stays so.
   */
  lemma DurableForever(g: Region, d: Disk, es: seq<Event>, s: State, more: seq<Event>, t: State)
    requires ValidDisk(g, d) && Run(g, d, es, s) && Run(g, d, es + more, t) && t.spared
    ensures ValidDisk(g, s.disk) && ValidDisk(g, t.disk) && |s.disk| == |d|
    ensures s.durable <= t.durable && s.acked <= t.acked
    ensures
      var later := Flatten(t.durable[|s.durable|..]);
      AllHome(g, |d|, later) && SameHome(g, Recovered(g, t.disk), Replay(g, Recovered(g, s.disk), later))
  {
    hide Run, Recovered, Replay, ValidDisk, By, Flatten, RecoverWrites;
    HistoryGrows(g, d, es, s, more, t);
    CrashSafety(g, d, es, s);
    CrashSafety(g, d, es + more, t);
    var later := t.durable[|s.durable|..];
    assert t.durable == s.durable + later;
    FlattenConcat(s.durable, later);
    ReplayParts(g, Recovered(g, d), Flatten(s.durable), Flatten(later));
    ReplaySame(g, Recovered(g, s.disk), Replay(g, Recovered(g, d), Flatten(s.durable)), Flatten(later));
  }

  lemma ReplayParts(g: Region, d: Disk, us: seq<Update>, vs: seq<Update>)
    requires AllHome(g, |d|, us + vs)
    ensures AllHome(g, |d|, us) && AllHome(g, |d|, vs)
    ensures Replay(g, d, us + vs) == Replay(g, Replay(g, d, us), vs)
  {
    hide Replay;
    assert us == (us + vs)[..|us|] && vs == (us + vs)[|us|..];
    ReplayBoth(g, d, us, vs);
  }

  // ---- "too big a transaction"

  /** `op` may still add a block and hands `b` to log_write, whether or not it is logged already. */
  ghost predicate WithinAllowance(g: Region, s: State, op: nat, b: int) {
    !s.booting && op in s.active && s.active[op] < MAXOPBLOCKS && Home(g, |s.disk|, b)
  }

  ghost predicate NeverOverflows(g: Region, d: Disk)
    requires ValidDisk(g, d)
  {
    forall es, s, op, b ::
      Run(g, d, es, s) && WithinAllowance(g, s, op, b) ==> !Panics(g, s)
  }

  lemma NoOverflow(g: Region, d: Disk, es: seq<Event>, s: State, op: nat, b: int)
    requires ValidDisk(g, d) && Run(g, d, es, s) && WithinAllowance(g, s, op, b)
    requires g.size > LOGSIZE
    ensures !Panics(g, s)
  {
    RunRoom(g, d, es, s);
    UnusedSplit(s.active, s.active.Keys, op);
  }

  ghost predicate UsedUp(active: map<nat, nat>) {
    forall op :: op in active ==> active[op] >= MAXOPBLOCKS
  }

  /**
   When log_write panics, whoever calls it and for whatever block: exactly when the list is
   full. With log.size above LOGSIZE every running operation has then used up its allowance.
   */
  lemma PanicsIff(g: Region, d: Disk, es: seq<Event>, s: State)
    requires ValidDisk(g, d) && Run(g, d, es, s) && !s.booting
    ensures Panics(g, s) <==> |s.lh| == Capacity(g)
    ensures g.size > LOGSIZE ==> (Panics(g, s) <==> |s.lh| == LOGSIZE)
    ensures g.size > LOGSIZE && Panics(g, s) ==> UsedUp(s.active)
  {
    RunRoom(g, d, es, s);
    forall op | op in s.active && g.size > LOGSIZE && Panics(g, s) ensures s.active[op] >= MAXOPBLOCKS {
      UnusedSplit(s.active, s.active.Keys, op);
    }
  }

  /** Boot to the end without a crash. */
  lemma {:induction false} BootRun(g: Region, d: Disk, n: nat) returns (es: seq<Event>, s: State)
    requires ValidDisk(g, d) && n <= |RecoverWrites(g, d)|
    ensures Run(g, d, es, s) && s == Start(g, d).(disk := s.disk, done := n) && |s.disk| == |d|
  {
    if n == 0 {
      es, s := [], Start(g, d);
    } else {
      es, s := BootRun(g, d, n - 1);
      RunNext(g, d, es, s, DiskWrite);
      es, s := es + [DiskWrite], Next(g, s, DiskWrite);
    }
  }

  lemma ThreeOperations(g: Region, d: Disk) returns (es: seq<Event>, s: State)
    requires ValidDisk(g, d)
    ensures Run(g, d, es, s) && !s.booting && !s.committing && |s.disk| == |d|
    ensures s.lh == [] && s.active == map[0 := 0, 1 := 0, 2 := 0]
  {
    es, s := BootRun(g, d, |RecoverWrites(g, d)|);
    RunNext(g, d, es, s, BootDone);
    es, s := es + [BootDone], Next(g, s, BootDone);
    RunNext(g, d, es, s, Begin);
    es, s := es + [Begin], Next(g, s, Begin);
    RunNext(g, d, es, s, Begin);
    es, s := es + [Begin], Next(g, s, Begin);
    assert |s.active| == 2;
    RunNext(g, d, es, s, Begin);
    es, s := es + [Begin], Next(g, s, Begin);
  }

  function Share(k: nat, op: nat): nat {
    if k <= op * MAXOPBLOCKS then 0
    else if k <= (op + 1) * MAXOPBLOCKS then k - op * MAXOPBLOCKS
    else MAXOPBLOCKS
  }

  /** Three running operations have logged k different blocks, each within its allowance. */
  ghost predicate Filled(g: Region, d: Disk, s: State, k: nat) {
    && !s.booting && !s.committing && |s.disk| == |d|
    && |s.lh| == k && (forall i :: 0 <= i < k ==> s.lh[i] == g.start + g.size + i)
    && s.active.Keys == {0, 1, 2} && forall op :: op in s.active ==> s.active[op] == Share(k, op)
  }

  function FillEvent(g: Region, d: Disk, k: nat): Event
    requires |d| > 0
  {
    LogWrite(k / MAXOPBLOCKS, g.start + g.size + k, d[0], g.start + g.size + k)
  }

  lemma ShareNext(k: nat, op: nat)
    requires k < LOGSIZE && op < 3
    ensures Share(k + 1, op) == Share(k, op) + if op == k / MAXOPBLOCKS then 1 else 0
    ensures op == k / MAXOPBLOCKS ==> Share(k, op) < MAXOPBLOCKS
  {
  }

  lemma FillNext(g: Region, d: Disk, s: State, k: nat)
    requires k < Capacity(g) && g.start + g.size + LOGSIZE <= |d| && Filled(g, d, s, k)
    ensures Enabled(g, s, FillEvent(g, d, k)) && Filled(g, d, Next(g, s, FillEvent(g, d, k)), k + 1)
  {
    ShareNext(k, 0);
    ShareNext(k, 1);
    ShareNext(k, 2);
    var b := g.start + g.size + k;
    assert b !in s.lh;
    var t := Next(g, s, FillEvent(g, d, k));
    assert t.active.Keys == {0, 1, 2};
  }

  lemma {:induction false} FillLog(g: Region, d: Disk, k: nat) returns (es: seq<Event>, s: State)
    requires ValidDisk(g, d) && k <= Capacity(g) && g.start + g.size + LOGSIZE <= |d|
    ensures Run(g, d, es, s) && Filled(g, d, s, k)
  {
    if k == 0 {
      es, s := ThreeOperations(g, d);
    } else {
      es, s := FillLog(g, d, k - 1);
      var e := FillEvent(g, d, k - 1);
      FillNext(g, d, s, k - 1);
      RunNext(g, d, es, s, e);
      es, s := es + [e], Next(g, s, e);
    }
  }

  /**
   Operations within their allowances never overflow the log exactly when log.size exceeds
   LOGSIZE. mkfs sets log.size to LOGSIZE (mkfs/mkfs.c:25), one short of that.
   */
  lemma OverflowIff(g: Region, d: Disk)
    requires ValidDisk(g, d) && g.start + g.size + LOGSIZE <= |d|
    ensures NeverOverflows(g, d) <==> g.size > LOGSIZE
  {
    if g.size > LOGSIZE {
      forall es, s, op, b | Run(g, d, es, s) && WithinAllowance(g, s, op, b) ensures !Panics(g, s) {
        NoOverflow(g, d, es, s, op, b);
      }
    } else {
      var k := Capacity(g);
      var es, s := FillLog(g, d, k);
      assert WithinAllowance(g, s, k / MAXOPBLOCKS, g.start + g.size + k);
    }
  }

  /**
   So an absorbed log_write can panic even with log.size above LOGSIZE: the size test comes
   first, and three operations that filled the log cannot touch a block again.
   */
  lemma AbsorptionCanPanic(g: Region, d: Disk) returns (es: seq<Event>, s: State, op: nat, b: int)
    requires ValidDisk(g, d) && g.start + g.size + LOGSIZE <= |d| && g.size > LOGSIZE
    ensures Run(g, d, es, s) && op in s.active && b in s.lh && Panics(g, s)
  {
    es, s := FillLog(g, d, LOGSIZE);
    op, b := 0, s.lh[0];
  }
}
