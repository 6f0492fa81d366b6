/**
 kill and wait (kernel/proc.c): once a process is killed it stays killed for as long as it has
 its process id, it is never again asleep in wait, and its scan of the table, if it finds no
 zombie, is its last.
 */
module KillWait {
  import opened ExitWait

  predicate AsleepInWait(p: Proc) { p.pc == InWait && p.state == Sleeping }

  ghost predicate Awake(s: Sys) {
    forall i :: Slot(s, i) && s.procs[i].killed ==> !AsleepInWait(s.procs[i])
  }

  lemma NextAwake(s: Sys, a: Act)
    requires Inv(s) && Awake(s) && Enabled(s, a)
    ensures Awake(Next(s, a))
  {
    hide GoExit, GoWait, InExit, Inv;
    if a.Go? {
      if InExit(s.procs[a.i].pc) {
        ExitAwake(s, a.i);
      } else {
        WaitAwake(s, a.i, a.arg);
      }
    }
  }

  lemma ExitAwake(s: Sys, i: int)
    requires Awake(s) && CanGo(s, i)
    ensures Awake(GoExit(s, i))
  {
  }

  lemma WaitAwake(s: Sys, i: int, arg: int)
    requires Inv(s) && Awake(s) && CanGo(s, i)
    ensures Awake(GoWait(s, i, arg))
  {
    hide Locks, Threads, Ids, Reports;
    SlotFacts(s.procs, i);
  }

  /** Process `pid`, if it is the one in slot q, has been killed. */
  predicate Doomed(s: Sys, q: int, pid: int) {
    Slot(s, q) && 0 < pid < s.nextpid && (s.procs[q].pid == pid ==> s.procs[q].killed)
  }

  lemma NextDoomed(s: Sys, a: Act, q: int, pid: int)
    requires Doomed(s, q, pid) && Enabled(s, a)
    ensures Doomed(Next(s, a), q, pid)
  {
    hide GoExit, GoWait, InExit;
    if a.Go? {
      ExitDoomed(s, a.i, q, pid);
      WaitDoomed(s, a.i, a.arg, q, pid);
    }
  }

  lemma ExitDoomed(s: Sys, i: int, q: int, pid: int)
    requires Doomed(s, q, pid) && CanGo(s, i)
    ensures Doomed(GoExit(s, i), q, pid)
  {
  }

  lemma WaitDoomed(s: Sys, i: int, arg: int, q: int, pid: int)
    requires Doomed(s, q, pid) && CanGo(s, i)
    ensures Doomed(GoWait(s, i, arg), q, pid)
  {
  }

  lemma {:induction false} RunDoomed(s: Sys, acts: seq<Act>, t: Sys, q: int, pid: int)
    requires Inv(s) && Doomed(s, q, pid) && Awake(s) && Run(s, acts, t)
    ensures Doomed(t, q, pid) && Awake(t)
    decreases |acts|
  {
    hide Doomed, Awake, Enabled, Next, Inv;
    if acts != [] {
      NextKeeps(s, acts[0]);
      NextDoomed(s, acts[0], q, pid);
      NextAwake(s, acts[0]);
      RunDoomed(Next(s, acts[0]), acts[1..], t, q, pid);
    }
  }

  lemma {:induction false} RunAwake(s: Sys, acts: seq<Act>, t: Sys)
    requires Inv(s) && Awake(s) && Run(s, acts, t)
    ensures Awake(t)
    decreases |acts|
  {
    hide Awake, Enabled, Next, Inv;
    if acts != [] {
      NextKeeps(s, acts[0]);
      NextAwake(s, acts[0]);
      RunAwake(Next(s, acts[0]), acts[1..], t);
    }
  }

  /** After kill, whatever runs: the process is marked killed, is not asleep in wait, and its scan ends the wait. */
  lemma KilledForGood(n: nat, before: seq<Act>, s: Sys, q: int, after: seq<Act>, t: Sys)
    requires n > 0 && Run(Boot(n), before, s) && Enabled(s, Kill(q)) && s.procs[q].state != Unused
    requires Run(Next(s, Kill(q)), after, t) && Slot(t, q) && t.procs[q].pid == s.procs[q].pid
    ensures t.procs[q].killed && !AsleepInWait(t.procs[q])
    ensures forall kids, arg :: t.procs[q].pc == Scan(|t.procs|, kids) && Enabled(t, Go(q, arg)) ==>
      AtUser(Next(t, Go(q, arg)), q)
  {
    hide Run, Inv;
    BootSound(n);
    RunKeeps(Boot(n), before, s);
    assert Awake(Boot(n));
    RunAwake(Boot(n), before, s);
    NextAwake(s, Kill(q));
    NextKeeps(s, Kill(q));
    PidInUse(s, q);
    RunDoomed(Next(s, Kill(q)), after, t, q, s.procs[q].pid);
  }

  lemma PidInUse(s: Sys, q: int)
    requires Inv(s) && Slot(s, q) && s.procs[q].state != Unused
    ensures 0 < s.procs[q].pid < s.nextpid
  {
    hide Locks, Threads, Reports;
  }
}
