/**
 Why the statement about wait leaves init out: a run after which init is asleep in wait beside
 a zombie child, with no exit under way that could still wake it. Slot 1 is a child of init,
 slot 2 of slot 1, slot 3 of slot 2. Slot 3 is a zombie when slot 2 exits: that wakes init,
 init scans again and goes back to sleep, and only then is slot 3 given to it.
 */
module InitWait {
  import opened ExitWait

  /** A process of this run; its pid is its slot plus one, its status 0. */
  function P(i: int, state: PState, parent: int, chan: int, holder: int, pc: Pc): Proc {
    Proc(state, parent, i + 1, 0, chan, false, holder, pc, 0)
  }

  /** In user space, with nobody holding its lock. */
  function Busy(i: int): Proc { P(i, Running, i - 1, NONE, FREE, User) }

  /** On the way out, at pc. */
  function Leaving(i: int, holder: int, pc: Pc): Proc { P(i, Running, i - 1, NONE, holder, pc) }

  function Dead(i: int, parent: int): Proc { P(i, Zombie, parent, NONE, FREE, Gone) }

  function InitAt(holder: int, pc: Pc): Proc { P(INIT, Running, NONE, NONE, holder, pc) }

  function InitAsleep(holder: int): Proc { P(INIT, Sleeping, NONE, INIT, holder, InWait) }

  ghost predicate Reaches(n: nat, acts: seq<Act>, s: Sys) { n > 0 && Run(Boot(n), acts, s) }

  /** A table of n slots: these four, and the rest unused. */
  ghost predicate Four(s: Sys, n: nat, p0: Proc, p1: Proc, p2: Proc, p3: Proc) {
    && |s.procs| == n >= 4 && s.procs[0] == p0 && s.procs[1] == p1 && s.procs[2] == p2 && s.procs[3] == p3
    && forall j :: 4 <= j < n ==> s.procs[j] == Cleared(FREE)
  }

  lemma {:induction false} RunStep(s: Sys, acts: seq<Act>, t: Sys, a: Act)
    requires Run(s, acts, t) && Enabled(t, a)
    ensures Run(s, acts + [a], Next(t, a))
    decreases |acts|
  {
    hide Enabled, Next;
    if acts == [] {
      assert (acts + [a])[1..] == [];
    } else {
      RunStep(Next(s, acts[0]), acts[1..], t, a);
      assert (acts + [a])[1..] == acts[1..] + [a];
    }
  }

  /** One more step of the run. */
  lemma Step(n: nat, acts: seq<Act>, s: Sys, a: Act) returns (more: seq<Act>, t: Sys)
    requires Reaches(n, acts, s) && Enabled(s, a)
    ensures Reaches(n, more, t) && t == Next(s, a)
  {
    RunStep(Boot(n), acts, s, a);
    more, t := acts + [a], Next(s, a);
  }

  /** Process i takes its next step. */
  lemma Goes(n: nat, acts: seq<Act>, s: Sys, i: int) returns (more: seq<Act>, t: Sys)
    requires Reaches(n, acts, s) && CanGo(s, i)
    ensures Reaches(n, more, t) && t == if InExit(s.procs[i].pc) then GoExit(s, i) else GoWait(s, i, 0)
  {
    more, t := Step(n, acts, s, Go(i, 0));
  }

  /** A new process in the next slot reaches user space. */
  lemma Forks(n: nat, acts: seq<Act>, s: Sys, i: int) returns (more: seq<Act>, t: Sys)
    requires Reaches(n, acts, s) && AtUser(s, i) && Slot(s, i + 1) && s.nextpid == i + 2
    requires s.procs[i + 1] == Cleared(FREE)
    ensures Reaches(n, more, t) && t.procs == s.procs[i + 1 := Busy(i + 1)] && t.nextpid == i + 3
  {
    hide Reaches;
    more, t := Step(n, acts, s, Fork(i, i + 1));
    more, t := Step(n, more, t, Pick(i + 1));
    more, t := Goes(n, more, t, i + 1);
  }

  lemma InitRuns(n: nat) returns (acts: seq<Act>, s: Sys)
    requires n >= 4
    ensures Reaches(n, acts, s) && s == Boot(n).(procs := Boot(n).procs[INIT := InitAt(FREE, User)])
  {
    acts, s := [], Boot(n);
    assert Reaches(n, acts, s);
    hide Reaches, Run;
    acts, s := Step(n, acts, s, Pick(0));
    acts, s := Goes(n, acts, s, 0);
  }

  lemma AllRunning(n: nat) returns (acts: seq<Act>, s: Sys)
    requires n >= 4
    ensures Reaches(n, acts, s) && Four(s, n, InitAt(FREE, User), Busy(1), Busy(2), Busy(3))
  {
    hide Reaches;
    acts, s := InitRuns(n);
    acts, s := Forks(n, acts, s, 0);
    acts, s := Forks(n, acts, s, 1);
    acts, s := Forks(n, acts, s, 2);
  }

  /** exit from its first lock to the wakeup of init. */
  lemma BeginsExit(n: nat, acts: seq<Act>, s: Sys, i: int) returns (more: seq<Act>, t: Sys)
    requires Reaches(n, acts, s) && |s.procs| >= 4 && 2 <= i <= 3 && s.procs[i] == Busy(i)
    requires s.procs[INIT].holder == FREE
    ensures Reaches(n, more, t)
    ensures |t.procs| == |s.procs| && t.procs == Wake(s, INIT).procs[i := Leaving(i, FREE, LockSelf)]
  {
    hide Reaches;
    more, t := Step(n, acts, s, Exit(i, 0));
    more, t := Goes(n, more, t, i);
    more, t := Goes(n, more, t, i);
  }

  lemma LocksParent(n: nat, acts: seq<Act>, s: Sys, i: int) returns (more: seq<Act>, t: Sys)
    requires Reaches(n, acts, s) && |s.procs| >= 4 && 2 <= i <= 3 && s.procs[i] == Leaving(i, FREE, LockSelf)
    requires s.procs[i - 1].holder == FREE
    ensures Reaches(n, more, t)
    ensures t.procs == s.procs[i - 1 := s.procs[i - 1].(holder := i)][i := Leaving(i, i, Reparent(i - 1, 0))]
  {
    hide Reaches;
    more, t := Goes(n, acts, s, i);
    more, t := Goes(n, more, t, i);
    more, t := Goes(n, more, t, i);
    more, t := Goes(n, more, t, i);
  }

  /** reparent passes over the slots from k to m, which hold no child of i. */
  lemma {:induction false} PassesOver(n: nat, acts: seq<Act>, s: Sys, i: int, k: nat, m: nat)
      returns (more: seq<Act>, t: Sys)
    requires Reaches(n, acts, s) && |s.procs| >= 4 && 2 <= i <= 3 && s.procs[i] == Leaving(i, i, Reparent(i - 1, k))
    requires k <= m <= |s.procs| && forall j :: k <= j < m ==> s.procs[j].parent != i
    ensures Reaches(n, more, t) && t.procs == s.procs[i := Leaving(i, i, Reparent(i - 1, m))]
    decreases m
  {
    hide Reaches;
    if k == m {
      more, t := acts, s;
    } else {
      more, t := PassesOver(n, acts, s, i, k, m - 1);
      more, t := Goes(n, more, t, i);
    }
  }

  /** exit from the end of reparent on: nobody is woken, its parent not being asleep in wait. */
  lemma EndsExit(n: nat, acts: seq<Act>, s: Sys, i: int) returns (more: seq<Act>, t: Sys)
    requires Reaches(n, acts, s) && |s.procs| >= 4 && 2 <= i <= 3
    requires s.procs[i] == Leaving(i, i, Reparent(i - 1, |s.procs|)) && s.procs[i - 1] == Busy(i - 1).(holder := i)
    ensures Reaches(n, more, t) && t.procs == s.procs[i - 1 := Busy(i - 1)][i := Dead(i, i - 1)]
  {
    hide Reaches;
    more, t := Goes(n, acts, s, i);
    more, t := Goes(n, more, t, i);
    more, t := Goes(n, more, t, i);
    more, t := Goes(n, more, t, i);
    more, t := Goes(n, more, t, i);
    more, t := Step(n, more, t, Unlock(i));
  }

  /** Slot 3 becomes a zombie while init and the others run. */
  lemma ZombieOfSlot2(n: nat) returns (acts: seq<Act>, s: Sys)
    requires n >= 4
    ensures Reaches(n, acts, s) && Four(s, n, InitAt(FREE, User), Busy(1), Busy(2), Dead(3, 2))
  {
    hide Reaches;
    acts, s := AllRunning(n);
    acts, s := BeginsExit(n, acts, s, 3);
    acts, s := LocksParent(n, acts, s, 3);
    acts, s := PassesOver(n, acts, s, 3, 0, n);
    acts, s := EndsExit(n, acts, s, 3);
  }

  /** init looks at its one child, which is no zombie. */
  lemma ScansChild(n: nat, acts: seq<Act>, s: Sys) returns (more: seq<Act>, t: Sys)
    requires Reaches(n, acts, s) && |s.procs| >= 4
    requires s.procs[0] == InitAt(INIT, Scan(0, false)) && s.procs[1] == Busy(1)
    ensures Reaches(n, more, t) && t.procs == s.procs[INIT := InitAt(INIT, Scan(2, true))]
  {
    hide Reaches;
    more, t := Goes(n, acts, s, INIT);
    more, t := Goes(n, more, t, INIT);
    more, t := Goes(n, more, t, INIT);
    more, t := Goes(n, more, t, INIT);
  }

  /** The scan passes over the slots from 2 to m, which hold no child of init. */
  lemma {:induction false} ScansOver(n: nat, acts: seq<Act>, s: Sys, m: nat) returns (more: seq<Act>, t: Sys)
    requires Reaches(n, acts, s) && |s.procs| >= 4 && s.procs[0] == InitAt(INIT, Scan(2, true))
    requires 2 <= m <= |s.procs| && forall j :: 2 <= j < m ==> s.procs[j].parent != INIT
    ensures Reaches(n, more, t) && t.procs == s.procs[INIT := InitAt(INIT, Scan(m, true))]
    decreases m
  {
    hide Reaches;
    if m == 2 {
      more, t := acts, s;
    } else {
      more, t := ScansOver(n, acts, s, m - 1);
      more, t := Goes(n, more, t, INIT);
    }
  }

  /** A whole scan by init, after which it sleeps. */
  lemma ScansAndSleeps(n: nat, acts: seq<Act>, s: Sys, p2: Proc) returns (more: seq<Act>, t: Sys)
    requires Reaches(n, acts, s) && p2.parent == 1
    requires Four(s, n, InitAt(INIT, Scan(0, false)), Busy(1), p2, Dead(3, 2))
    ensures Reaches(n, more, t) && Four(t, n, InitAsleep(FREE), Busy(1), p2, Dead(3, 2))
  {
    hide Reaches;
    more, t := ScansChild(n, acts, s);
    more, t := ScansOver(n, more, t, n);
    more, t := Goes(n, more, t, INIT);
    more, t := Step(n, more, t, Unlock(INIT));
  }

  /** Slot 2 begins to exit and wakes init, which scans again and sleeps. */
  lemma WokenTooEarly(n: nat) returns (acts: seq<Act>, s: Sys)
    requires n >= 4
    ensures Reaches(n, acts, s)
    ensures Four(s, n, InitAsleep(FREE), Busy(1), Leaving(2, FREE, LockSelf), Dead(3, 2))
  {
    hide Reaches;
    acts, s := ZombieOfSlot2(n);
    acts, s := Step(n, acts, s, Wait(INIT));
    acts, s := Goes(n, acts, s, INIT);
    acts, s := ScansAndSleeps(n, acts, s, Busy(2));
    acts, s := BeginsExit(n, acts, s, 2);
    acts, s := Step(n, acts, s, Pick(INIT));
    acts, s := Goes(n, acts, s, INIT);
    acts, s := ScansAndSleeps(n, acts, s, Leaving(2, FREE, LockSelf));
  }

  /** reparent gives slot 3 to init, which sleeps on. */
  lemma GivesZombie(n: nat, acts: seq<Act>, s: Sys) returns (more: seq<Act>, t: Sys)
    requires Reaches(n, acts, s)
    requires Four(s, n, InitAsleep(FREE), Busy(1).(holder := 2), Leaving(2, 2, Reparent(1, 3)), Dead(3, 2))
    ensures Reaches(n, more, t)
    ensures Four(t, n, InitAsleep(FREE), Busy(1).(holder := 2), Leaving(2, 2, Reparent(1, 4)), Dead(3, INIT))
  {
    hide Reaches;
    more, t := Goes(n, acts, s, 2);
    more, t := Goes(n, more, t, 2);
    more, t := Goes(n, more, t, 2);
  }

  lemma BothGone(n: nat) returns (acts: seq<Act>, s: Sys)
    requires n >= 4
    ensures Reaches(n, acts, s) && Four(s, n, InitAsleep(FREE), Busy(1), Dead(2, 1), Dead(3, INIT))
  {
    hide Reaches;
    acts, s := WokenTooEarly(n);
    acts, s := LocksParent(n, acts, s, 2);
    acts, s := PassesOver(n, acts, s, 2, 0, 3);
    acts, s := GivesZombie(n, acts, s);
    acts, s := PassesOver(n, acts, s, 2, 4, n);
    acts, s := EndsExit(n, acts, s, 2);
  }

  /** Init is asleep in wait, has a zombie child, and no process is inside exit. */
  lemma InitSleepsBesideZombie(n: nat) returns (acts: seq<Act>, s: Sys)
    requires n >= 4
    ensures Run(Boot(n), acts, s) && |s.procs| == n
    ensures AsleepInWait(s.procs[INIT], INIT) && s.procs[3].parent == INIT && s.procs[3].state == Zombie
    ensures forall i :: 0 <= i < n ==> !InExit(s.procs[i].pc)
  {
    hide Run;
    acts, s := BothGone(n);
  }

  /** No run of a table of n slots has slot i asleep in wait while it has a zombie child. */
  ghost predicate NeverLoses(n: nat, i: int)
    requires n > 0
  {
    forall acts, s, j :: Run(Boot(n), acts, s) && Slot(s, i) && AsleepInWait(s.procs[i], i) && ChildOf(s, j, i) ==>
      s.procs[j].state != Zombie
  }

  predicate ChildOf(s: Sys, j: int, i: int) { Slot(s, j) && s.procs[j].parent == i }

  /** With at least four slots, wait never loses a zombie child for exactly the processes other than init. */
  lemma NeverLosesIff(n: nat, i: int)
    requires n >= 4
    ensures NeverLoses(n, i) <==> i != INIT
  {
    hide Run, Boot;
    if i == INIT {
      var acts, s := InitSleepsBesideZombie(n);
      assert ChildOf(s, 3, INIT);
    } else {
      forall acts, s, j | Run(Boot(n), acts, s) && Slot(s, i) && AsleepInWait(s.procs[i], i) && ChildOf(s, j, i)
        ensures s.procs[j].state != Zombie
      {
        NoLostZombie(n, acts, s, i, j);
      }
    }
  }
}
