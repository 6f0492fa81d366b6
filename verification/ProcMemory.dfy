/**
 The memory side of fork and exec (kernel/proc.c, kernel/exec.c): whatever fails on the way,
 every page taken is given back.
 */
module ProcMemory {
  import opened PageTable
  import opened PhysPages
  import opened AddressSpace
  import opened UserSpace
  import opened VmSteps
  import opened PageBudget
  import opened Vm
  import opened UserBytes

  /** freeproc's page frees, for a process that has its trapframe; r is 0 if it has no page table yet */
  method Freeproc(m: Memory, trapframe: nat, r: nat, sz: nat)
    requires Sound(m.ram, m.free, m.own)
    requires trapframe in m.own && m.own[trapframe] == Held
    requires r != 0 ==> IsRoot(m.own, r) && Space(m.ram.mem, r, PgUp(sz), true, true)
    modifies m
    ensures Sound(m.ram, m.free, m.own)
    ensures m.own == Without(old(m.own), r) - {trapframe as int}
    ensures Unchanged(old(m.ram), m.ram, m.own)
  {
    hide *;
    FreeprocReady(m.ram, m.free, m.own, trapframe, r, PgUp(sz));
    m.Kfree(trapframe);
    if r != 0 {
      m.ProcFreepagetable(r, sz);
    }
    FreeprocDone(old(m.ram), old(m.free), old(m.own), m.ram, m.own, trapframe, r);
  }

  /**
   allocproc and fork's copy: a new address space with the parent's memory, or nothing changed.
   It fails exactly if the trapframe, the copy and its tables are more pages than are free.
   */
  method Fork(m: Memory, x: nat, sz: nat, trampoline: nat) returns (trapframe: nat, r: nat)
    requires Sound(m.ram, m.free, m.own) && IsRoot(m.own, x) && Space(m.ram.mem, x, PgUp(sz), true, true)
    modifies m
    ensures Sound(m.ram, m.free, m.own)
    ensures r == 0 ==> m.own == old(m.own) && Unchanged(old(m.ram), m.ram, m.own)
    ensures r == 0 ==> forall p :: p in m.free <==> p in old(m.free)
    ensures r == 0 <==> |old(m.free)| < 1 + Cost(PgUp(sz))
    ensures r != 0 ==>
      && IsRoot(m.own, r) && r !in old(m.own) && trapframe !in old(m.own)
      && Without(m.own, r) == old(m.own)[trapframe := Held] && Unchanged(old(m.ram), m.ram, old(m.own))
      && Space(m.ram.mem, r, PgUp(sz), true, true)
      && Lookup(m.ram.mem, r, TRAPFRAME) == Mk(trapframe, OrValid(PTE_RW))
      && forall u :: 0 <= u < PgUp(sz) ==> ImageOf(m.ram.mem, r, u) == ImageOf(old(m.ram.mem), x, u)
  {
    hide *;
    r := 0;
    UnchangedSame(m.ram, m.own);
    HeadIsFree(m.ram, m.free, m.own);
    CostZero();
    CostGrows(0, PgUp(sz));
    trapframe := m.Kalloc();
    if trapframe == 0 {
      return;
    }
    ghost var ram1, free1, own1 := m.ram, m.free, m.own;
    ForkStart(old(m.ram), old(m.free), old(m.own), x, PgUp(sz));
    r := m.ProcPagetable(trapframe, trampoline);
    ghost var ram2, free2, own2 := m.ram, m.free, m.own;
    if r == 0 {
      NoRootZero(m.ram, m.free, m.own);
      Freeproc(m, trapframe, 0, 0);
      ForkUndone(old(m.ram), old(m.own), ram1, own1, ram2, m.ram, m.own, trapframe);
      SameFree(old(m.ram), old(m.free), m.ram, m.free, m.own);
      return;
    }
    ForkTable(ram1, free1, own1, ram2, free2, own2, x, r, trapframe, PgUp(sz));
    BudgetStart(free1, free2, own2, r);
    var ok := m.Uvmcopy(x, r, sz, true, true);
    if !ok {
      BudgetOut(free1, free2, own2, r, 0, PgUp(sz));
      ForkFailed(ram1, own1, ram2, own2, m.ram, m.own, r, trapframe);
      ghost var ram3 := m.ram;
      Freeproc(m, trapframe, r, 0);
      r := 0;
      ForkUndone(old(m.ram), old(m.own), ram1, own1, ram3, m.ram, m.own, trapframe);
      SameFree(old(m.ram), old(m.free), m.ram, m.free, m.own);
      return;
    }
    BudgetNext(free1, free2, own2, m.free, m.own, r, 0, PgUp(sz));
    BudgetIs(free1, m.free, m.own, r, PgUp(sz));
    SourceSame(old(m.ram), old(m.free), old(m.own), ram1, own1, ram2, x, trapframe, PgUp(sz));
    ForkDone(old(m.ram), old(m.own), ram1, own1, ram2, free2, own2, m.ram, m.own, x, r, trapframe, PgUp(sz));
  }

  // ---- exec

  const UINT64_SPAN: nat := 0x1_0000_0000_0000_0000

  /** A size passed on as a C uint. */
  function AsUint(n: nat): nat { n % 0x1_0000_0000 }

  /**
   A program header as exec reads it: whether the read came through, whether it is loadable,
   and what readi would put in each page, coming up short at page `short`.
   */
  datatype Segment = Segment(readable: bool, load: bool, vaddr: nat, memsz: nat, filesz: nat, data: int -> Page,
          short: nat)

  /** Segment seg brings page u from the file. */
  predicate Brings(seg: Segment, u: int) {
    seg.load && seg.vaddr / 4096 <= u < seg.vaddr / 4096 + PgUp(AsUint(seg.filesz))
  }

  /** What page u holds once these segments are loaded in order: the last one's data for it, else zeros. */
  function Expected(segs: seq<Segment>, u: int): Page
    decreases |segs|
  {
    if segs == [] then Filled(0)
    else
      var seg := segs[|segs| - 1];
      if Brings(seg, u) then seg.data(u - seg.vaddr / 4096) else Expected(segs[..|segs| - 1], u)
  }

  /** The n pages of r hold what these segments bring, which is all they bring. */
  ghost predicate Loaded(mem: Mem, r: int, n: int, segs: seq<Segment>) {
    && (forall u :: 0 <= u < n ==> PageAt(mem, r, u) == Expected(segs, u))
    && (forall u :: u >= n ==> Expected(segs, u) == Filled(0))
  }

  /** k pages from v on hold `data`; every other page of r is as it was. */
  ghost predicate Filling(mem0: Mem, mem: Mem, r: int, v: int, k: int, data: int -> Page) {
    forall u :: 0 <= u < TRAPFRAME && Valid(Lookup(mem0, r, u)) ==>
      PageAt(mem, r, u) == if v <= u < v + k then data(u - v) else PageAt(mem0, r, u)
  }

  /** The file's pages into mapped user pages; its panic on a missing page is shown unreachable. */
  method Loadseg(m: Memory, r: int, va: nat, sz: nat, data: int -> Page, short: nat) returns (ok: bool)
    requires Sound(m.ram, m.free, m.own) && IsRoot(m.own, r) && va % 4096 == 0
    requires va / 4096 + PgUp(sz) <= TRAPFRAME && UserAll(m.ram.mem, r, va / 4096, PgUp(sz))
    requires forall k :: |data(k)| == ENTRIES
    modifies m
    ensures Sound(m.ram, m.free, m.own) && m.own == old(m.own)
    ensures SameLookups(old(m.ram.mem), m.ram.mem, m.own) && Apart(old(m.ram), m.own, m.ram, m.own, r)
    ensures ok ==> Filling(old(m.ram.mem), m.ram.mem, r, va / 4096, PgUp(sz), data)
    ensures m.free == old(m.free) && (ok <==> PgUp(sz) <= short)
  {
    hide *;
    var k := 0;
    SameStart(m.ram, m.own, r);
    FillingStart(m.ram.mem, r, va / 4096, data);
    while k * 4096 < sz
      invariant 0 <= k && (k == 0 || k <= PgUp(sz))
      invariant Sound(m.ram, m.free, m.own) && m.own == old(m.own)
      invariant Filling(old(m.ram.mem), m.ram.mem, r, va / 4096, k, data)
      invariant SameLookups(old(m.ram.mem), m.ram.mem, m.own) && Apart(old(m.ram), m.own, m.ram, m.own, r)
      invariant m.free == old(m.free) && k <= short
      decreases sz - k * 4096
    {
      LoadAddress(va, sz, k);
      UserOne(old(m.ram.mem), r, va / 4096, PgUp(sz), k);
      LoadReady(old(m.ram), m.ram, m.free, m.own, r, va / 4096 + k);
      var pa := m.Walkaddr(r, va + k * 4096);
      assert pa != 0;
      StoreSound(old(m.ram), m.ram, m.free, m.own, r, va / 4096 + k, pa, data(k));
      FillingNext(old(m.ram), m.ram, m.free, m.own, r, va / 4096, k, pa, data);
      m.ram := m.ram.(mem := m.ram.mem[pa := data(k)]);
      if k == short {
        return false;
      }
      k := k + 1;
    }
    PgUpEnd(k, sz);
    ok := true;
  }

  /** The size after a program header, or exec gives up. */
  datatype Load = Bad | Sized(sz: nat)

  function LoadOne(sz: nat, seg: Segment): Load {
    if !seg.readable then Bad
    else if !seg.load then Sized(sz)
    else
      var end := seg.vaddr + seg.memsz;
      if seg.memsz < seg.filesz || end >= UINT64_SPAN || seg.vaddr % 4096 != 0 then Bad
      else if (if end < sz then sz else end) == 0 || seg.short < PgUp(AsUint(seg.filesz)) then Bad
      else Sized(if end < sz then sz else end)
  }

  /** The size the program's segments give, whatever memory there is. */
  function LoadAll(segs: seq<Segment>): Load
    decreases |segs|
  {
    if segs == [] then Sized(0)
    else
      match LoadAll(segs[..|segs| - 1])
      case Bad => Bad
      case Sized(sz) => LoadOne(sz, segs[|segs| - 1])
  }

  /** exec's loop body; on failure sz' is the size that goes with the pages mapped so far */
  method LoadSegment(m: Memory, r: int, sz: nat, seg: Segment, ghost segs: seq<Segment>, ghost s0: Ram,
          ghost free0: seq<int>, ghost own0: Owner)
      returns (ok: bool, sz': nat)
    requires Execing(s0, free0, own0, m.ram, m.free, m.own, r, sz) && forall k :: |seg.data(k)| == ENTRIES
    requires Loaded(m.ram.mem, r, PgUp(sz), segs) && Budget(free0, m.free, m.own, r, PgUp(sz))
    modifies m
    ensures Execing(s0, free0, own0, m.ram, m.free, m.own, r, sz')
    ensures ok ==> Loaded(m.ram.mem, r, PgUp(sz'), segs + [seg])
    ensures ok ==> LoadOne(sz, seg) == Sized(sz') && Budget(free0, m.free, m.own, r, PgUp(sz'))
    ensures !ok ==> LoadOne(sz, seg).Bad? || |free0| < Cost(PgUp(LoadOne(sz, seg).sz))
  {
    hide *;
    LoadOneIs(sz, seg);
    sz' := sz;
    if !seg.readable {
      return false, sz;
    }
    if !seg.load {
      LoadedSkipped(m.ram.mem, r, PgUp(sz), segs, seg);
      return true, sz;
    }
    if seg.memsz < seg.filesz || seg.vaddr + seg.memsz >= UINT64_SPAN {
      return false, sz;
    }
    ExecReady(s0, free0, own0, m.ram, m.free, m.own, r, sz);
    ghost var ram1, free1, own1 := m.ram, m.free, m.own;
    var sz1;
    ghost var grown;
    sz1, grown := m.Uvmalloc(r, sz, seg.vaddr + seg.memsz, true, true);
    ExecGrown(s0, free0, own0, ram1, free1, own1, m.ram, m.free, m.own, r, sz, seg.vaddr + seg.memsz, sz1, grown);
    SegmentPaid(free0, free1, own1, m.free, m.own, r, sz, seg, sz1, grown);
    if sz1 == 0 {
      return false, sz;
    }
    LoadedAfter(s0, free0, own0, ram1, free1, own1, m.ram, m.own, r, sz, seg.vaddr + seg.memsz, sz1, grown, segs);
    sz' := sz1;
    if seg.vaddr % 4096 != 0 {
      return false, sz1;
    }
    ghost var ram2, free2 := m.ram, m.free;
    var n := AsUint(seg.filesz);
    LoadFits(seg.vaddr, seg.memsz, seg.filesz, n, sz1);
    ExecReady(s0, free0, own0, m.ram, m.free, m.own, r, sz1);
    LoadRange(m.ram.mem, r, seg.vaddr / 4096, PgUp(n), PgUp(sz1));
    ok := Loadseg(m, r, seg.vaddr, n, seg.data, seg.short);
    if ok {
      SpaceMapped(ram2.mem, r, PgUp(sz1), true, true);
      LoadedMore(ram2.mem, m.ram.mem, r, PgUp(sz1), segs, seg);
    }
    ExecLoaded(s0, free0, own0, ram2, free2, m.own, m.ram, m.free, r, sz1);
  }

  /** Where the user stack ends, two pages above the program. */
  function StackEnd(segs: seq<Segment>): nat {
    match LoadAll(segs)
    case Bad => 0
    case Sized(sz) => (PgUp(sz) + 2) * 4096
  }

  /** The segments are well-formed, the arguments fit the stack page, and the free pages suffice. */
  predicate CanRun(segs: seq<Segment>, args: seq<seq<nat>>, nfree: nat) {
    && LoadAll(segs).Sized?
    && |args| <= MAXARG && StackEnd(segs) - 4096 <= StackTop(StackEnd(segs), Lens(args))
    && Cost(PgUp(LoadAll(segs).sz) + 2) <= nfree
  }

  lemma LoadAllNone(segs: seq<Segment>)
    ensures LoadAll(segs[..0]) == Sized(0) && PgUp(0) == 0
  {
  }

  lemma LoadAllNext(segs: seq<Segment>, i: nat, sz: nat)
    requires i < |segs| && LoadAll(segs[..i]) == Sized(sz)
    ensures LoadAll(segs[..i + 1]) == LoadOne(sz, segs[i])
  {
    hide LoadOne;
    assert segs[..i + 1][..i] == segs[..i];
  }

  /** A program that loads whole loads in part, with no larger size. */
  lemma {:induction false} LoadAllPrefix(segs: seq<Segment>, i: nat)
    requires i <= |segs| && LoadAll(segs).Sized?
    ensures LoadAll(segs[..i]).Sized? && LoadAll(segs[..i]).sz <= LoadAll(segs).sz
    decreases |segs|
  {
    if i == |segs| {
      assert segs[..i] == segs;
    } else {
      var front := segs[..|segs| - 1];
      LoadAllPrefix(front, i);
      assert front[..i] == segs[..i];
    }
  }

  lemma TooFew(segs: seq<Segment>, args: seq<seq<nat>>, nfree: nat, i: nat)
    requires i <= |segs|
    ensures LoadAll(segs[..i]).Sized? && nfree < Cost(PgUp(LoadAll(segs[..i]).sz)) ==> !CanRun(segs, args, nfree)
    ensures nfree < Cost(0) ==> !CanRun(segs, args, nfree)
  {
    hide Cost, StackTop, LoadOne, LoadAll;
    if CanRun(segs, args, nfree) {
      LoadAllPrefix(segs, i);
      PgUpOrder(LoadAll(segs[..i]).sz, LoadAll(segs).sz);
      CostGrows(PgUp(LoadAll(segs[..i]).sz), PgUp(LoadAll(segs).sz) + 2);
      CostGrows(0, PgUp(LoadAll(segs).sz) + 2);
    }
  }

  lemma SegmentFails(segs: seq<Segment>, args: seq<seq<nat>>, nfree: nat, i: nat)
    requires i < |segs|
    requires LoadAll(segs[..i + 1]).Bad? || nfree < Cost(PgUp(LoadAll(segs[..i + 1]).sz))
    ensures !CanRun(segs, args, nfree)
  {
    hide Cost, StackTop, LoadOne, LoadAll;
    TooFew(segs, args, nfree, i + 1);
    if CanRun(segs, args, nfree) {
      LoadAllPrefix(segs, i + 1);
    }
  }

  lemma CanRunIs(segs: seq<Segment>, args: seq<seq<nat>>, nfree: nat, sz: nat)
    requires LoadAll(segs) == Sized(sz)
    ensures StackEnd(segs) == PgUp(sz) * 4096 + 2 * 4096
    ensures CanRun(segs, args, nfree) <==>
              && |args| <= MAXARG && StackEnd(segs) - 4096 <= StackTop(StackEnd(segs), Lens(args))
              && Cost(PgUp(sz) + 2) <= nfree
  {
    hide Cost, StackTop, LoadAll;
  }

  lemma LoadOneIs(sz: nat, seg: Segment)
    ensures
      var end := seg.vaddr + seg.memsz;
      var sz1 := if end < sz then sz else end;
      LoadOne(sz, seg) ==
        if !seg.readable then Bad
        else if !seg.load then Sized(sz)
        else if seg.memsz < seg.filesz || end >= UINT64_SPAN || sz1 == 0 || seg.vaddr % 4096 != 0
             || seg.short < PgUp(AsUint(seg.filesz)) then Bad
        else Sized(sz1)
  {
  }

  /** After uvmalloc: the pages are paid for, or there are too few for this segment. */
  lemma SegmentPaid(free0: seq<int>, free1: seq<int>, own1: Owner, free: seq<int>, own: Owner, r: int, sz: nat,
          seg: Segment, sz1: nat, grown: bool)
    requires Budget(free0, free1, own1, r, PgUp(sz))
    requires
      var end := seg.vaddr + seg.memsz;
      if end < sz then sz1 == sz && free == free1 && own == own1
      else
        && sz1 == (if grown then end else 0) && PgUp(end) >= PgUp(sz)
        && if grown then Paid(free1, own1, free, own, r, PgUp(sz), PgUp(end) - PgUp(sz))
           else |free1| < Need(own1, r, PgUp(sz), PgUp(end) - PgUp(sz))
    ensures
      var end := seg.vaddr + seg.memsz;
      var want := if end < sz then sz else end;
      && (sz1 != 0 ==> sz1 == want && Budget(free0, free, own, r, PgUp(sz1)))
      && (sz1 == 0 ==> want == 0 || |free0| < Cost(PgUp(want)))
  {
    hide PgUp, Budget, Paid, Need, Cost;
    var end := seg.vaddr + seg.memsz;
    if end >= sz {
      if grown {
        BudgetNext(free0, free1, own1, free, own, r, PgUp(sz), PgUp(end));
      } else {
        BudgetOut(free0, free1, own1, r, PgUp(sz), PgUp(end));
      }
    }
  }

  /** exec's failure exit once it has a page table */
  method ExecBad(m: Memory, r: nat, sz: nat, ghost s0: Ram, ghost free0: seq<int>, ghost own0: Owner)
    requires ExecSpace(s0, free0, own0, m.ram, m.free, m.own, r, sz)
    modifies m
    ensures Sound(m.ram, m.free, m.own) && m.own == own0 && Unchanged(s0, m.ram, own0)
    ensures forall p :: p in m.free <==> p in free0
  {
    hide *;
    ExecSpaceIs(s0, free0, own0, m.ram, m.free, m.own, r, sz);
    ghost var ram1, own1 := m.ram, m.own;
    m.ProcFreepagetable(r, sz);
    DropDone(s0, free0, own0, ram1, own1, m.ram, m.own, r);
    SameFree(s0, free0, m.ram, m.free, m.own);
  }

  const MAXARG: nat := 32

  /** The stack pointer below an argument of length n pushed at sp. */
  function Below(sp: int, n: nat): int { sp - (n + 1) - (sp - (n + 1)) % 16 }

  /** The stack pointer once the first k arguments are pushed. */
  function Pushed(top: int, lens: seq<nat>, k: nat): int
    requires k <= |lens|
    decreases k
  {
    if k == 0 then top else Below(Pushed(top, lens, k - 1), lens[k - 1])
  }

  /** The stack pointer with the pointer array below the arguments. */
  function StackTop(top: int, lens: seq<nat>): int { Below(Pushed(top, lens, |lens|), 8 * (|lens| + 1) - 1) }

  lemma {:induction false} PushedFalls(top: int, lens: seq<nat>, k: nat)
    requires k <= |lens|
    ensures StackTop(top, lens) <= Pushed(top, lens, k)
    ensures k == 0 ==> Pushed(top, lens, k) == top
    ensures k > 0 ==> Pushed(top, lens, k) == Below(Pushed(top, lens, k - 1), lens[k - 1])
    ensures k == |lens| ==> StackTop(top, lens) == Below(Pushed(top, lens, k), 8 * (k + 1) - 1)
    decreases |lens| - k
  {
    hide Below;
    if k < |lens| {
      PushedFalls(top, lens, k + 1);
      BelowFacts(Pushed(top, lens, k), lens[k]);
    } else {
      BelowFacts(Pushed(top, lens, k), 8 * (|lens| + 1) - 1);
    }
  }

  /** Strings lie one below the other, none overlapping the next, and the pointer array below them all. */
  ghost predicate Stacked(top: int, lens: seq<nat>, at: seq<nat>, k: nat) {
    && |at| == k <= |lens|
    && (forall i :: 0 <= i < k ==> at[i] % 16 == 0)
    && (forall i, j :: 0 <= i < j < k ==> at[j] + lens[j] + 1 <= at[i])
    && (forall i :: 0 <= i < k ==> at[i] + lens[i] + 1 <= top)
  }

  function Lens(args: seq<seq<nat>>): (lens: seq<nat>)
    ensures |lens| == |args|
  {
    seq(|args|, i requires 0 <= i < |args| => |args[i]|)
  }

  /** The word at user address a. */
  function WordAt(mem: Mem, r: int, a: nat): nat {
    var page := PageAt(mem, r, a / 4096);
    if a % 4096 / 8 < |page| then page[a % 4096 / 8] else 0
  }

  /** The bytes of str and a zero byte from a on. */
  ghost predicate StringAt(mem: Mem, r: int, a: nat, str: seq<nat>) {
    forall j :: 0 <= j <= |str| ==> ByteAt(mem, r, a + j) == (str + [0])[j]
  }

  ghost predicate StringsAt(mem: Mem, r: int, at: seq<nat>, args: seq<seq<nat>>, k: nat) {
    k <= |at| && k <= |args| && forall i :: 0 <= i < k ==> StringAt(mem, r, at[i], args[i])
  }

  /** The array of these pointers, and a zero word, at sp. */
  ghost predicate PointersAt(mem: Mem, r: int, sp: nat, at: seq<nat>) {
    forall i :: 0 <= i <= |at| ==> WordAt(mem, r, sp + 8 * i) == (at + [0])[i]
  }

  /** Every page of r but v is as it was. */
  ghost predicate OtherPages(mem0: Mem, mem: Mem, r: int, v: int) {
    forall u :: 0 <= u < TRAPFRAME && u != v && Valid(Lookup(mem0, r, u)) ==> PageAt(mem, r, u) == PageAt(mem0, r, u)
  }

  /** The bytes of ustack. */
  function Flat(words: seq<nat>): (bytes: seq<nat>)
    ensures |bytes| == 8 * |words| && Octets(bytes)
    decreases |words|
  {
    if words == [] then [] else Flat(words[..|words| - 1]) + Bytes(words[|words| - 1], 8)
  }

  /** [base, top) is the stack page of r. */
  ghost predicate StackPage(mem: Mem, r: int, base: nat, top: nat) {
    4096 <= base && base % 4096 == 0 && top == base + 4096 <= TRAPFRAME * 4096 && Usable(mem, r, base / 4096)
  }

  predicate ArgsOk(args: seq<seq<nat>>) {
    forall i :: 0 <= i < |args| ==> |args[i]| < 4096 && Octets(args[i])
  }

  /** What the calls of copyout leave as it is. */
  ghost predicate OnlyStack(s0: Ram, s: Ram, own: Owner, r: int, base: nat) {
    SameLookups(s0.mem, s.mem, own) && Apart(s0, own, s, own, r) && OtherPages(s0.mem, s.mem, r, base / 4096)
  }

  /** One copyout onto the stack page; it cannot fail. */
  method Push(m: Memory, r: int, sp: nat, src: seq<nat>, ghost s0: Ram, ghost base: nat, ghost top: nat)
    requires Sound(m.ram, m.free, m.own) && IsRoot(m.own, r) && Octets(src) && StackPage(s0.mem, r, base, top)
    requires OnlyStack(s0, m.ram, m.own, r, base) && base <= sp && sp + |src| <= top && src != []
    modifies m
    ensures Sound(m.ram, m.free, m.own) && m.own == old(m.own) && m.free == old(m.free)
    ensures OnlyStack(s0, m.ram, m.own, r, base) && Copied(old(m.ram.mem), m.ram.mem, r, sp, src)
  {
    hide *;
    PushReady(s0, m.ram, m.own, r, sp, |src|, base, top);
    var ok := Copyout(m, r, sp, src);
    assert ok;
    PushDone(s0, old(m.ram), m.ram, m.own, r, sp, src, base, top);
  }

  /**
   exec's pushing of the arguments: it succeeds exactly if there are at most MAXARG and they
   and the pointer array fit; then all are apart, aligned and in bounds, each string is at
   its address, the array at sp holds these addresses in order, and no other page has changed.
   */
  method PushArgs(m: Memory, r: int, top: nat, base: nat, args: seq<seq<nat>>)
    returns (ok: bool, sp: nat, at: seq<nat>)
    requires Sound(m.ram, m.free, m.own) && IsRoot(m.own, r) && StackPage(m.ram.mem, r, base, top) && ArgsOk(args)
    modifies m
    ensures Sound(m.ram, m.free, m.own) && m.own == old(m.own) && m.free == old(m.free)
    ensures OnlyStack(old(m.ram), m.ram, m.own, r, base)
    ensures ok <==> |args| <= MAXARG && base <= StackTop(top, Lens(args))
    ensures ok ==> sp == StackTop(top, Lens(args)) && sp % 16 == 0 && Stacked(top, Lens(args), at, |args|)
    ensures ok ==> sp + 8 * (|args| + 1) <= top && forall i :: 0 <= i < |at| ==> sp + 8 * (|args| + 1) <= at[i]
    ensures ok ==> StringsAt(m.ram.mem, r, at, args, |args|) && PointersAt(m.ram.mem, r, sp, at)
  {
    hide *;
    ghost var s0 := m.ram;
    ghost var lens := Lens(args);
    sp, at := top, [];
    StackPageIs(s0.mem, r, base, top);
    PushedFalls(top, lens, 0);
    StackedNone(top, lens);
    PushNone(m.ram, m.own, r, base, args);
    var argc := 0;
    while argc < |args|
      invariant 0 <= argc <= |args| && argc <= MAXARG && base <= sp <= top && sp == Pushed(top, lens, argc)
      invariant |at| == argc && Stacked(top, lens, at, argc) && sp == if argc == 0 then top else at[argc - 1]
      invariant Sound(m.ram, m.free, m.own) && m.own == old(m.own) && m.free == old(m.free)
      invariant OnlyStack(s0, m.ram, m.own, r, base) && StringsAt(m.ram.mem, r, at, args, argc)
    {
      if argc >= MAXARG {
        return false, sp, at;
      }
      PushedFalls(top, lens, argc + 1);
      ghost var was, s1 := sp, m.ram;
      ArgIs(args, argc);
      BelowFacts(sp, |args[argc]|);
      BelowIs(sp, |args[argc]|);
      sp := sp - (|args[argc]| + 1);
      sp := sp - sp % 16;
      if sp < base {
        return false, sp, at;
      }
      Push(m, r, sp, args[argc] + [0], s0, base, top);
      OnlyStackIs(s0, s1, m.own, r, base);
      PushedString(s0, s1, m.ram, m.own, r, base, top, lens, at, args, argc, sp);
      StackedNext(top, lens, at, argc, was, sp);
      at := at + [sp];
      argc := argc + 1;
    }
    PushedFalls(top, lens, |lens|);
    BelowFacts(sp, 8 * (argc + 1) - 1);
    BelowIs(sp, 8 * (argc + 1) - 1);
    assert MAXARG == 32 by { MaxArgIs(); }
    LastIsLowest(top, lens, at, sp);
    sp := sp - (argc + 1) * 8;
    sp := sp - sp % 16;
    if sp < base {
      return false, sp, at;
    }
    ghost var s1 := m.ram;
    OnlyStackIs(s0, s1, m.own, r, base);
    FlatSize(at + [0]);
    Push(m, r, sp, Flat(at + [0]), s0, base, top);
    PushedPointers(s0, s1, m.ram, m.free, m.own, r, base, top, lens, at, args, sp);
    ok := true;
  }

  lemma StackPageIs(mem: Mem, r: int, base: nat, top: nat)
    requires StackPage(mem, r, base, top)
    ensures 4096 <= base <= top && top == base + 4096 && base % 4096 == 0
  {
  }

  lemma OnlyStackIs(s0: Ram, s: Ram, own: Owner, r: int, base: nat)
    requires OnlyStack(s0, s, own, r, base)
    ensures SameLookups(s0.mem, s.mem, own) && Apart(s0, own, s, own, r) && OtherPages(s0.mem, s.mem, r, base / 4096)
  {
  }

  lemma MaxArgIs()
    ensures MAXARG == 32
  {
  }

  lemma BelowIs(sp: int, n: nat)
    ensures Below(sp, n) == sp - (n + 1) - (sp - (n + 1)) % 16
  {
  }

  lemma ArgIs(args: seq<seq<nat>>, k: nat)
    requires k < |args| && ArgsOk(args)
    ensures Lens(args)[k] == |args[k]| < 4096 && Octets(args[k] + [0])
  {
  }

  lemma FlatSize(words: seq<nat>)
    ensures |Flat(words)| == 8 * |words| && Octets(Flat(words))
  {
  }

  lemma PushNone(s: Ram, own: Owner, r: int, base: nat, args: seq<seq<nat>>)
    ensures OnlyStack(s, s, own, r, base) && StringsAt(s.mem, r, [], args, 0)
  {
    hide Lookup, PageAt;
    SameStart(s, own, r);
  }

  lemma PushReady(s0: Ram, s: Ram, own: Owner, r: int, sp: nat, n: nat, base: nat, top: nat)
    requires IsRoot(own, r) && StackPage(s0.mem, r, base, top) && OnlyStack(s0, s, own, r, base)
    requires base <= sp && sp + n <= top && n > 0
    ensures Reachable(s.mem, r, sp, n) && sp + n <= TRAPFRAME * 4096
  {
    hide Lookup, Valid, UserBit, PageAt, Apart;
    VpnOrder();
    var v := base / 4096;
    assert Lookup(s.mem, r, v) == Lookup(s0.mem, r, v);
    assert forall u :: sp / 4096 <= u && u * 4096 < sp + n ==> u == v;
  }

  lemma PushDone(s0: Ram, s1: Ram, s: Ram, own: Owner, r: int, sp: nat, src: seq<nat>, base: nat, top: nat)
    requires IsRoot(own, r) && StackPage(s0.mem, r, base, top) && OnlyStack(s0, s1, own, r, base)
    requires base <= sp && sp + |src| <= top && Copied(s1.mem, s.mem, r, sp, src)
    requires SameLookups(s1.mem, s.mem, own) && Apart(s1, own, s, own, r)
    ensures OnlyStack(s0, s, own, r, base)
  {
    hide Lookup, Valid, UserBit, PageAt, Pack;
    VpnOrder();
    ApartTwice(s0, own, s1, own, s, own, r);
  }

  /** A copy seen byte by byte. */
  lemma CopiedByte(mem0: Mem, mem: Mem, r: int, dst: int, src: seq<nat>, a: nat)
    requires Copied(mem0, mem, r, dst, src) && Octets(src)
    requires a / 4096 < TRAPFRAME && Valid(Lookup(mem0, r, a / 4096))
    ensures ByteAt(mem, r, a) == if dst <= a < dst + |src| then src[a - dst] else ByteAt(mem0, r, a)
  {
    hide Lookup, Valid, PageAt, ByteOf, Over;
    var u := a / 4096;
    OverByte(PageAt(mem0, r, u), u * 4096, dst, src, a % 4096);
  }

  lemma OnStack(s0: Ram, s1: Ram, own: Owner, r: int, base: nat, top: nat, a: nat)
    requires IsRoot(own, r) && StackPage(s0.mem, r, base, top) && SameLookups(s0.mem, s1.mem, own) && base <= a < top
    ensures a / 4096 == base / 4096 < TRAPFRAME && Valid(Lookup(s1.mem, r, a / 4096))
  {
    hide Lookup, Valid, UserBit;
    VpnOrder();
    assert Lookup(s1.mem, r, base / 4096) == Lookup(s0.mem, r, base / 4096);
  }

  /** A string below those already there. */
  lemma PushedString(s0: Ram, s1: Ram, s: Ram, own: Owner, r: int, base: nat, top: nat, lens: seq<nat>,
          at: seq<nat>, args: seq<seq<nat>>, k: nat, sp: nat)
    requires IsRoot(own, r) && StackPage(s0.mem, r, base, top) && SameLookups(s0.mem, s1.mem, own)
    requires lens == Lens(args) && ArgsOk(args) && k < |args| && Stacked(top, lens, at, k) && base <= sp
    requires StringsAt(s1.mem, r, at, args, k) && sp + |args[k]| + 1 <= if k == 0 then top else at[k - 1]
    requires Copied(s1.mem, s.mem, r, sp, args[k] + [0])
    ensures StringsAt(s.mem, r, at + [sp], args, k + 1)
  {
    hide Lookup, Valid, UserBit, ByteAt, Copied, SameLookups, StackPage;
    ArgIs(args, k);
    StackPageIs(s0.mem, r, base, top);
    var str := args[k] + [0];
    StringsStay(s0, s1, s, own, r, base, top, at, args, k, sp, str);
    forall j | 0 <= j <= |args[k]| ensures ByteAt(s.mem, r, sp + j) == str[j] {
      OnStack(s0, s1, own, r, base, top, sp + j);
      CopiedByte(s1.mem, s.mem, r, sp, str, sp + j);
    }
    assert StringAt(s.mem, r, sp, args[k]);
    StringsMore(s.mem, r, at, args, k, sp);
  }

  lemma StringsMore(mem: Mem, r: int, at: seq<nat>, args: seq<seq<nat>>, k: nat, sp: nat)
    requires StringsAt(mem, r, at, args, k) && |at| == k < |args| && StringAt(mem, r, sp, args[k])
    ensures StringsAt(mem, r, at + [sp], args, k + 1)
  {
    hide StringAt;
  }

  lemma {:induction false} FlatAt(words: seq<nat>, i: nat)
    requires i < |words|
    ensures Flat(words)[8 * i..8 * i + 8] == Bytes(words[i], 8)
    decreases |words|
  {
    var front := words[..|words| - 1];
    if i < |front| {
      FlatAt(front, i);
      assert Flat(words)[8 * i..8 * i + 8] == Flat(front)[8 * i..8 * i + 8];
    }
  }

  lemma WordFits(w: nat)
    requires w < 0x1_0000_0000_0000_0000
    ensures Word(Bytes(w, 8)) == w
  {
    assert Radix(8) == 0x1_0000_0000_0000_0000 by {
      assert Radix(4) == 0x1_0000_0000;
    }
    WordOfBytes(w, 8);
  }

  lemma PageSize(s: Ram, free: seq<int>, own: Owner, r: int, v: int)
    requires Sound(s, free, own) && IsRoot(own, r) && 0 <= v < TRAPFRAME && Valid(Lookup(s.mem, r, v))
    ensures |PageAt(s.mem, r, v)| == ENTRIES
  {
    hide Lookup, Valid, Tree, Ppn, Flags, Readable;
    VpnOrder();
    HeapPages(s, free, own);
    assert UserPage(own, Ppn(Lookup(s.mem, r, v)), r, v);
  }

  /** A word of a copy that lies on the stack page. */
  lemma CopiedWord(s1: Ram, mem: Mem, r: int, dst: nat, src: seq<nat>, i: nat, base: nat)
    requires Copied(s1.mem, mem, r, dst, src) && dst % 8 == 0 && base % 4096 == 0 && base / 4096 < TRAPFRAME
    requires base <= dst && 8 * i + 8 <= |src| && dst + |src| <= base + 4096
    requires Valid(Lookup(s1.mem, r, base / 4096)) && |PageAt(s1.mem, r, base / 4096)| == ENTRIES
    ensures WordAt(mem, r, dst + 8 * i) == Word(src[8 * i..8 * i + 8])
  {
    hide Lookup, Valid, PageAt, Over, Word;
    var u := base / 4096;
    OverWord(PageAt(s1.mem, r, u), u * 4096, dst, src, i);
    OverSize(PageAt(s1.mem, r, u), u * 4096, dst, src);
    assert (dst + 8 * i) / 4096 == u && (dst + 8 * i) % 4096 == dst + 8 * i - base;
  }

  /** The pointer array below the strings. */
  lemma PushedPointers(s0: Ram, s1: Ram, s: Ram, free: seq<int>, own: Owner, r: int, base: nat, top: nat,
          lens: seq<nat>, at: seq<nat>, args: seq<seq<nat>>, sp: nat)
    requires Sound(s1, free, own)
    requires IsRoot(own, r) && StackPage(s0.mem, r, base, top) && SameLookups(s0.mem, s1.mem, own)
    requires lens == Lens(args) && Stacked(top, lens, at, |args|) && StringsAt(s1.mem, r, at, args, |args|)
    requires base <= sp && sp % 16 == 0 && sp + 8 * (|args| + 1) <= top
    requires forall i :: 0 <= i < |at| ==> sp + 8 * (|args| + 1) <= at[i]
    requires Copied(s1.mem, s.mem, r, sp, Flat(at + [0]))
    ensures StringsAt(s.mem, r, at, args, |args|) && PointersAt(s.mem, r, sp, at)
  {
    hide Lookup, Valid, UserBit, ByteAt, WordAt, Copied, SameLookups, StackPage, Sound, Flat, Word, Bytes;
    var ws := at + [0];
    StackPageIs(s0.mem, r, base, top);
    OnStack(s0, s1, own, r, base, top, base);
    PageSize(s1, free, own, r, base / 4096);
    FlatSize(ws);
    assert PointersAt(s.mem, r, sp, at) by {
      forall i | 0 <= i <= |at| ensures WordAt(s.mem, r, sp + 8 * i) == ws[i] {
        assert ws[i] < top;
        PointerWritten(s1, s.mem, r, sp, ws, base, top, i);
      }
    }
    StringsStay(s0, s1, s, own, r, base, top, at, args, |args|, sp, Flat(ws));
  }

  lemma PointerWritten(s1: Ram, mem: Mem, r: int, sp: nat, ws: seq<nat>, base: nat, top: nat, i: nat)
    requires Copied(s1.mem, mem, r, sp, Flat(ws)) && sp % 16 == 0 && base % 4096 == 0 && base / 4096 < TRAPFRAME
    requires base <= sp && top == base + 4096 && sp + 8 * |ws| <= top && i < |ws| && ws[i] < top
    requires Valid(Lookup(s1.mem, r, base / 4096)) && |PageAt(s1.mem, r, base / 4096)| == ENTRIES
    ensures WordAt(mem, r, sp + 8 * i) == ws[i]
  {
    hide Lookup, Valid, PageAt, WordAt, Copied, Flat, Word, Bytes;
    FlatSize(ws);
    CopiedWord(s1, mem, r, sp, Flat(ws), i, base);
    FlatAt(ws, i);
    WordFits(ws[i]);
  }

  /** A copy below all the strings leaves them. */
  lemma StringsStay(s0: Ram, s1: Ram, s: Ram, own: Owner, r: int, base: nat, top: nat, at: seq<nat>,
          args: seq<seq<nat>>, k: nat, sp: nat, src: seq<nat>)
    requires IsRoot(own, r) && StackPage(s0.mem, r, base, top) && SameLookups(s0.mem, s1.mem, own)
    requires k <= |args| && Stacked(top, Lens(args), at, k) && StringsAt(s1.mem, r, at, args, k)
    requires base <= sp && Octets(src) && Copied(s1.mem, s.mem, r, sp, src)
    requires forall i :: 0 <= i < k ==> sp + |src| <= at[i]
    ensures StringsAt(s.mem, r, at, args, k)
  {
    hide Lookup, Valid, UserBit, ByteAt, Copied, SameLookups, StackPage, Octets;
    forall i | 0 <= i < k ensures StringAt(s.mem, r, at[i], args[i]) {
      assert StringAt(s1.mem, r, at[i], args[i]);
      assert Lens(args)[i] == |args[i]|;
      forall j | 0 <= j <= |args[i]| ensures ByteAt(s.mem, r, at[i] + j) == (args[i] + [0])[j] {
        OnStack(s0, s1, own, r, base, top, at[i] + j);
        CopiedByte(s1.mem, s.mem, r, sp, src, at[i] + j);
      }
    }
  }

  lemma BelowFacts(sp: int, n: nat)
    ensures Below(sp, n) % 16 == 0 && Below(sp, n) + n + 1 <= sp && Below(sp, n) > sp - (n + 1) - 16
    ensures sp >= n + 1 ==> Below(sp, n) >= 0
  {
  }

  lemma StackedNone(top: int, lens: seq<nat>)
    ensures Stacked(top, lens, [], 0)
  {
  }

  lemma StackedNext(top: int, lens: seq<nat>, at: seq<nat>, k: nat, was: int, sp: nat)
    requires Stacked(top, lens, at, k) && k < |lens| && was == (if k == 0 then top else at[k - 1])
    requires sp % 16 == 0 && sp + lens[k] + 1 <= was
    ensures Stacked(top, lens, at + [sp], k + 1)
  {
  }

  lemma LastIsLowest(top: int, lens: seq<nat>, at: seq<nat>, sp: int)
    requires Stacked(top, lens, at, |lens|) && sp == if |lens| == 0 then top else at[|lens| - 1]
    ensures |at| == |lens| && forall i :: 0 <= i < |at| ==> sp <= at[i]
  {
  }

  lemma StackBounds(sz: nat)
    requires sz % 4096 == 0 && sz >= 2 * 4096
    ensures 4096 <= sz - 4096 && sz - 4096 == (PgUp(sz) - 1) * 4096
  {
  }

  lemma StackAligned(sz: nat)
    requires sz % 4096 == 0
    ensures (sz + 2 * 4096) % 4096 == 0
  {
  }

  /**
   exec's memory: a new address space holding what the segments bring replaces that of r0, or
   everything is as before; it succeeds exactly if the header is good, the program can run
   and there are pages for it. The arguments are shorter than a page each, as sys_exec fetches
   them; their strings and the array of pointers to them are on the stack page.
   */
  method Exec(m: Memory, r0: nat, oldsz: nat, trapframe: nat, trampoline: nat, headerOk: bool, segs: seq<Segment>,
          args: seq<seq<nat>>)
    returns (r: nat, sz: nat, sp: nat)
    requires Sound(m.ram, m.free, m.own) && IsRoot(m.own, r0) && Space(m.ram.mem, r0, PgUp(oldsz), true, true)
    requires ArgsOk(args)
    requires forall i, k :: 0 <= i < |segs| ==> |segs[i].data(k)| == ENTRIES
    modifies m
    ensures Sound(m.ram, m.free, m.own)
    ensures r == 0 ==> m.own == old(m.own) && Unchanged(old(m.ram), m.ram, m.own)
    ensures r == 0 ==> forall p :: p in m.free <==> p in old(m.free)
    ensures r != 0 <==> headerOk && CanRun(segs, args, |old(m.free)|)
    ensures r != 0 ==> sz == StackEnd(segs)
    ensures r != 0 ==>
      && IsRoot(m.own, r) && !IsRoot(m.own, r0) && Space(m.ram.mem, r, PgUp(sz), true, true)
      && Without(m.own, r) == Without(old(m.own), r0) && Unchanged(old(m.ram), m.ram, Without(old(m.own), r0))
      && PgUp(sz) >= 2 && !UserBit(Lookup(m.ram.mem, r, PgUp(sz) - 2))
      && |args| <= MAXARG && (PgUp(sz) - 1) * 4096 <= sp && sp % 16 == 0 && Arguments(m.ram.mem, r, sz, sp, args)
      && forall u :: 0 <= u < PgUp(sz) - 1 ==> PageAt(m.ram.mem, r, u) == Expected(segs, u)
  {
    hide *;
    r, sz, sp := 0, 0, 0;
    UnchangedSame(m.ram, m.own);
    if !headerOk {
      return;
    }
    ghost var s0, free0, own0 := m.ram, m.free, m.own;
    CostZero();
    TooFew(segs, args, |free0|, 0);
    r := m.ProcPagetable(trapframe, trampoline);
    if r == 0 {
      return;
    }
    ExecStart(s0, free0, own0, m.ram, m.free, m.own, r);
    BudgetStart(free0, m.free, m.own, r);
    LoadAllNone(segs);
    LoadedNone(m.ram.mem, r);
    var i := 0;
    while i < |segs|
      invariant 0 <= i <= |segs| && Execing(s0, free0, own0, m.ram, m.free, m.own, r, sz)
      invariant Loaded(m.ram.mem, r, PgUp(sz), segs[..i]) && LoadAll(segs[..i]) == Sized(sz)
      invariant Budget(free0, m.free, m.own, r, PgUp(sz))
    {
      var ok;
      assert segs[..i + 1] == segs[..i] + [segs[i]];
      ghost var was := sz;
      ok, sz := LoadSegment(m, r, sz, segs[i], segs[..i], s0, free0, own0);
      LoadAllNext(segs, i, was);
      if !ok {
        SegmentFails(segs, args, |free0|, i);
        ExecReady(s0, free0, own0, m.ram, m.free, m.own, r, sz);
        ExecBad(m, r, sz, s0, free0, own0);
        return 0, 0, 0;
      }
      i := i + 1;
    }
    assert segs[..|segs|] == segs;
    RoundUp(s0, free0, own0, m.ram, m.free, m.own, r, sz);
    CanRunIs(segs, args, |free0|, sz);
    sz := PgUp(sz) * 4096;
    ghost var ram1, free1, own1 := m.ram, m.free, m.own;
    ExecReady(s0, free0, own0, m.ram, m.free, m.own, r, sz);
    var sz1;
    ghost var grown;
    sz1, grown := m.Uvmalloc(r, sz, sz + 2 * 4096, true, true);
    ExecGrown(s0, free0, own0, ram1, free1, own1, m.ram, m.free, m.own, r, sz, sz + 2 * 4096, sz1, grown);
    StackPages(sz);
    if sz1 == 0 {
      BudgetOut(free0, free1, own1, r, PgUp(sz), PgUp(sz) + 2);
      ExecReady(s0, free0, own0, m.ram, m.free, m.own, r, sz);
      ExecBad(m, r, sz, s0, free0, own0);
      return 0, 0, 0;
    }
    BudgetNext(free0, free1, own1, m.free, m.own, r, PgUp(sz), PgUp(sz) + 2);
    BudgetIs(free0, m.free, m.own, r, PgUp(sz) + 2);
    LoadedAfter(s0, free0, own0, ram1, free1, own1, m.ram, m.own, r, sz, sz + 2 * 4096, sz1, grown, segs);
    StackAligned(sz);
    sz := sz1;
    ghost var ram2, free2, own2 := m.ram, m.free, m.own;
    VpnOrder();
    GuardReady(s0, free0, own0, m.ram, m.free, m.own, r, sz);
    m.Uvmclear(r, PgUp(sz) - 2);
    LoadedGuarded(s0, free0, own0, ram2, free2, own2, m.ram, r, sz, segs);
    GuardDone(s0, free0, own0, ram2, free2, own2, m.ram, m.free, r, sz);
    var fits, at;
    StackBounds(sz);
    ghost var ram4 := m.ram;
    StackReady(s0, free0, own0, ram2, free2, m.ram, m.free, m.own, r, sz);
    fits, sp, at := PushArgs(m, r, sz, sz - 4096, args);
    PushKeeps(s0, free0, own0, ram4, m.ram, m.free, m.own, r, sz);
    if !fits {
      ExecBad(m, r, sz, s0, free0, own0);
      return 0, 0, 0;
    }
    ghost var ram3, free3, own3 := m.ram, m.free, m.own;
    OldSpace(s0, free0, own0, m.ram, m.free, m.own, r, sz, r0, PgUp(oldsz));
    m.ProcFreepagetable(r0, oldsz);
    ExecDone(s0, free0, own0, ram3, free3, own3, m.ram, m.free, m.own, r, sz, r0);
    PagesKept(s0, free0, own0, ram3, free3, own3, m.ram, m.own, r, sz, r0);
    LoadedDone(ram4.mem, ram3.mem, m.ram.mem, r, sz, segs);
    ArgumentsDone(ram3.mem, m.ram.mem, r, sz, sp, args, at);
  }

  /** The strings where the pushes put them, and the array at sp that points to them in order. */
  ghost predicate Arguments(mem: Mem, r: int, sz: nat, sp: nat, args: seq<seq<nat>>) {
    && sp == StackTop(sz, Lens(args))
    && exists at :: |at| == |args| && Stacked(sz, Lens(args), at, |args|)
                    && StringsAt(mem, r, at, args, |args|) && PointersAt(mem, r, sp, at)
  }

  // ---- the steps

  lemma NoRootZero(s: Ram, free: seq<int>, own: Owner)
    requires Sound(s, free, own)
    ensures 0 !in own && Without(own, 0) == own
  {
    hide Sound;
    HeapPagesOf(s, free, own);
    NoneOf(s, free, own, 0);
  }

  lemma FreeprocReady(s: Ram, free: seq<int>, own: Owner, tf: nat, r: int, n: int)
    requires Sound(s, free, own) && tf in own && own[tf] == Held
    requires r != 0 ==> IsRoot(own, r) && Space(s.mem, r, n, true, true)
    ensures tf in s.mem && Sound(Freed(s, tf), [tf as int] + free, own - {tf as int})
    ensures r != 0 ==> IsRoot(own - {tf as int}, r) && Space(Freed(s, tf).mem, r, n, true, true)
  {
    hide Sound, Lookup, Valid;
    HeapPagesOf(s, free, own);
    GiveSound(s, free, own, tf);
  }

  lemma FreeprocDone(s0: Ram, free0: seq<int>, own0: Owner, s: Ram, own: Owner, tf: nat, r: int)
    requires Sound(s0, free0, own0) && tf in own0 && own0[tf] == Held
    requires r == 0 ==> own == own0 - {tf as int} && s == Freed(s0, tf)
    requires r != 0 ==> own == Without(own0 - {tf as int}, r) && Apart(Freed(s0, tf), own0 - {tf as int}, s, own, r)
    ensures own == Without(own0, r) - {tf as int} && Unchanged(s0, s, own)
  {
    hide Sound, FreedPage;
    NoRootZero(s0, free0, own0);
    assert Without(own0 - {tf as int}, r) == Without(own0, r) - {tf as int};
  }

  lemma ForkStart(s: Ram, free: seq<int>, own: Owner, x: int, n: int)
    requires Sound(s, free, own) && s.head != 0 && IsRoot(own, x) && Space(s.mem, x, n, true, true)
    ensures s.head in s.mem && |s.mem[s.head]| == ENTRIES
    ensures IsRoot(own[s.head := Held], x) && Space(Taken(s).mem, x, n, true, true) && Unchanged(s, Taken(s), own)
    ensures SameLookups(s.mem, Taken(s).mem, own)
  {
    hide Sound, Lookup, Valid, Filled;
    TakeSound(s, free, own);
  }

  lemma ForkUndone(s0: Ram, own0: Owner, s1: Ram, own1: Owner, s2: Ram, s: Ram, own: Owner, tf: int)
    requires tf !in own0 && own1 == own0[tf := Held] && own == own1 - {tf}
    requires Unchanged(s0, s1, own0) && Unchanged(s1, s2, own1) && Unchanged(s2, s, own)
    ensures own == own0 && Unchanged(s0, s, own)
  {
    assert own0[tf := Held] - {tf} == own0;
  }

  lemma ForkTable(s1: Ram, free1: seq<int>, own1: Owner, s2: Ram, free2: seq<int>, own2: Owner,
          x: int, r: int, tf: int, n: int)
    requires Sound(s1, free1, own1) && Sound(s2, free2, own2) && IsRoot(own1, x) && Space(s1.mem, x, n, true, true)
    requires Apart(s1, own1, s2, own2, r) && r !in own1 && tf in own1 && own1[tf] == Held
    ensures IsRoot(own2, x) && x != r && n <= TRAPFRAME && Mapped(s2.mem, x, 0, n)
    ensures Without(own2, r) == own1 && Unchanged(s1, s2, own1) && tf in own2 && own2[tf] == Held
    ensures forall u :: 0 <= u < NVPN ==> Lookup(s2.mem, x, u) == Lookup(s1.mem, x, u)
  {
    hide Heap, Tree, Leaves, Lookup, Valid;
    NoneOf(s1, free1, own1, r);
    HeapPages(s2, free2, own2);
    assert tf in Without(own2, r);
    ApartLookups(s1, free1, own1, s2, own2, r, x);
  }

  /** A change to r alone leaves the lookups of another root as they were. */
  lemma ApartLookups(s: Ram, free: seq<int>, own: Owner, s': Ram, own': Owner, r: int, x: int)
    requires Sound(s, free, own) && Apart(s, own, s', own', r) && IsRoot(own, x) && x != r && 0 !in s'.mem
    ensures IsRoot(own', x) && forall u :: 0 <= u < NVPN ==> Lookup(s'.mem, x, u) == Lookup(s.mem, x, u)
  {
    hide Heap, Tree, Leaves, Lookup;
    assert x in Without(own, r) && x in Without(own', r);
    forall u | 0 <= u < NVPN ensures Lookup(s'.mem, x, u) == Lookup(s.mem, x, u) {
      LookupFrame(s.mem, s'.mem, own, x, u);
    }
  }

  lemma ForkFailed(s1: Ram, own1: Owner, s2: Ram, own2: Owner, s: Ram, own: Owner, r: int, tf: int)
    requires Grown(s2, own2, s, own, r) && Space(s2.mem, r, 0, true, true) && IsRoot(own2, r)
    requires Without(own2, r) == own1 && Unchanged(s1, s2, own1) && tf in own2 && own2[tf] == Held
    ensures Without(own, r) == own1 && Unchanged(s1, s, own1) && Space(s.mem, r, 0, true, true) && PgUp(0) == 0
    ensures tf in own && own[tf] == Held
  {
    hide Space;
    GrownSpace(s2, own2, s, own, r, 0, true, true);
    GrownApart(s2, own2, s, own, r);
  }

  lemma ForkDone(s0: Ram, own0: Owner, s1: Ram, own1: Owner, s2: Ram, free2: seq<int>, own2: Owner,
          s: Ram, own: Owner, x: int, r: int, tf: int, n: int)
    requires own1 == own0[tf := Held] && tf !in own0 && Unchanged(s0, s1, own0) && SameLookups(s0.mem, s1.mem, own0)
    requires IsRoot(own0, x)
    requires Without(own2, r) == own1 && Unchanged(s1, s2, own1) && IsRoot(own2, x) && IsRoot(own2, r)
    requires 0 <= n <= TRAPFRAME
    requires forall u :: 0 <= u < NVPN ==> Lookup(s2.mem, x, u) == Lookup(s1.mem, x, u)
    requires Added(s2, own2, s, own, r, 0, Images(s2.mem, x, n))
    ensures Without(own, r) == own1 && Unchanged(s0, s, own0)
    ensures Lookup(s.mem, r, TRAPFRAME) == Lookup(s2.mem, r, TRAPFRAME)
    ensures forall u :: 0 <= u < n ==> ImageOf(s.mem, r, u) == ImageOf(s2.mem, x, u)
  {
    hide Lookup, Images, ImageOf, Shows;
    AddedApart(s2, own2, s, own, r, 0, Images(s2.mem, x, n));
    forall u | 0 <= u < n ensures ImageOf(s.mem, r, u) == ImageOf(s2.mem, x, u) {
      assert Shows(s.mem, Lookup(s.mem, r, u), Images(s2.mem, x, n)[u - 0]);
      ShownImage(s.mem, r, u, ImageOf(s2.mem, x, u));
    }
  }

  /** The parent's pages are what they were before the child's trapframe and page table were made. */
  lemma SourceSame(s0: Ram, free0: seq<int>, own0: Owner, s1: Ram, own1: Owner, s2: Ram, x: int,
          tf: int, n: int)
    requires Sound(s0, free0, own0) && IsRoot(own0, x) && Space(s0.mem, x, n, true, true)
    requires own1 == own0[tf := Held] && tf !in own0 && Unchanged(s0, s1, own0) && SameLookups(s0.mem, s1.mem, own0)
    requires Unchanged(s1, s2, own1) && forall u :: 0 <= u < NVPN ==> Lookup(s2.mem, x, u) == Lookup(s1.mem, x, u)
    ensures forall u :: 0 <= u < n ==> ImageOf(s2.mem, x, u) == ImageOf(s0.mem, x, u)
  {
    hide Lookup, Valid, Readable, Ppn, Flags, Heap, Tree;
    HeapPages(s0, free0, own0);
    forall u | 0 <= u < n ensures ImageOf(s2.mem, x, u) == ImageOf(s0.mem, x, u) {
      assert UserPage(own0, Ppn(Lookup(s0.mem, x, u)), x, u);
    }
  }

  lemma ShownImage(mem: Mem, r: int, u: int, img: Image)
    requires Shows(mem, Lookup(mem, r, u), img)
    ensures ImageOf(mem, r, u) == img
  {
  }

  // ---- exec, step by step

  ghost predicate UserAll(mem: Mem, r: int, v: int, n: int) {
    forall u :: v <= u < v + n ==> Valid(Lookup(mem, r, u)) && UserBit(Lookup(mem, r, u))
  }

  /** exec, started in (s0, own0), has built r with sz bytes of user memory and touched nothing else. */
  ghost predicate ExecSpace(s0: Ram, free0: seq<int>, own0: Owner, s: Ram, free: seq<int>, own: Owner, r: int,
          sz: nat) {
    && Sound(s0, free0, own0) && r !in own0
    && Sound(s, free, own) && IsRoot(own, r) && Apart(s0, own0, s, own, r) && Space(s.mem, r, PgUp(sz), true, true)
  }

  /** and every page of it is open to the user still. */
  ghost predicate Execing(s0: Ram, free0: seq<int>, own0: Owner, s: Ram, free: seq<int>, own: Owner, r: int, sz: nat) {
    ExecSpace(s0, free0, own0, s, free, own, r, sz) && UserAll(s.mem, r, 0, PgUp(sz))
  }

  lemma ExecSpaceIs(s0: Ram, free0: seq<int>, own0: Owner, s: Ram, free: seq<int>, own: Owner,
          r: int, sz: nat)
    requires ExecSpace(s0, free0, own0, s, free, own, r, sz)
    ensures Sound(s0, free0, own0) && r !in own0 && Sound(s, free, own) && IsRoot(own, r)
    ensures Apart(s0, own0, s, own, r) && Space(s.mem, r, PgUp(sz), true, true)
  {
  }

  lemma ExecReady(s0: Ram, free0: seq<int>, own0: Owner, s: Ram, free: seq<int>, own: Owner,
          r: int, sz: nat)
    requires Execing(s0, free0, own0, s, free, own, r, sz)
    ensures ExecSpace(s0, free0, own0, s, free, own, r, sz) && Sound(s, free, own) && IsRoot(own, r)
    ensures Space(s.mem, r, PgUp(sz), true, true) && UserAll(s.mem, r, 0, PgUp(sz)) && PgUp(sz) <= TRAPFRAME
  {
    hide Sound, Apart, UserAll, PgUp;
  }

  lemma ExecStart(s0: Ram, free0: seq<int>, own0: Owner, s: Ram, free: seq<int>, own: Owner, r: int)
    requires Sound(s0, free0, own0) && r !in own0 && Sound(s, free, own) && IsRoot(own, r) && Apart(s0, own0, s, own, r)
    requires Space(s.mem, r, 0, true, true)
    ensures Execing(s0, free0, own0, s, free, own, r, 0)
  {
    hide Sound, Apart, Space;
  }

  lemma ExecGrown(s0: Ram, free0: seq<int>, own0: Owner, s1: Ram, free1: seq<int>, own1: Owner,
          s: Ram, free: seq<int>, own: Owner, r: int, sz: nat, newsz: nat, sz1: nat, grown: bool)
    requires Execing(s0, free0, own0, s1, free1, own1, r, sz) && Sound(s, free, own) && IsRoot(own, r)
    requires newsz < sz ==> sz1 == sz && s == s1 && free == free1 && own == own1
    requires newsz >= sz ==> sz1 == (if grown then newsz else 0) && PgUp(newsz) >= PgUp(sz)
    requires newsz >= sz && grown ==>
      Added(s1, own1, s, own, r, PgUp(sz), Zeros(PgUp(newsz) - PgUp(sz))) && Space(s.mem, r, PgUp(newsz), true, true)
    requires newsz >= sz && !grown ==> Grown(s1, own1, s, own, r)
    ensures sz1 == 0 ==> Execing(s0, free0, own0, s, free, own, r, sz)
    ensures sz1 != 0 ==>
              Execing(s0, free0, own0, s, free, own, r, sz1) && newsz <= sz1 && (newsz >= sz ==> sz1 == newsz)
  {
    hide Sound, Apart, Space, Added, Grown, UserAll, PgUp, Zeros;
    SpaceSize(s1.mem, r, PgUp(sz), true, true);
    if newsz >= sz && grown {
      AddedApart(s1, own1, s, own, r, PgUp(sz), Zeros(PgUp(newsz) - PgUp(sz)));
      ApartTwice(s0, own0, s1, own1, s, own, r);
      SpaceSize(s.mem, r, PgUp(newsz), true, true);
      ZerosForUser(s1, own1, s, own, r, PgUp(sz), PgUp(newsz));
    } else if newsz >= sz {
      GrownApart(s1, own1, s, own, r);
      ApartTwice(s0, own0, s1, own1, s, own, r);
      GrownForUser(s1, own1, s, own, r, PgUp(sz));
      GrownSpace(s1, own1, s, own, r, PgUp(sz), true, true);
    }
  }

  lemma ZerosForUser(s1: Ram, own1: Owner, s: Ram, own: Owner, r: int, n: nat, k: nat)
    requires n <= k <= TRAPFRAME && IsRoot(own1, r) && Added(s1, own1, s, own, r, n, Zeros(k - n))
    requires UserAll(s1.mem, r, 0, n)
    ensures UserAll(s.mem, r, 0, k)
  {
    hide Lookup, Valid, Flags, Ppn, UserBit, SameData;
    forall u | 0 <= u < k ensures Valid(Lookup(s.mem, r, u)) && UserBit(Lookup(s.mem, r, u)) {
      if u >= n {
        assert Shows(s.mem, Lookup(s.mem, r, u), Zeros(k - n)[u - n]);
        RwxIsUser(Lookup(s.mem, r, u));
      } else {
        assert Lookup(s.mem, r, u) == Lookup(s1.mem, r, u);
      }
    }
  }

  lemma RwxIsUser(w: nat)
    requires Flags(w) == OrValid(USER_RWX)
    ensures UserBit(w)
  {
    hide UserBit, Flags, Mk, Ppn;
    WordParts(w);
    MkParts(Ppn(w), Flags(w));
    RwxBit();
  }

  lemma RwxBit()
    ensures UserBit(OrValid(USER_RWX)) && OrValid(USER_RWX) < 1024
  {
  }

  lemma GrownForUser(s1: Ram, own1: Owner, s: Ram, own: Owner, r: int, n: int)
    requires Grown(s1, own1, s, own, r) && IsRoot(own1, r) && UserAll(s1.mem, r, 0, n) && n <= TRAPFRAME
    ensures UserAll(s.mem, r, 0, n)
  {
    hide Lookup, Valid, UserBit, SameData;
  }

  lemma LoadFits(va: nat, memsz: nat, filesz: nat, n: nat, sz: nat)
    requires va % 4096 == 0 && n == AsUint(filesz) && filesz <= memsz && va + memsz <= sz
    ensures va / 4096 + PgUp(n) <= PgUp(sz)
  {
    assert n <= filesz;
    assert PgUp(va + n) == va / 4096 + PgUp(n);
  }

  lemma LoadRange(mem: Mem, r: int, v: int, n: int, top: int)
    requires UserAll(mem, r, 0, top) && 0 <= v && 0 <= n && v + n <= top
    ensures UserAll(mem, r, v, n)
  {
  }

  lemma ExecLoaded(s0: Ram, free0: seq<int>, own0: Owner, s1: Ram, free1: seq<int>, own: Owner,
          s: Ram, free: seq<int>, r: int, sz: nat)
    requires Execing(s0, free0, own0, s1, free1, own, r, sz) && Sound(s, free, own)
    requires SameLookups(s1.mem, s.mem, own) && Apart(s1, own, s, own, r)
    ensures Execing(s0, free0, own0, s, free, own, r, sz)
  {
    hide Sound, Lookup, Valid, UserBit, PgUp;
  }

  lemma LoadAddress(va: nat, sz: nat, k: nat)
    requires va % 4096 == 0 && k * 4096 < sz && va / 4096 + PgUp(sz) <= TRAPFRAME
    ensures (va + k * 4096) / 4096 == va / 4096 + k && va + k * 4096 < MAXVPN * 4096 && k < PgUp(sz)
  {
    PgUpNext(k, sz);
  }

  lemma LoadReady(s0: Ram, s: Ram, free: seq<int>, own: Owner, r: int, v: int)
    requires Sound(s, free, own) && IsRoot(own, r) && SameLookups(s0.mem, s.mem, own)
    requires 0 <= v < TRAPFRAME && Valid(Lookup(s0.mem, r, v)) && UserBit(Lookup(s0.mem, r, v))
    ensures
      var m := Mapping(s.mem, r);
      v in m && UserBit(m[v]) && Ppn(m[v]) != 0 && UserPage(own, Ppn(m[v]), r, v)
  {
    hide Lookup, Valid, Readable, UserBit, Ppn, Heap, Tree;
    assert Valid(Lookup(s.mem, r, v));
    NoPageZero(s.mem, own);
  }

  lemma UserOne(mem: Mem, r: int, v: int, n: int, k: int)
    requires UserAll(mem, r, v, n) && 0 <= k < n
    ensures Valid(Lookup(mem, r, v + k)) && UserBit(Lookup(mem, r, v + k))
  {
  }

  lemma FillingStart(mem: Mem, r: int, v: int, data: int -> Page)
    ensures Filling(mem, mem, r, v, 0, data)
  {
    hide Lookup, Valid, ImageOf;
  }

  lemma PgUpEnd(k: nat, sz: nat)
    requires k * 4096 >= sz && (k == 0 || k <= PgUp(sz))
    ensures k == PgUp(sz)
  {
  }

  /** The next page: no other page of r is kept in the same physical page. */
  lemma FillingNext(s0: Ram, s: Ram, free: seq<int>, own: Owner, r: int, v: int, k: nat, pa: nat,
          data: int -> Page)
    requires Sound(s, free, own) && SameLookups(s0.mem, s.mem, own) && Filling(s0.mem, s.mem, r, v, k, data)
    requires 0 <= v && v + k < TRAPFRAME && UserPage(own, pa, r, v + k) && IsRoot(own, r) && |data(k)| == ENTRIES
    ensures Filling(s0.mem, s.mem[pa := data(k)], r, v, k + 1, data)
  {
    hide Lookup, Valid, Heap, Tree, Ppn, Flags;
    FillSound(s, free, own, pa, data(k));
    var mem := s.mem[pa := data(k)];
    VpnOrder();
    forall u | 0 <= u < TRAPFRAME && Valid(Lookup(s0.mem, r, u))
      ensures PageAt(mem, r, u) == if v <= u < v + k + 1 then data(u - v) else PageAt(s0.mem, r, u)
    {
      assert Lookup(mem, r, u) == Lookup(s.mem, r, u) == Lookup(s0.mem, r, u);
      assert UserPage(own, Ppn(Lookup(s.mem, r, u)), r, u);
    }
  }

  // ---- what the pages hold

  lemma ExpectedFront(segs: seq<Segment>, seg: Segment, u: int)
    ensures Expected(segs + [seg], u) == if Brings(seg, u) then seg.data(u - seg.vaddr / 4096) else Expected(segs, u)
  {
    assert (segs + [seg])[..|segs|] == segs;
  }

  lemma LoadedSkipped(mem: Mem, r: int, n: int, segs: seq<Segment>, seg: Segment)
    requires Loaded(mem, r, n, segs) && !seg.load
    ensures Loaded(mem, r, n, segs + [seg])
  {
    hide Expected, PageAt;
    forall u ensures Expected(segs + [seg], u) == Expected(segs, u) {
      ExpectedFront(segs, seg, u);
    }
  }

  /** User pages and where they are mapped are the same, so their contents are. */
  lemma LoadedKept(s1: Ram, free1: seq<int>, own1: Owner, s: Ram, own: Owner, r: int, n: int,
          segs: seq<Segment>)
    requires Sound(s1, free1, own1) && IsRoot(own1, r) && Mapped(s1.mem, r, 0, n) && n <= TRAPFRAME
    requires forall u :: 0 <= u < n ==> Ppn(Lookup(s.mem, r, u)) == Ppn(Lookup(s1.mem, r, u))
    requires forall p :: p in own1 && own1[p].User? && own1[p].root == r && p in s1.mem ==>
               p in s.mem && s.mem[p] == s1.mem[p]
    requires Loaded(s1.mem, r, n, segs)
    ensures Loaded(s.mem, r, n, segs)
  {
    hide Expected, Lookup, Valid, Tree, Ppn, Flags, Heap;
    HeapPages(s1, free1, own1);
    VpnOrder();
    forall u | 0 <= u < n ensures PageAt(s.mem, r, u) == Expected(segs, u) {
      assert Valid(Lookup(s1.mem, r, u));
      assert UserPage(own1, Ppn(Lookup(s1.mem, r, u)), r, u);
    }
  }

  /** uvmalloc adds zeroed pages, which is what is expected above the old size. */
  lemma LoadedGrown(s1: Ram, free1: seq<int>, own1: Owner, s: Ram, own: Owner, r: int, n: nat,
          k: nat, segs: seq<Segment>)
    requires Sound(s1, free1, own1) && IsRoot(own1, r) && Mapped(s1.mem, r, 0, n) && n <= k <= TRAPFRAME
    requires Added(s1, own1, s, own, r, n, Zeros(k - n)) && Loaded(s1.mem, r, n, segs)
    ensures Loaded(s.mem, r, k, segs)
  {
    hide Expected, Lookup, Valid, Sound, Ppn, Flags, PageAt, SameData;
    VpnOrder();
    assert forall u :: 0 <= u < n ==> Lookup(s.mem, r, u) == Lookup(s1.mem, r, u);
    AddedData(s1, own1, s, own, r, n, Zeros(k - n));
    LoadedKept(s1, free1, own1, s, own, r, n, segs);
    forall u | n <= u < k ensures PageAt(s.mem, r, u) == Expected(segs, u) {
      assert Shows(s.mem, Lookup(s.mem, r, u), Zeros(k - n)[u - n]);
      ShownImage(s.mem, r, u, ZeroImage());
      PageOfImage(s.mem, r, u);
    }
  }

  lemma PageOfImage(mem: Mem, r: int, u: int)
    ensures PageAt(mem, r, u) == ImageOf(mem, r, u).page
  {
  }

  lemma AddedData(s: Ram, own: Owner, s': Ram, own': Owner, r: int, v: int, imgs: seq<Image>)
    requires Added(s, own, s', own', r, v, imgs)
    ensures forall p :: p in own && own[p].User? && own[p].root == r && p in s.mem ==>
              p in s'.mem && s'.mem[p] == s.mem[p]
  {
    hide Lookup, Shows;
  }

  lemma LoadedNone(mem: Mem, r: int)
    ensures Loaded(mem, r, PgUp(0), [])
  {
  }

  lemma SpaceMapped(mem: Mem, r: int, n: int, tf: bool, tr: bool)
    requires Space(mem, r, n, tf, tr)
    ensures Mapped(mem, r, 0, n) && 0 <= n <= TRAPFRAME
  {
    hide Lookup, Valid;
    VpnOrder();
  }

  lemma LoadedAfter(s0: Ram, free0: seq<int>, own0: Owner, s1: Ram, free1: seq<int>, own1: Owner,
          s: Ram, own: Owner, r: int, sz: nat, newsz: nat, sz1: nat, grown: bool, segs: seq<Segment>)
    requires Execing(s0, free0, own0, s1, free1, own1, r, sz) && Loaded(s1.mem, r, PgUp(sz), segs) && sz1 != 0
    requires newsz < sz ==> sz1 == sz && s == s1
    requires newsz >= sz ==> sz1 == (if grown then newsz else 0) && PgUp(newsz) >= PgUp(sz)
    requires newsz >= sz && grown ==>
      Added(s1, own1, s, own, r, PgUp(sz), Zeros(PgUp(newsz) - PgUp(sz))) && Space(s.mem, r, PgUp(newsz), true, true)
    ensures Loaded(s.mem, r, PgUp(sz1), segs)
  {
    hide Sound, Apart, Added, UserAll, PgUp, Zeros, Loaded, Space;
    if newsz >= sz {
      SpaceMapped(s1.mem, r, PgUp(sz), true, true);
      SpaceMapped(s.mem, r, PgUp(newsz), true, true);
      LoadedGrown(s1, free1, own1, s, own, r, PgUp(sz), PgUp(newsz), segs);
    }
  }

  lemma LoadedGuarded(s0: Ram, free0: seq<int>, own0: Owner, s1: Ram, free1: seq<int>, own: Owner,
          s: Ram, r: int, sz: nat, segs: seq<Segment>)
    requires Execing(s0, free0, own0, s1, free1, own, r, sz) && Loaded(s1.mem, r, PgUp(sz), segs) && PgUp(sz) >= 2
    requires SameData(s1, own, s, own, r)
    requires
      var v := PgUp(sz) - 2;
      OneLookup(s1.mem, s.mem, own, r, v, Lookup(s.mem, r, v)) && Ppn(Lookup(s.mem, r, v)) == Ppn(Lookup(s1.mem, r, v))
    ensures Loaded(s.mem, r, PgUp(sz), segs)
  {
    hide Sound, Apart, UserAll, PgUp, Loaded, Space, Lookup, Ppn;
    SpaceMapped(s1.mem, r, PgUp(sz), true, true);
    VpnOrder();
    LoadedKept(s1, free1, own, s, own, r, PgUp(sz), segs);
  }

  /** Freeing the old address space leaves the pages of the new one as they are. */
  lemma PagesKept(s0: Ram, free0: seq<int>, own0: Owner, s1: Ram, free1: seq<int>, own1: Owner,
          s: Ram, own: Owner, r: int, sz: nat, r0: int)
    requires ExecSpace(s0, free0, own0, s1, free1, own1, r, sz) && r0 != r
    requires Apart(s1, own1, s, own, r0) && forall u :: 0 <= u < NVPN ==> Lookup(s.mem, r, u) == Lookup(s1.mem, r, u)
    ensures forall u :: 0 <= u < PgUp(sz) ==> PageAt(s.mem, r, u) == PageAt(s1.mem, r, u)
  {
    hide PgUp, Space, Lookup, Ppn, Valid, Tree, Flags, Heap;
    SpaceMapped(s1.mem, r, PgUp(sz), true, true);
    HeapPages(s1, free1, own1);
    VpnOrder();
    forall u | 0 <= u < PgUp(sz) ensures PageAt(s.mem, r, u) == PageAt(s1.mem, r, u) {
      assert Valid(Lookup(s1.mem, r, u));
      assert UserPage(own1, Ppn(Lookup(s1.mem, r, u)), r, u);
      assert Ppn(Lookup(s1.mem, r, u)) in Without(own1, r0);
    }
  }

  lemma LoadedDone(mem0: Mem, mem: Mem, mem': Mem, r: int, sz: nat, segs: seq<Segment>)
    requires Loaded(mem0, r, PgUp(sz), segs) && Mapped(mem0, r, 0, PgUp(sz)) && PgUp(sz) <= TRAPFRAME
    requires OtherPages(mem0, mem, r, PgUp(sz) - 1)
    requires forall u :: 0 <= u < PgUp(sz) ==> PageAt(mem', r, u) == PageAt(mem, r, u)
    ensures forall u :: 0 <= u < PgUp(sz) - 1 ==> PageAt(mem', r, u) == Expected(segs, u)
  {
    hide PgUp, Lookup, Expected, PageAt, Valid;
  }

  lemma ArgumentsDone(mem: Mem, mem': Mem, r: int, sz: nat, sp: nat, args: seq<seq<nat>>, at: seq<nat>)
    requires sp == StackTop(sz, Lens(args)) && Stacked(sz, Lens(args), at, |args|) && sz % 4096 == 0 && sz >= 4096
    requires StringsAt(mem, r, at, args, |args|) && PointersAt(mem, r, sp, at) && sz - 4096 <= sp
    requires forall i :: 0 <= i < |at| ==> sp + 8 * (|args| + 1) <= at[i]
    requires sp + 8 * (|args| + 1) <= sz
    requires forall u :: 0 <= u < PgUp(sz) ==> PageAt(mem', r, u) == PageAt(mem, r, u)
    ensures Arguments(mem', r, sz, sp, args)
  {
    hide StackTop, ByteAt, WordAt;
    forall a: nat | sz - 4096 <= a < sz
      ensures ByteAt(mem', r, a) == ByteAt(mem, r, a) && WordAt(mem', r, a) == WordAt(mem, r, a)
    {
      SamePage(mem, mem', r, sz, a);
    }
    forall i | 0 <= i < |args| ensures StringAt(mem', r, at[i], args[i]) {
      assert StringAt(mem, r, at[i], args[i]);
      assert Lens(args)[i] == |args[i]|;
    }
    assert PointersAt(mem', r, sp, at);
  }

  lemma SamePage(mem: Mem, mem': Mem, r: int, sz: nat, a: nat)
    requires forall u :: 0 <= u < PgUp(sz) ==> PageAt(mem', r, u) == PageAt(mem, r, u)
    requires a < sz
    ensures ByteAt(mem', r, a) == ByteAt(mem, r, a) && WordAt(mem', r, a) == WordAt(mem, r, a)
  {
    hide PageAt, ByteOf;
    assert 0 <= a / 4096 < PgUp(sz);
  }

  /** loadseg: the segment's pages hold its data, the others what they held. */
  lemma LoadedMore(mem0: Mem, mem: Mem, r: int, n: int, segs: seq<Segment>, seg: Segment)
    requires Loaded(mem0, r, n, segs) && seg.load && Mapped(mem0, r, 0, n) && n <= TRAPFRAME
    requires Filling(mem0, mem, r, seg.vaddr / 4096, PgUp(AsUint(seg.filesz)), seg.data)
    requires seg.vaddr / 4096 + PgUp(AsUint(seg.filesz)) <= n
    ensures Loaded(mem, r, n, segs + [seg])
  {
    hide Expected, PageAt, Lookup, Valid, PgUp, AsUint;
    forall u
      ensures Expected(segs + [seg], u) == if Brings(seg, u) then seg.data(u - seg.vaddr / 4096) else Expected(segs, u)
    {
      ExpectedFront(segs, seg, u);
    }
    forall u | 0 <= u < n ensures PageAt(mem, r, u) == Expected(segs + [seg], u) {
      assert Valid(Lookup(mem0, r, u));
    }
  }

  lemma RoundUp(s0: Ram, free0: seq<int>, own0: Owner, s: Ram, free: seq<int>, own: Owner, r: int,
          sz: nat)
    requires Execing(s0, free0, own0, s, free, own, r, sz)
    ensures Execing(s0, free0, own0, s, free, own, r, PgUp(sz) * 4096) && PgUp(PgUp(sz) * 4096) == PgUp(sz)
  {
    hide Sound, Apart, Space, UserAll;
    PgUpAligned(PgUp(sz));
  }

  lemma StackPages(sz: nat)
    ensures PgUp(sz + 2 * 4096) == PgUp(sz) + 2
  {
  }

  lemma GuardReady(s0: Ram, free0: seq<int>, own0: Owner, s: Ram, free: seq<int>, own: Owner,
          r: int, sz: nat)
    requires Execing(s0, free0, own0, s, free, own, r, sz) && PgUp(sz) >= 2
    ensures Sound(s, free, own) && IsRoot(own, r) && 0 <= PgUp(sz) - 2 < TRAPFRAME
    ensures Valid(Lookup(s.mem, r, PgUp(sz) - 2))
  {
    hide Sound, Apart, Lookup, Valid, UserBit, PgUp;
  }

  lemma GuardDone(s0: Ram, free0: seq<int>, own0: Owner, s1: Ram, free1: seq<int>, own: Owner,
          s: Ram, free: seq<int>, r: int, sz: nat)
    requires Execing(s0, free0, own0, s1, free1, own, r, sz) && PgUp(sz) >= 2 && Sound(s, free, own)
    requires Apart(s1, own, s, own, r)
    requires
      var v := PgUp(sz) - 2;
      OneLookup(s1.mem, s.mem, own, r, v, Lookup(s.mem, r, v)) && Valid(Lookup(s.mem, r, v))
    ensures ExecSpace(s0, free0, own0, s, free, own, r, sz)
  {
    hide Sound, Lookup, Valid, UserBit, PgUp, Apart;
    ApartTwice(s0, own0, s1, own, s, own, r);
  }

  lemma StackReady(s0: Ram, free0: seq<int>, own0: Owner, s1: Ram, free1: seq<int>, s: Ram, free: seq<int>, own: Owner,
          r: int, sz: nat)
    requires Execing(s0, free0, own0, s1, free1, own, r, sz) && ExecSpace(s0, free0, own0, s, free, own, r, sz)
    requires sz % 4096 == 0 && PgUp(sz) >= 2
    requires OneLookup(s1.mem, s.mem, own, r, PgUp(sz) - 2, Lookup(s.mem, r, PgUp(sz) - 2))
    ensures StackPage(s.mem, r, sz - 4096, sz) && Sound(s, free, own) && IsRoot(own, r)
    ensures Mapped(s.mem, r, 0, PgUp(sz)) && PgUp(sz) <= TRAPFRAME && (sz - 4096) / 4096 == PgUp(sz) - 1
  {
    hide Sound, Apart, Lookup, Valid, UserBit, Space;
    SpaceMapped(s.mem, r, PgUp(sz), true, true);
    VpnOrder();
    assert PgUp(sz) * 4096 == sz;
  }

  lemma PushKeeps(s0: Ram, free0: seq<int>, own0: Owner, s1: Ram, s: Ram, free: seq<int>, own: Owner, r: int, sz: nat)
    requires ExecSpace(s0, free0, own0, s1, free, own, r, sz) && sz >= 4096
    requires Sound(s, free, own) && OnlyStack(s1, s, own, r, sz - 4096)
    ensures ExecSpace(s0, free0, own0, s, free, own, r, sz) && OtherPages(s1.mem, s.mem, r, (sz - 4096) / 4096)
    ensures forall u :: 0 <= u < NVPN ==> Lookup(s.mem, r, u) == Lookup(s1.mem, r, u)
  {
    hide Sound, Lookup, Valid, PgUp, Apart, OtherPages;
    ApartTwice(s0, own0, s1, own, s, own, r);
  }

  lemma OldSpace(s0: Ram, free0: seq<int>, own0: Owner, s: Ram, free: seq<int>, own: Owner, r: int,
          sz: nat, r0: int, n: int)
    requires ExecSpace(s0, free0, own0, s, free, own, r, sz) && IsRoot(own0, r0) && Space(s0.mem, r0, n, true, true)
    ensures IsRoot(own, r0) && r0 != r && Space(s.mem, r0, n, true, true) && Sound(s, free, own)
  {
    hide Heap, Tree, Leaves, Lookup, Valid;
    HeapPages(s, free, own);
    ApartLookups(s0, free0, own0, s, own, r, r0);
  }

  /** After the old address space is freed, the new one and everything else are as before that. */
  lemma ExecDone(s0: Ram, free0: seq<int>, own0: Owner, s1: Ram, free1: seq<int>, own1: Owner,
          s: Ram, free: seq<int>, own: Owner, r: int, sz: nat, r0: int)
    requires ExecSpace(s0, free0, own0, s1, free1, own1, r, sz) && IsRoot(own0, r0) && IsRoot(own1, r0) && r0 != r
    requires Sound(s, free, own) && own == Without(own1, r0) && Apart(s1, own1, s, own, r0)
    ensures IsRoot(own, r) && !IsRoot(own, r0) && Space(s.mem, r, PgUp(sz), true, true)
    ensures forall u :: 0 <= u < NVPN ==> Lookup(s.mem, r, u) == Lookup(s1.mem, r, u)
    ensures Without(own, r) == Without(own0, r0) && Unchanged(s0, s, Without(own0, r0))
  {
    hide Heap, Tree, Leaves, Lookup, Valid;
    HeapPages(s, free, own);
    ApartLookups(s1, free1, own1, s, own, r0, r);
    NoneOf(s0, free0, own0, r);
    BothWithout(own1, r, r0);
    DoneContents(s0, own0, s1, own1, s, own, r, r0);
  }

  lemma BothWithout(own: Owner, r: int, r0: int)
    ensures Without(Without(own, r0), r) == Without(Without(own, r), r0)
  {
    var a, b := Without(Without(own, r0), r), Without(Without(own, r), r0);
    assert forall p :: p in a <==> p in b;
    assert a == b;
  }

  lemma DoneContents(s0: Ram, own0: Owner, s1: Ram, own1: Owner, s: Ram, own: Owner, r: int, r0: int)
    requires Apart(s0, own0, s1, own1, r) && Apart(s1, own1, s, own, r0) && Without(own0, r) == own0
    ensures Unchanged(s0, s, Without(own0, r0))
  {
    forall p | p in Without(own0, r0) && p in s0.mem ensures p in s.mem && s.mem[p] == s0.mem[p] {
      assert p in Without(own0, r);
      assert p in Without(own1, r);
      assert p in Without(own1, r0);
    }
  }
}
