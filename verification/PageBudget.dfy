/**
 How many pages an address space takes (kernel/vm.c, kernel/kalloc.c): one for each page of
 user memory and one for each table page on the way to it. Since every allocatable page is
 free or in use, this says exactly when an allocation can be met.
 */
module PageBudget {
  import opened PageTable
  import opened PhysPages
  import opened AddressSpace
  import opened UserSpace
  import opened VmSteps

  /** The table pages of r, by path, and its user pages, by page number. */
  function Tables(own: Owner, r: int): set<Path> {
    set p | p in own && own[p].Table? && own[p].root == r :: own[p].path
  }

  function Users(own: Owner, r: int): set<int> {
    set p | p in own && own[p].User? && own[p].root == r :: own[p].vpn
  }

  /** The table pages below the root that a walk to n pages from v on passes. */
  function PathsOf(v: int, n: int): set<Path> {
    (set u | v <= u < v + n :: Mid(Px2(u))) + (set u | v <= u < v + n :: LowOf(u))
  }

  /** The pages that mapping n fresh ones from v on takes: these and the tables that are missing. */
  function Need(own: Owner, r: int, v: int, n: nat): nat {
    n + |PathsOf(v, n) - Tables(own, r)|
  }

  lemma TableOf(own: Owner, r: int, path: Path) returns (p: int)
    requires path in Tables(own, r)
    ensures TableAt(own, p, r, path)
  {
    p :| p in own && own[p] == Table(r, path);
  }

  lemma UserOf(own: Owner, r: int, v: int) returns (p: int)
    requires v in Users(own, r)
    ensures UserPage(own, p, r, v)
  {
    p :| p in own && own[p] == User(r, v);
  }

  lemma InTables(own: Owner, p: int, r: int, path: Path)
    requires TableAt(own, p, r, path)
    ensures path in Tables(own, r)
  {
  }

  lemma InUsers(own: Owner, p: int, r: int, v: int)
    requires UserPage(own, p, r, v)
    ensures v in Users(own, r)
  {
  }

  /** Tables kept stay tables. */
  lemma TablesKept(own: Owner, own': Owner, r: int)
    requires forall p :: p in own && own[p].Table? ==> p in own' && own'[p] == own[p]
    ensures Tables(own, r) <= Tables(own', r)
  {
    hide Tables;
    forall path | path in Tables(own, r) ensures path in Tables(own', r) {
      var p := TableOf(own, r, path);
      InTables(own', p, r, path);
    }
  }

  lemma UsersKept(own: Owner, own': Owner, r: int)
    requires forall p :: p in own && own[p].User? ==> p in own' && own'[p] == own[p]
    ensures Users(own, r) <= Users(own', r)
  {
    hide Users;
    forall v | v in Users(own, r) ensures v in Users(own', r) {
      var p := UserOf(own, r, v);
      InUsers(own', p, r, v);
    }
  }

  // ---- counting

  lemma {:induction false} SameSize(free: seq<int>, ps: set<int>)
    requires Distinct(free) && forall p :: p in ps <==> p in free
    ensures |ps| == |free|
    decreases |free|
  {
    if |free| == 0 {
      assert forall p: int :: p !in ps;
      assert ps == {};
    } else {
      var rest := free[1..];
      assert forall p :: p in ps - {free[0]} <==> p in rest;
      SameSize(rest, ps - {free[0]});
    }
  }

  /** Pages are free or in use, and stay that many. */
  lemma SameTotal(s: Ram, free: seq<int>, own: Owner, s': Ram, free': seq<int>, own': Owner)
    requires Heap(s, free, own) && Heap(s', free', own') && s'.first == s.first
    ensures |free| + |own| == |free'| + |own'|
  {
    TotalIs(s, free, own);
    TotalIs(s', free', own');
  }

  lemma TotalIs(s: Ram, free: seq<int>, own: Owner)
    requires Heap(s, free, own)
    ensures |free| + |own| == STOP - s.first
  {
    hide Chain;
    var ps := set p | p in free;
    SameSize(free, ps);
    assert |own| == |own.Keys|;
    InRange(ps, own.Keys, s.first, STOP);
  }

  /** Two sets that share out a range. */
  lemma {:induction false} InRange(a: set<int>, b: set<int>, lo: int, hi: int)
    requires lo <= hi && forall p :: lo <= p < hi <==> p in a || p in b
    requires forall p :: p in a ==> p !in b
    ensures |a| + |b| == hi - lo
    decreases hi - lo
  {
    if lo == hi {
      assert forall p: int :: p !in a && p !in b;
      assert a == {} && b == {lo} - {lo};
    } else {
      var p := hi - 1;
      InRange(a - {p}, b - {p}, lo, p);
    }
  }

  lemma {:induction false} TablesSize(own: Owner, r: int, ps: set<int>, paths: set<Path>)
    requires forall p :: p in ps ==> p in own && own[p].Table? && own[p].root == r
    requires forall p, q, path :: TableAt(own, p, r, path) && TableAt(own, q, r, path) ==> p == q
    requires paths == set p | p in ps :: own[p].path
    ensures |paths| == |ps|
    decreases |ps|
  {
    if p :| p in ps {
      assert forall q :: q in ps && q != p ==> TableAt(own, q, r, own[q].path);
      assert TableAt(own, p, r, own[p].path);
      assert paths - {own[p].path} == set q | q in ps - {p} :: own[q].path;
      TablesSize(own, r, ps - {p}, paths - {own[p].path});
    } else {
      assert forall p: int :: p !in ps;
      assert ps == {};
    }
  }

  lemma {:induction false} UsersSize(own: Owner, r: int, ps: set<int>, vpns: set<int>)
    requires forall p :: p in ps ==> p in own && own[p].User? && own[p].root == r
    requires forall p, q, v :: UserPage(own, p, r, v) && UserPage(own, q, r, v) ==> p == q
    requires vpns == set p | p in ps :: own[p].vpn
    ensures |vpns| == |ps|
    decreases |ps|
  {
    if p :| p in ps {
      assert forall q :: q in ps && q != p ==> UserPage(own, q, r, own[q].vpn);
      assert UserPage(own, p, r, own[p].vpn);
      assert vpns - {own[p].vpn} == set q | q in ps - {p} :: own[q].vpn;
      UsersSize(own, r, ps - {p}, vpns - {own[p].vpn});
    } else {
      assert forall p: int :: p !in ps && p !in vpns;
      assert ps == {} && vpns == {};
    }
  }

  /** The pages of r are its tables and its user pages, one each. */
  lemma OwnCount(s: Ram, free: seq<int>, own: Owner, r: int)
    requires Sound(s, free, own)
    ensures |own| == |Without(own, r)| + |Tables(own, r)| + |Users(own, r)|
  {
    hide Heap, Tree, Leaves;
    var ts := set p | p in own && own[p].Table? && own[p].root == r;
    var us := set p | p in own && own[p].User? && own[p].root == r;
    TablesDiffer(s.mem, own, r);
    TablesSize(own, r, ts, Tables(own, r));
    UsersDiffer(s.mem, own, r);
    UsersSize(own, r, us, Users(own, r));
    var rest := Without(own, r);
    assert |own| == |own.Keys| && |rest| == |rest.Keys|;
    PagesInRange(s, free, own);
    ThreeParts(own.Keys, rest.Keys, ts, us, s.first, STOP);
  }

  lemma PagesInRange(s: Ram, free: seq<int>, own: Owner)
    requires Sound(s, free, own)
    ensures s.first <= STOP && forall p :: p in own ==> s.first <= p < STOP
  {
    hide Tree, Leaves, Chain;
  }

  lemma {:induction false} ThreeParts(ks: set<int>, a: set<int>, b: set<int>, c: set<int>, lo: int, hi: int)
    requires lo <= hi && forall p :: p in ks ==> lo <= p < hi
    requires forall p :: p in ks <==> p in a || p in b || p in c
    requires forall p :: !(p in a && p in b) && !(p in a && p in c) && !(p in b && p in c)
    ensures |ks| == |a| + |b| + |c|
    decreases hi - lo
  {
    if lo == hi {
      assert forall p: int :: p !in ks && p !in a && p !in b && p !in c;
      assert ks == {} && a == {} && b == {} && c == {lo} - {lo};
    } else {
      var p := hi - 1;
      ThreeParts(ks - {p}, a - {p}, b - {p}, c - {p}, lo, p);
    }
  }

  lemma TablesDiffer(mem: Mem, own: Owner, r: int)
    requires Tree(mem, own)
    ensures forall p, q, path :: TableAt(own, p, r, path) && TableAt(own, q, r, path) ==> p == q
  {
    hide At;
  }

  lemma UsersDiffer(mem: Mem, own: Owner, r: int)
    requires Leaves(mem, own)
    ensures forall p, q, v :: UserPage(own, p, r, v) && UserPage(own, q, r, v) ==> p == q
  {
    hide Lookup, Valid, Ppn;
  }

  /** What r takes more is free less. */
  lemma Spent(s: Ram, free: seq<int>, own: Owner, s': Ram, free': seq<int>, own': Owner, r: int)
    requires Sound(s, free, own) && Sound(s', free', own') && s'.first == s.first
    ensures |free| + |Without(own, r)| + |Tables(own, r)| + |Users(own, r)|
            == |free'| + |Without(own', r)| + |Tables(own', r)| + |Users(own', r)|
  {
    hide Heap, Tree, Leaves;
    OwnCount(s, free, own, r);
    OwnCount(s', free', own', r);
    assert Heap(s, free, own) && Heap(s', free', own');
    SameTotal(s, free, own, s', free', own');
  }

  lemma HeadIsFree(s: Ram, free: seq<int>, own: Owner)
    requires Sound(s, free, own)
    ensures s.head == 0 <==> free == []
  {
    hide Tree, Leaves;
  }

  // ---- tables

  /** A mapped page has its tables. */
  lemma MappedTables(s: Ram, free: seq<int>, own: Owner, r: int, v: int)
    requires Sound(s, free, own) && IsRoot(own, r) && 0 <= v < NVPN && At(s.mem, r, LowOf(v)) != 0
    ensures PathsOf(v, 1) <= Tables(own, r)
  {
    hide Heap, Leaves, Px0, Px1, Px2;
    PartsJoin(v);
    var mid, low := Mid(Px2(v)), LowOf(v);
    assert Proper(mid) && Proper(low);
    assert At(s.mem, r, mid) != 0;
    assert TableAt(own, At(s.mem, r, mid), r, mid) && TableAt(own, At(s.mem, r, low), r, low);
    assert mid in Tables(own, r) && low in Tables(own, r);
    PathsOne(v);
  }

  lemma PathsOne(v: int)
    ensures PathsOf(v, 1) == {Mid(Px2(v)), LowOf(v)}
  {
    hide Px0, Px1, Px2;
  }

  lemma ValidHasTable(mem: Mem, own: Owner, r: int, v: int)
    requires Tree(mem, own) && Valid(Lookup(mem, r, v))
    ensures At(mem, r, LowOf(v)) != 0
  {
    hide At, Px0, Px1, Px2;
  }

  lemma MissingTable(mem: Mem, own: Owner, r: int, path: Path)
    requires Tree(mem, own) && At(mem, r, path) == 0
    ensures path !in Tables(own, r)
  {
    hide At;
  }

  lemma DescendTables(own: Owner, next: int, r: int, path: Path)
    requires next !in own
    ensures Tables(own[next := Table(r, path)], r) <= Tables(own, r) + {path}
  {
  }

  lemma ChildPath(v: int, level: int)
    requires 1 <= level <= 2
    ensures Child(PathAt(v, level), PxAt(v, level)) in PathsOf(v, 1)
  {
    hide Px0, Px1, Px2;
    PathsOne(v);
  }

  lemma ClaimedTables(own: Owner, own0: Owner, r: int, v: int, p: int)
    requires Mappable(own0, v, p) && forall x :: x in own0 ==> x in own && own[x] == own0[x]
    ensures Tables(Claimed(own, r, v, p), r) <= Tables(own, r)
  {
  }

  lemma PathsWithin(v: int, n: int, u: int)
    requires v <= u < v + n
    ensures PathsOf(u, 1) <= PathsOf(v, n)
  {
    hide Px0, Px1, Px2;
    PathsOne(u);
    assert Mid(Px2(u)) in PathsOf(v, n) && LowOf(u) in PathsOf(v, n);
  }

  lemma PathsNext(v: int, n: nat)
    ensures PathsOf(v, n + 1) == PathsOf(v, n) + PathsOf(v + n, 1)
  {
    hide Px0, Px1, Px2;
    PathsOne(v + n);
  }

  lemma PathsNone(v: int)
    ensures PathsOf(v, 0) == {}
  {
  }

  // ---- one page

  lemma SetSizes(a: set<Path>, b: set<Path>)
    ensures |a + b| == |a| + |b - a|
  {
    assert a + b == a + (b - a);
  }

  lemma Smaller(a: set<Path>, b: set<Path>, x: Path)
    requires a <= b && x in b && x !in a
    ensures |a| < |b|
  {
    assert a <= b - {x};
    assert b - {x} == a + (b - {x} - a);
  }

  lemma AddedRest(s: Ram, own: Owner, s': Ram, own': Owner, r: int, v: int, imgs: seq<Image>)
    requires Added(s, own, s', own', r, v, imgs)
    ensures Without(own', r) == Without(own, r) && s'.first == s.first && Tables(own, r) <= Tables(own', r)
  {
    hide Lookup, Shows;
    SameRest(own, own', r);
    TablesKept(own, own', r);
  }

  lemma AddedUser(s: Ram, free: seq<int>, own: Owner, s': Ram, free': seq<int>, own': Owner, r: int, v: int, img: Image)
    requires Sound(s, free, own) && Sound(s', free', own') && Added(s, own, s', own', r, v, [img])
    requires IsRoot(own', r) && 0 <= v < TRAPFRAME && !Valid(Lookup(s.mem, r, v)) && Valid(Lookup(s'.mem, r, v))
    ensures v !in Users(own, r) && Users(own', r) == Users(own, r) + {v}
  {
    hide Heap, Tree, Lookup, Valid, Ppn, Readable, Shows, SameData, Users;
    VpnOrder();
    if v in Users(own, r) {
      var p := UserOf(own, r, v);
    }
    InUsers(own', Ppn(Lookup(s'.mem, r, v)), r, v);
    UsersKept(own, own', r);
    forall u | u in Users(own', r) ensures u in Users(own, r) + {v} {
      var p := UserOf(own', r, u);
      if p in own {
        InUsers(own, p, r, u);
      }
    }
    assert Users(own', r) == Users(own, r) + {v};
  }

  /** A page mapped costs itself and the tables that were missing. */
  lemma AddCost(s: Ram, free: seq<int>, own: Owner, s': Ram, free': seq<int>, own': Owner, r: int, v: int, img: Image)
    requires Sound(s, free, own) && Sound(s', free', own') && Added(s, own, s', own', r, v, [img])
    requires IsRoot(own', r) && 0 <= v < TRAPFRAME && !Valid(Lookup(s.mem, r, v)) && Valid(Lookup(s'.mem, r, v))
    requires Tables(own', r) <= Tables(own, r) + PathsOf(v, 1)
    ensures Tables(own', r) == Tables(own, r) + PathsOf(v, 1)
    ensures |free| == |free'| + Need(own, r, v, 1)
  {
    hide Heap, Tree, Leaves, Lookup, Valid, Added, Tables, Users, PathsOf, Without;
    VpnOrder();
    AddedRest(s, own, s', own', r, v, [img]);
    AddedUser(s, free, own, s', free', own', r, v, img);
    ValidHasTable(s'.mem, own', r, v);
    MappedTables(s', free', own', r, v);
    SetSizes(Tables(own, r), PathsOf(v, 1));
    Spent(s, free, own, s', free', own', r);
  }

  /** When a table page cannot be had, with the page itself in hand, there were too few pages. */
  lemma AddOut(s: Ram, free: seq<int>, own: Owner, s1: Ram, own1: Owner, s2: Ram, free2: seq<int>, own2: Owner,
          r: int, v: int, p: nat, page: Page, flags: nat)
    requires Sound(s, free, own) && InHand(s, own, s1, own1, r, p, page)
    requires MapRange(s1, own1, s2, own2, r, v, p, flags, 0)
    requires Sound(s2, free2, own2) && s2.head == 0 && At(s2.mem, r, LowOf(v)) == 0
    requires Tables(own2, r) <= Tables(own1, r) + PathsOf(v, 1)
    ensures |free| < Need(own, r, v, 1)
  {
    hide Heap, Tree, Leaves, At, LowOf, Tables, Users, PathsOf, Without, InHand, MapRange;
    HandRest(s, own, s1, own1, s2, own2, r, v, p, page, flags);
    HeadIsFree(s2, free2, own2);
    MissingTable(s2.mem, own2, r, LowOf(v));
    PathsOne(v);
    var t, t2, ps := Tables(own, r), Tables(own2, r), PathsOf(v, 1);
    SetSizes(t, t2);
    assert t + t2 == t2;
    Smaller(t2 - t, ps - t, LowOf(v));
    Spent(s, free, own, s2, free2, own2, r);
  }

  lemma HandRest(s: Ram, own: Owner, s1: Ram, own1: Owner, s2: Ram, own2: Owner, r: int, v: int, p: nat, page: Page,
          flags: nat)
    requires InHand(s, own, s1, own1, r, p, page) && MapRange(s1, own1, s2, own2, r, v, p, flags, 0)
    ensures |Without(own2, r)| == |Without(own, r)| + 1
    ensures s2.first == s.first && |Users(own2, r)| == |Users(own, r)|
    ensures Tables(own1, r) == Tables(own, r) && Tables(own, r) <= Tables(own2, r)
  {
    hide RangeLookups, SameLookups, Tables, Users, Without;
    TablesKept(own, own1, r);
    TablesKept(own1, own, r);
    TablesKept(own, own2, r);
    UsersKept(own, own2, r);
    UsersKept(own2, own, r);
    assert Users(own2, r) == Users(own, r);
    HeldRest(own, own1, own2, r, p);
  }

  lemma HeldRest(own: Owner, own1: Owner, own2: Owner, r: int, p: int)
    requires p !in own && own1 == own[p := Held]
    requires forall x :: x in own1 ==> x in own2 && own2[x] == own1[x]
    requires forall x :: x in own2 && x !in own1 ==> own2[x].Table? && own2[x].root == r
    ensures |Without(own2, r)| == |Without(own, r)| + 1
  {
    SameRest(own1, own2, r);
    var a, b := Without(own, r), Without(own1, r);
    assert b == a[p := Held];
    assert b.Keys == a.Keys + {p};
    assert |b| == |b.Keys| && |a| == |a.Keys|;
  }

  lemma GrownKeeps(s: Ram, own: Owner, s': Ram, own': Owner, r: int)
    requires Grown(s, own, s', own', r)
    ensures forall x :: x in own ==> x in own' && own'[x] == own[x]
  {
  }

  lemma PathsBusy(s0: Ram, own0: Owner, s: Ram, free: seq<int>, own: Owner, r: int, va: nat, size: nat, p: nat,
          perm: nat, k: int)
    requires MapBusy(s0, own0, s, free, own, r, va / 4096, p, perm, k, (va + size - 1) / 4096)
    ensures PathsOf(va / 4096 + k, 1) <= PathsOf(va / 4096, PagesIn(va, size))
  {
    hide PathsOf;
    PathsWithin(va / 4096, PagesIn(va, size), va / 4096 + k);
  }

  lemma NeedSome(s: Ram, free: seq<int>, own: Owner, r: int, v: int)
    requires Sound(s, free, own)
    ensures s.head == 0 ==> |free| < Need(own, r, v, 1)
  {
    hide Sound, PathsOf, Tables;
    HeadIsFree(s, free, own);
  }

  lemma AddPaid(s: Ram, free: seq<int>, own: Owner, s1: Ram, own1: Owner, s2: Ram, free2: seq<int>, own2: Owner,
          r: int, v: int, p: nat, img: Image)
    requires Sound(s, free, own) && Sound(s2, free2, own2) && InHand(s, own, s1, own1, r, p, img.page)
    requires IsRoot(own2, r) && 0 <= v < TRAPFRAME && !Valid(Lookup(s.mem, r, v))
    requires Added(s, own, s2, own2, r, v, [img])
    requires Tables(own2, r) <= Tables(own1, r) + PathsOf(v, 1)
    ensures Paid(free, own, free2, own2, r, v, 1)
  {
    hide Sound, Lookup, Valid, Tables, PathsOf, SameLookups, SameData;
    TablesKept(own1, own, r);
    TablesKept(own, own1, r);
    assert Shows(s2.mem, Lookup(s2.mem, r, v), [img][0]);
    AddCost(s, free, own, s2, free2, own2, r, v, img);
  }

  // ---- several pages

  lemma {:induction false} NeedGrows(own: Owner, r: int, v: int, n: nat, m: nat)
    requires n <= m
    ensures Need(own, r, v, n) <= Need(own, r, v, m)
    decreases m - n
  {
    hide PathsOf, Tables;
    if n < m {
      PathsNext(v, n);
      var t := Tables(own, r);
      SetSizes(PathsOf(v, n) - t, PathsOf(v, n + 1) - t);
      assert (PathsOf(v, n) - t) + (PathsOf(v, n + 1) - t) == PathsOf(v, n + 1) - t;
      NeedGrows(own, r, v, n + 1, m);
    }
  }

  /** n pages are mapped from v on, with their tables, out of what was free. */
  ghost predicate Paid(free: seq<int>, own: Owner, free': seq<int>, own': Owner, r: int, v: int, n: nat) {
    |free| == |free'| + Need(own, r, v, n) && Tables(own', r) == Tables(own, r) + PathsOf(v, n)
  }

  lemma PaidNone(free: seq<int>, own: Owner, r: int, v: int)
    ensures Paid(free, own, free, own, r, v, 0)
  {
    hide Tables;
    PathsNone(v);
    assert Tables(own, r) + {} == Tables(own, r);
    assert {} - Tables(own, r) == {};
  }

  /** The next page needs what is missing after the ones before. */
  lemma NeedNext(own: Owner, own': Owner, r: int, v: int, n: nat)
    requires Tables(own', r) == Tables(own, r) + PathsOf(v, n)
    ensures Need(own, r, v, n + 1) == Need(own, r, v, n) + Need(own', r, v + n, 1)
  {
    hide PathsOf, Tables;
    PathsNext(v, n);
    var t, ps, q := Tables(own, r), PathsOf(v, n), PathsOf(v + n, 1);
    SetSizes(ps - t, (ps + q) - t);
    assert (ps - t) + ((ps + q) - t) == (ps + q) - t;
    assert ((ps + q) - t) - (ps - t) == q - (t + ps);
  }

  lemma PaidNext(free: seq<int>, own: Owner, free1: seq<int>, own1: Owner, free': seq<int>, own': Owner, r: int, v: int,
          n: nat)
    requires Paid(free, own, free1, own1, r, v, n) && Paid(free1, own1, free', own', r, v + n, 1)
    ensures Paid(free, own, free', own', r, v, n + 1)
  {
    hide PathsOf, Tables, Need;
    NeedNext(own, own1, r, v, n);
    PathsNext(v, n);
    assert (Tables(own, r) + PathsOf(v, n)) + PathsOf(v + n, 1) == Tables(own, r) + PathsOf(v, n + 1);
  }

  lemma PaidStuck(free: seq<int>, own: Owner, free1: seq<int>, own1: Owner, r: int, v: int, n: nat, m: nat)
    requires Paid(free, own, free1, own1, r, v, n) && |free1| < Need(own1, r, v + n, 1) && n < m
    ensures |free| < Need(own, r, v, m)
  {
    hide PathsOf, Tables, Need;
    NeedNext(own, own1, r, v, n);
    NeedGrows(own, r, v, n + 1, m);
  }

  // ---- whole address spaces

  /** The table pages of an address space without user memory. */
  function FixedPaths(): set<Path> { {Top} + PathsOf(TRAPFRAME, 2) }

  /** Those of one with n pages. */
  function AllPaths(n: nat): set<Path> { FixedPaths() + PathsOf(0, n) }

  /** All it takes, the root included. */
  function Cost(n: nat): nat { n + |AllPaths(n)| }

  lemma SpaceUsers(s: Ram, free: seq<int>, own: Owner, r: int, n: int, tf: bool, tr: bool)
    requires Sound(s, free, own) && IsRoot(own, r) && Space(s.mem, r, n, tf, tr)
    ensures |Users(own, r)| == n
  {
    hide Heap, Tree, Lookup, Valid, Ppn, Readable, Users;
    VpnOrder();
    forall u ensures 0 <= u < n <==> u in Users(own, r) {
      if u in Users(own, r) {
        var p := UserOf(own, r, u);
        assert 0 <= u < TRAPFRAME && Valid(Lookup(s.mem, r, u));
      }
      if 0 <= u < n {
        assert Valid(Lookup(s.mem, r, u));
        InUsers(own, Ppn(Lookup(s.mem, r, u)), r, u);
      }
    }
    InRange(Users(own, r), {}, 0, n);
  }

  lemma NewRoot(s: Ram, free: seq<int>, own: Owner, r: int)
    requires Sound(s, free, own) && r !in own
    ensures Without(own, r) == own && Tables(own, r) == {} && |Users(own, r)| == 0
  {
    hide Heap, Leaves, Tree, Without, Tables, Users;
    NoneOf(s, free, own, r);
    OwnCount(s, free, own, r);
  }

  /** What the address space r takes is what was free before and is not now. */
  lemma SpaceCost(s: Ram, free: seq<int>, own: Owner, s': Ram, free': seq<int>, own': Owner, r: int, n: int, tf: bool,
          tr: bool)
    requires Sound(s, free, own) && Sound(s', free', own') && r !in own && Apart(s, own, s', own', r)
    requires IsRoot(own', r) && Space(s'.mem, r, n, tf, tr)
    ensures |free| == |free'| + n + |Tables(own', r)|
  {
    hide Sound, Space, Tables, Users, Without;
    NewRoot(s, free, own, r);
    SpaceUsers(s', free', own', r, n, tf, tr);
    Spent(s, free, own, s', free', own', r);
  }

  lemma FixedWithin()
    ensures PathsOf(TRAMPOLINE, 1) <= FixedPaths() && PathsOf(TRAPFRAME, 1) <= FixedPaths()
    ensures FixedPaths() == {Top} + PathsOf(TRAPFRAME, 1) + PathsOf(TRAMPOLINE, 1)
  {
    hide PathsOf;
    PathsWithin(TRAPFRAME, 2, TRAMPOLINE);
    PathsWithin(TRAPFRAME, 2, TRAPFRAME);
    PathsNext(TRAPFRAME, 1);
  }

  lemma FixedPositive()
    ensures |FixedPaths()| > 0
  {
    hide PathsOf;
    assert Top in FixedPaths();
  }

  lemma NewTables(s: Ram, free: seq<int>, own: Owner, r: int)
    requires Sound(s, free, own)
    ensures r !in own ==> Tables(own[r := Table(r, Top)], r) <= {Top}
  {
    hide Sound, Tables;
    if r !in own {
      NewRoot(s, free, own, r);
      DescendTables(own, r, r, Top);
    }
  }

  /** proc_pagetable is out of pages at a table of v. */
  lemma FixedOut(s: Ram, free: seq<int>, own: Owner, s': Ram, free': seq<int>, own': Owner, r: int, tf: bool, tr: bool,
          v: int)
    requires Sound(s, free, own) && Sound(s', free', own') && r !in own && Apart(s, own, s', own', r)
    requires IsRoot(own', r) && Space(s'.mem, r, 0, tf, tr) && s'.head == 0 && At(s'.mem, r, LowOf(v)) == 0
    requires Tables(own', r) <= FixedPaths() && PathsOf(v, 1) <= FixedPaths()
    ensures |free| < |FixedPaths()|
  {
    hide Heap, Tree, Leaves, Space, Tables, PathsOf, FixedPaths, At, LowOf;
    SpaceCost(s, free, own, s', free', own', r, 0, tf, tr);
    HeadIsFree(s', free', own');
    MissingTable(s'.mem, own', r, LowOf(v));
    PathsOne(v);
    Smaller(Tables(own', r), FixedPaths(), LowOf(v));
  }

  /** proc_pagetable is done: it took exactly the fixed tables. */
  lemma FixedPaid(s: Ram, free: seq<int>, own: Owner, s': Ram, free': seq<int>, own': Owner, r: int)
    requires Sound(s, free, own) && Sound(s', free', own') && r !in own && Apart(s, own, s', own', r)
    requires IsRoot(own', r) && Space(s'.mem, r, 0, true, true) && Tables(own', r) <= FixedPaths()
    ensures Tables(own', r) == FixedPaths() && |free| == |free'| + |FixedPaths()|
  {
    hide Heap, Tree, Leaves, Tables, PathsOf, Apart, Lookup, Valid;
    VpnOrder();
    FixedWithin();
    ValidHasTable(s'.mem, own', r, TRAPFRAME);
    ValidHasTable(s'.mem, own', r, TRAMPOLINE);
    MappedTables(s', free', own', r, TRAPFRAME);
    MappedTables(s', free', own', r, TRAMPOLINE);
    InTables(own', r, r, Top);
    hide Space;
    SpaceCost(s, free, own, s', free', own', r, 0, true, true);
  }

  /** r has n pages of memory and the tables for them, out of what was free at the start. */
  ghost predicate Budget(free0: seq<int>, free: seq<int>, own: Owner, r: int, n: nat) {
    |free0| == |free| + Cost(n) && Tables(own, r) == AllPaths(n)
  }

  lemma CostGrows(n: nat, m: nat)
    requires n <= m
    ensures Cost(n) <= Cost(m) && AllPaths(m) == AllPaths(n) + PathsOf(n, m - n)
    ensures Cost(m) == Cost(n) + (m - n) + |PathsOf(n, m - n) - AllPaths(n)|
  {
    hide PathsOf, FixedPaths;
    PathsSplit(0, n, m);
    assert AllPaths(m) == AllPaths(n) + PathsOf(n, m - n);
    SetSizes(AllPaths(n), PathsOf(n, m - n));
  }

  lemma {:induction false} PathsSplit(v: int, n: nat, m: nat)
    requires n <= m
    ensures PathsOf(v, m) == PathsOf(v, n) + PathsOf(v + n, m - n)
    decreases m - n
  {
    hide PathsOf;
    if n == m {
      PathsNone(v + n);
    } else {
      PathsSplit(v, n, m - 1);
      PathsNext(v, m - 1);
      PathsNext(v + n, m - 1 - n);
    }
  }

  lemma CostZero()
    ensures Cost(0) == |FixedPaths()|
  {
    hide FixedPaths, PathsOf;
    PathsNone(0);
    assert FixedPaths() + {} == FixedPaths();
  }

  lemma BudgetIs(free0: seq<int>, free: seq<int>, own: Owner, r: int, n: nat)
    requires Budget(free0, free, own, r, n)
    ensures |free0| == |free| + Cost(n)
  {
  }

  lemma BudgetStart(free0: seq<int>, free: seq<int>, own: Owner, r: int)
    requires |free0| == |free| + |FixedPaths()| && Tables(own, r) == FixedPaths()
    ensures Budget(free0, free, own, r, 0)
  {
    hide Tables, FixedPaths, PathsOf;
    PathsNone(0);
    assert FixedPaths() + {} == FixedPaths();
  }

  lemma BudgetNext(free0: seq<int>, free1: seq<int>, own1: Owner, free: seq<int>, own: Owner, r: int, n: nat, m: nat)
    requires Budget(free0, free1, own1, r, n) && n <= m && Paid(free1, own1, free, own, r, n, m - n)
    ensures Budget(free0, free, own, r, m)
  {
    hide Tables, AllPaths, PathsOf, Cost;
    CostGrows(n, m);
  }

  lemma BudgetOut(free0: seq<int>, free1: seq<int>, own1: Owner, r: int, n: nat, m: nat)
    requires Budget(free0, free1, own1, r, n) && n <= m && |free1| < Need(own1, r, n, m - n)
    ensures |free0| < Cost(m)
  {
    hide Tables, AllPaths, PathsOf, Cost;
    CostGrows(n, m);
  }
}
