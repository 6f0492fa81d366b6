/**
 Directory entries and link counts (kernel/sysfile.c, kernel/fs.c). An inode's link count is
 the number of entries that name it: "." is never counted, and ".." is counted only from a
 directory that is itself still named by an entry. `linking` holds the inodes whose count
 sys_link has raised but whose new entry is not there yet.
 */
module Links {

  const T_DIR: int := 1
  const T_FILE: int := 2
  const T_DEVICE: int := 3
  const ROOTINO: int := 1

  /** A directory slot; inum 0 marks it empty. Slots 0 and 1 are "." and "..". */
  datatype Entry = Entry(inum: int, name: string)

  datatype Node = Node(kind: int, nlink: int, entries: seq<Entry>)

  type Nodes = map<int, Node>

  // ---- counting references

  function Occ(es: seq<Entry>, i: int): nat
    decreases |es|
  {
    if es == [] then 0
    else Occ(es[..|es| - 1], i) + if es[|es| - 1].inum == i then 1 else 0
  }

  /** The entries of a directory that count: not ".", and ".." only if it is attached. */
  function Counted(n: Node, attached: bool): seq<Entry> {
    if n.kind != T_DIR || |n.entries| < 2 then []
    else if attached then n.entries[1..] else n.entries[2..]
  }

  ghost function RefsFrom(ns: Nodes, attached: set<int>, dirs: set<int>, i: int): nat
    requires dirs <= ns.Keys
  {
    if exists d :: d in dirs then
      var d :| d in dirs;
      Occ(Counted(ns[d], d in attached), i) + RefsFrom(ns, attached, dirs - {d}, i)
    else 0
  }

  ghost function Refs(ns: Nodes, attached: set<int>, i: int): nat {
    RefsFrom(ns, attached, ns.Keys, i)
  }

  lemma {:induction false} RefsSplit(ns: Nodes, attached: set<int>, dirs: set<int>, i: int, d: int)
    requires dirs <= ns.Keys && d in dirs
    ensures RefsFrom(ns, attached, dirs, i)
            == Occ(Counted(ns[d], d in attached), i) + RefsFrom(ns, attached, dirs - {d}, i)
    decreases |dirs|
  {
    var c :| c in dirs && RefsFrom(ns, attached, dirs, i)
                          == Occ(Counted(ns[c], c in attached), i) + RefsFrom(ns, attached, dirs - {c}, i);
    if c != d {
      RefsSplit(ns, attached, dirs - {c}, i, d);
      RefsSplit(ns, attached, dirs - {d}, i, c);
      assert dirs - {c} - {d} == dirs - {d} - {c};
    }
  }

  lemma {:induction false} RefsAgree(ns: Nodes, attached: set<int>, ms: Nodes, attached': set<int>, dirs: set<int>,
          i: int)
    requires dirs <= ns.Keys && dirs <= ms.Keys
    requires forall d :: d in dirs ==> Counted(ns[d], d in attached) == Counted(ms[d], d in attached')
    ensures RefsFrom(ns, attached, dirs, i) == RefsFrom(ms, attached', dirs, i)
    decreases |dirs|
  {
    if d :| d in dirs {
      RefsSplit(ns, attached, dirs, i, d);
      RefsSplit(ms, attached', dirs, i, d);
      RefsAgree(ns, attached, ms, attached', dirs - {d}, i);
    }
  }

  /** Changing one node, or whether it is attached, changes only its own contribution. */
  lemma RefsUpdate(ns: Nodes, attached: set<int>, d: int, n: Node, attached': set<int>, i: int)
    requires d in ns && forall c :: c != d ==> (c in attached <==> c in attached')
    ensures Refs(ns[d := n], attached', i) + Occ(Counted(ns[d], d in attached), i)
            == Refs(ns, attached, i) + Occ(Counted(n, d in attached'), i)
  {
    var ms := ns[d := n];
    assert ms.Keys == ns.Keys;
    RefsSplit(ns, attached, ns.Keys, i, d);
    RefsSplit(ms, attached', ns.Keys, i, d);
    RefsAgree(ns, attached, ms, attached', ns.Keys - {d}, i);
  }

  lemma RefsNew(ns: Nodes, attached: set<int>, d: int, n: Node, attached': set<int>, i: int)
    requires d !in ns && forall c :: c != d ==> (c in attached <==> c in attached')
    ensures Refs(ns[d := n], attached', i) == Refs(ns, attached, i) + Occ(Counted(n, d in attached'), i)
  {
    var ms := ns[d := n];
    RefsSplit(ms, attached', ms.Keys, i, d);
    assert ms.Keys - {d} == ns.Keys;
    RefsAgree(ns, attached, ms, attached', ns.Keys, i);
  }

  lemma RefsRemove(ns: Nodes, attached: set<int>, d: int, i: int)
    requires d in ns
    ensures Refs(ns - {d}, attached, i) + Occ(Counted(ns[d], d in attached), i) == Refs(ns, attached, i)
  {
    RefsSplit(ns, attached, ns.Keys, i, d);
    assert (ns - {d}).Keys == ns.Keys - {d};
    RefsAgree(ns, attached, ns - {d}, attached, ns.Keys - {d}, i);
  }

  // ---- occurrences under slot updates

  lemma {:induction false} OccConcat(a: seq<Entry>, b: seq<Entry>, i: int)
    ensures Occ(a + b, i) == Occ(a, i) + Occ(b, i)
    decreases |b|
  {
    if b == [] {
      assert a + b == a;
    } else {
      assert (a + b)[..|a + b| - 1] == a + b[..|b| - 1];
      OccConcat(a, b[..|b| - 1], i);
    }
  }

  lemma OccOne(e: Entry, i: int)
    ensures Occ([e], i) == if e.inum == i then 1 else 0
  {
    assert [e][..0] == [];
  }

  lemma OccUpdate(es: seq<Entry>, k: int, e: Entry, i: int)
    requires 0 <= k < |es|
    ensures Occ(es[k := e], i) + (if es[k].inum == i then 1 else 0) == Occ(es, i) + if e.inum == i then 1 else 0
  {
    assert es == es[..k] + [es[k]] + es[k + 1..];
    assert es[k := e] == es[..k] + [e] + es[k + 1..];
    OccConcat(es[..k] + [es[k]], es[k + 1..], i);
    OccConcat(es[..k], [es[k]], i);
    OccConcat(es[..k] + [e], es[k + 1..], i);
    OccConcat(es[..k], [e], i);
    OccOne(es[k], i);
    OccOne(e, i);
  }

  lemma OccPositive(es: seq<Entry>, k: int)
    requires 0 <= k < |es|
    ensures Occ(es, es[k].inum) >= 1
  {
    var i := es[k].inum;
    assert es == es[..k] + [es[k]] + es[k + 1..];
    OccConcat(es[..k] + [es[k]], es[k + 1..], i);
    OccConcat(es[..k], [es[k]], i);
    OccOne(es[k], i);
  }

  lemma {:induction false} OccNone(es: seq<Entry>, i: int)
    requires forall k :: 0 <= k < |es| ==> es[k].inum != i
    ensures Occ(es, i) == 0
    decreases |es|
  {
    if es != [] {
      OccNone(es[..|es| - 1], i);
    }
  }

  // ---- searching a directory

  /** Slot k holds an entry of this name. */
  predicate Holds(es: seq<Entry>, k: int, name: string) {
    0 <= k < |es| && es[k].inum != 0 && es[k].name == name
  }

  /** The first slot with the name, or |es|. */
  function Find(es: seq<Entry>, name: string): (k: int)
    ensures 0 <= k <= |es|
    ensures k < |es| ==> Holds(es, k, name)
    ensures forall j :: 0 <= j < k ==> es[j].inum == 0 || es[j].name != name
    decreases |es|
  {
    if es == [] then 0
    else
      var k := Find(es[..|es| - 1], name);
      if k < |es| - 1 || Holds(es, |es| - 1, name) then k else |es|
  }

  /** The first empty slot, or |es|. */
  function Vacant(es: seq<Entry>): (k: int)
    ensures 0 <= k <= |es|
    ensures k < |es| ==> es[k].inum == 0
    ensures forall j :: 0 <= j < k ==> es[j].inum != 0
    decreases |es|
  {
    if es == [] then 0
    else
      var k := Vacant(es[..|es| - 1]);
      if k < |es| - 1 || es[|es| - 1].inum == 0 then k else |es|
  }

  /** Writing slot k, which may be the one just past the end. */
  function Put(es: seq<Entry>, k: int, e: Entry): seq<Entry>
    requires 0 <= k <= |es|
  {
    if k == |es| then es + [e] else es[k := e]
  }

  function Placed(es: seq<Entry>, name: string, inum: int): seq<Entry> {
    Put(es, Vacant(es), Entry(inum, name))
  }

  // ---- the invariant

  const CLEARED := Entry(0, "")

  /**
   The inodes in use, where each directory other than the root is named (directory and slot),
   and the inodes sys_link has counted but not yet entered.
   */
  datatype Tree = Tree(nodes: Nodes, home: map<int, (int, int)>, linking: multiset<int>)

  function Attached(t: Tree): set<int> { t.home.Keys + {ROOTINO} }

  predicate IsDir(ns: Nodes, d: int) { d in ns && ns[d].kind == T_DIR }

  ghost predicate DirShape(d: int, es: seq<Entry>) {
    && |es| >= 2
    && es[0] == Entry(d, ".") && es[1].name == ".." && es[1].inum > 0
    && forall j, k :: 0 <= j < k < |es| && es[j].inum != 0 && es[k].inum != 0 ==> es[j].name != es[k].name
  }

  ghost predicate Shape(ns: Nodes) {
    && (forall d :: d in ns ==>
          d > 0 && (if ns[d].kind == T_DIR then DirShape(d, ns[d].entries) else ns[d].entries == []))
    && IsDir(ns, ROOTINO) && ns[ROOTINO].entries[1].inum == ROOTINO
  }

  /** Slot k of directory d, past the dots, names inode c. */
  predicate Names(ns: Nodes, d: int, k: int, c: int) {
    IsDir(ns, d) && 2 <= k < |ns[d].entries| && ns[d].entries[k].inum == c != 0
  }

  /** Every directory but the root is named at most once, by the parent its ".." gives. */
  ghost predicate Nested(t: Tree) {
    && ROOTINO !in t.home
    && (forall c :: c in t.home ==>
          && IsDir(t.nodes, c) && |t.nodes[c].entries| >= 2
          && Names(t.nodes, t.home[c].0, t.home[c].1, c)
          && t.nodes[c].entries[1].inum == t.home[c].0)
    && (forall d, k, c :: Names(t.nodes, d, k, c) ==>
          && c in t.nodes && d in Attached(t)
          && (t.nodes[c].kind == T_DIR ==> c in t.home && t.home[c] == (d, k)))
  }

  ghost predicate Counts(t: Tree) {
    && (forall i :: i in t.nodes ==> t.nodes[i].nlink == Refs(t.nodes, Attached(t), i) + t.linking[i])
    && (forall i :: i in t.linking ==> i in t.nodes && t.nodes[i].kind != T_DIR)
  }

  ghost predicate Inv(t: Tree) {
    Shape(t.nodes) && Nested(t) && Counts(t)
  }

  // ---- the system calls, one step each; sys_link is Raise, then Enter or Lower

  datatype Op =
    | Create(dp: int, name: string, kind: int, ip: int)
    | Raise(ip: int)
    | Enter(ip: int, dp: int, name: string)
    | Lower(ip: int)
    | Unlink(dp: int, name: string)
    | Free(ip: int)

  function WithEntries(n: Node, es: seq<Entry>, more: int): Node {
    n.(entries := es, nlink := n.nlink + more)
  }

  function Dots(ip: int, dp: int): seq<Entry> { [Entry(ip, "."), Entry(dp, "..")] }

  function CreateNext(t: Tree, dp: int, name: string, kind: int, ip: int): Tree
    requires IsDir(t.nodes, dp)
  {
    var n := t.nodes[dp];
    if kind == T_DIR then
      Tree(t.nodes[ip := Node(kind, 1, Dots(ip, dp))][dp := WithEntries(n, Placed(n.entries, name, ip), 1)],
           t.home[ip := (dp, Vacant(n.entries))], t.linking)
    else
      t.(nodes := t.nodes[ip := Node(kind, 1, [])][dp := WithEntries(n, Placed(n.entries, name, ip), 0)])
  }

  function RaiseNext(t: Tree, ip: int): Tree
    requires ip in t.nodes
  {
    Tree(t.nodes[ip := t.nodes[ip].(nlink := t.nodes[ip].nlink + 1)], t.home, t.linking + multiset{ip})
  }

  function LowerNext(t: Tree, ip: int): Tree
    requires ip in t.nodes
  {
    Tree(t.nodes[ip := t.nodes[ip].(nlink := t.nodes[ip].nlink - 1)], t.home, t.linking - multiset{ip})
  }

  function EnterNext(t: Tree, ip: int, dp: int, name: string): Tree
    requires IsDir(t.nodes, dp)
  {
    var n := t.nodes[dp];
    Tree(t.nodes[dp := WithEntries(n, Placed(n.entries, name, ip), 0)], t.home, t.linking - multiset{ip})
  }

  function UnlinkNext(t: Tree, dp: int, k: int): Tree
    requires IsDir(t.nodes, dp) && 0 <= k < |t.nodes[dp].entries| && t.nodes[dp].entries[k].inum in t.nodes
  {
    var n := t.nodes[dp];
    var c := n.entries[k].inum;
    var m := t.nodes[c].(nlink := t.nodes[c].nlink - 1);
    if m.kind == T_DIR then
      Tree(t.nodes[dp := WithEntries(n, n.entries[k := CLEARED], -1)][c := m], t.home - {c}, t.linking)
    else
      t.(nodes := t.nodes[dp := WithEntries(n, n.entries[k := CLEARED], 0)][c := m])
  }

  function FreeNext(t: Tree, ip: int): Tree { t.(nodes := t.nodes - {ip}) }

  /** isdirempty: nothing past the dots */
  predicate Empty(es: seq<Entry>) {
    forall k :: 2 <= k < |es| ==> es[k].inum == 0
  }

  // ---- references after one slot of a directory is written

  function One(b: bool): nat { if b then 1 else 0 }

  lemma PutOcc(es: seq<Entry>, from: int, k: int, e: Entry, i: int)
    requires 0 <= from <= k <= |es| && i != 0 && (k < |es| ==> es[k].inum == 0)
    ensures Occ(Put(es, k, e)[from..], i) == Occ(es[from..], i) + One(e.inum == i)
  {
    if k == |es| {
      assert (es + [e])[from..] == es[from..] + [e];
      OccConcat(es[from..], [e], i);
      OccOne(e, i);
    } else {
      assert es[k := e][from..] == es[from..][k - from := e];
      OccUpdate(es[from..], k - from, e, i);
    }
  }

  lemma ClearOcc(es: seq<Entry>, from: int, k: int, i: int)
    requires 0 <= from <= k < |es| && i != 0
    ensures Occ(es[k := CLEARED][from..], i) + One(es[k].inum == i) == Occ(es[from..], i)
  {
    assert es[k := CLEARED][from..] == es[from..][k - from := CLEARED];
    OccUpdate(es[from..], k - from, CLEARED, i);
  }

  lemma PlacedRefs(ns: Nodes, attached: set<int>, dp: int, name: string, c: int, more: int, i: int)
    requires Shape(ns) && IsDir(ns, dp) && i != 0
    ensures Refs(ns[dp := WithEntries(ns[dp], Placed(ns[dp].entries, name, c), more)], attached, i)
            == Refs(ns, attached, i) + One(c == i)
  {
    hide Refs, Occ;
    var es := ns[dp].entries;
    assert DirShape(dp, es);
    assert Vacant(es) >= 2;
    PutOcc(es, if dp in attached then 1 else 2, Vacant(es), Entry(c, name), i);
    RefsUpdate(ns, attached, dp, WithEntries(ns[dp], Placed(es, name, c), more), attached, i);
  }

  lemma ClearedRefs(ns: Nodes, attached: set<int>, dp: int, k: int, more: int, i: int)
    requires Shape(ns) && IsDir(ns, dp) && 2 <= k < |ns[dp].entries| && i != 0
    ensures Refs(ns[dp := WithEntries(ns[dp], ns[dp].entries[k := CLEARED], more)], attached, i)
            + One(ns[dp].entries[k].inum == i)
            == Refs(ns, attached, i)
  {
    hide Refs, Occ;
    var es := ns[dp].entries;
    ClearOcc(es, if dp in attached then 1 else 2, k, i);
    RefsUpdate(ns, attached, dp, WithEntries(ns[dp], es[k := CLEARED], more), attached, i);
  }

  /** A link count is not an entry: changing one moves no reference. */
  lemma NlinkRefs(ns: Nodes, attached: set<int>, c: int, nlink: int, i: int)
    requires c in ns
    ensures Refs(ns[c := ns[c].(nlink := nlink)], attached, i) == Refs(ns, attached, i)
  {
    hide Refs, Occ;
    RefsUpdate(ns, attached, c, ns[c].(nlink := nlink), attached, i);
  }

  // ---- who is named after each kind of change

  lemma PlacedShape(d: int, es: seq<Entry>, name: string, c: int)
    requires DirShape(d, es) && d != 0 && Find(es, name) == |es| && c != 0
    ensures |es| >= 2 && DirShape(d, Placed(es, name, c)) && |Placed(es, name, c)| >= 2
    ensures Placed(es, name, c)[1] == es[1]
  {
    hide Find, Vacant;
    assert Vacant(es) >= 2;
  }

  lemma PlacedNames(ns: Nodes, dp: int, name: string, x: int, more: int)
    requires Shape(ns) && IsDir(ns, dp) && x != 0
    ensures
      var ns' := ns[dp := WithEntries(ns[dp], Placed(ns[dp].entries, name, x), more)];
      forall d, k, c :: Names(ns', d, k, c) <==>
                        Names(ns, d, k, c) || (d == dp && k == Vacant(ns[dp].entries) && c == x)
  {
    hide Vacant;
    assert DirShape(dp, ns[dp].entries);
    assert Vacant(ns[dp].entries) >= 2;
  }

  lemma ClearedNames(ns: Nodes, dp: int, slot: int, more: int)
    requires IsDir(ns, dp) && 0 <= slot < |ns[dp].entries|
    ensures
      var ns' := ns[dp := WithEntries(ns[dp], ns[dp].entries[slot := CLEARED], more)];
      forall d, k, c :: Names(ns', d, k, c) <==> Names(ns, d, k, c) && !(d == dp && k == slot)
  {
  }

  lemma NlinkNames(ns: Nodes, ip: int, nlink: int)
    requires ip in ns
    ensures forall d, k, c :: Names(ns[ip := ns[ip].(nlink := nlink)], d, k, c) <==> Names(ns, d, k, c)
  {
  }

  lemma NewNames(ns: Nodes, ip: int, n: Node)
    requires ip !in ns && |n.entries| <= 2
    ensures forall d, k, c :: Names(ns[ip := n], d, k, c) <==> Names(ns, d, k, c)
  {
  }

  /** Nesting survives when the only new entry, if any, names a file x. */
  lemma NestedKeeps(t: Tree, t': Tree, dp: int, slot: int, x: int)
    requires Nested(t) && t'.home == t.home && dp in Attached(t)
    requires x in t'.nodes && t'.nodes[x].kind != T_DIR
    requires forall c :: c in t.nodes ==> c in t'.nodes && t'.nodes[c].kind == t.nodes[c].kind
    requires forall c :: c in t.nodes && t.nodes[c].kind == T_DIR && |t.nodes[c].entries| >= 2 ==>
      |t'.nodes[c].entries| >= 2 && t'.nodes[c].entries[1] == t.nodes[c].entries[1]
    requires forall d, k, c :: Names(t.nodes, d, k, c) ==> Names(t'.nodes, d, k, c)
    requires forall d, k, c :: Names(t'.nodes, d, k, c) ==> Names(t.nodes, d, k, c) || (d == dp && k == slot && c == x)
    ensures Nested(t')
  {
    hide Names;
  }

  // ---- each step keeps the invariant

  lemma RaiseKeeps(t: Tree, ip: int)
    requires Inv(t) && ip in t.nodes && t.nodes[ip].kind != T_DIR
    ensures Inv(RaiseNext(t, ip))
  {
    hide Refs, Names, Nested;
    var t' := RaiseNext(t, ip);
    NlinkNames(t.nodes, ip, t.nodes[ip].nlink + 1);
    NestedKeeps(t, t', ROOTINO, 0, ip);
    forall i | i in t'.nodes ensures t'.nodes[i].nlink == Refs(t'.nodes, Attached(t'), i) + t'.linking[i] {
      NlinkRefs(t.nodes, Attached(t), ip, t.nodes[ip].nlink + 1, i);
    }
  }

  lemma LowerKeeps(t: Tree, ip: int)
    requires Inv(t) && ip in t.linking
    ensures Inv(LowerNext(t, ip))
  {
    hide Refs, Names, Nested;
    var t' := LowerNext(t, ip);
    NlinkNames(t.nodes, ip, t.nodes[ip].nlink - 1);
    NestedKeeps(t, t', ROOTINO, 0, ip);
    forall i | i in t'.nodes ensures t'.nodes[i].nlink == Refs(t'.nodes, Attached(t'), i) + t'.linking[i] {
      NlinkRefs(t.nodes, Attached(t), ip, t.nodes[ip].nlink - 1, i);
    }
  }

  lemma EnterKeeps(t: Tree, ip: int, dp: int, name: string)
    requires Inv(t) && ip in t.linking && IsDir(t.nodes, dp) && dp in Attached(t)
    requires Find(t.nodes[dp].entries, name) == |t.nodes[dp].entries|
    ensures Inv(EnterNext(t, ip, dp, name))
  {
    hide Refs, Names, Nested, Vacant, Find, Placed, DirShape;
    var t' := EnterNext(t, ip, dp, name);
    PlacedShape(dp, t.nodes[dp].entries, name, ip);
    PlacedNames(t.nodes, dp, name, ip, 0);
    NestedKeeps(t, t', dp, Vacant(t.nodes[dp].entries), ip);
    forall i | i in t'.nodes ensures t'.nodes[i].nlink == Refs(t'.nodes, Attached(t'), i) + t'.linking[i] {
      PlacedRefs(t.nodes, Attached(t), dp, name, ip, 0, i);
    }
  }

  lemma CreateFileKeeps(t: Tree, dp: int, name: string, kind: int, ip: int)
    requires Inv(t) && IsDir(t.nodes, dp) && dp in Attached(t) && kind != T_DIR && 0 < ip && ip !in t.nodes
    requires Find(t.nodes[dp].entries, name) == |t.nodes[dp].entries|
    ensures Inv(CreateNext(t, dp, name, kind, ip))
  {
    hide Refs, Names, Nested, Vacant, Find, Placed, DirShape;
    var t' := CreateNext(t, dp, name, kind, ip);
    var ns := t.nodes[ip := Node(kind, 1, [])];
    PlacedShape(dp, t.nodes[dp].entries, name, ip);
    NewNames(t.nodes, ip, Node(kind, 1, []));
    PlacedNames(ns, dp, name, ip, 0);
    NestedKeeps(t, t', dp, Vacant(t.nodes[dp].entries), ip);
    FreshUnnamed(t, ip);
    forall i | i in t'.nodes ensures t'.nodes[i].nlink == Refs(t'.nodes, Attached(t'), i) + t'.linking[i] {
      NewRefs(t.nodes, Attached(t), ip, Node(kind, 1, []), i);
      PlacedRefs(ns, Attached(t), dp, name, ip, 0, i);
    }
  }

  /** A node that is not attached and has nothing past its dots refers to nothing. */
  lemma NewRefs(ns: Nodes, attached: set<int>, ip: int, n: Node, i: int)
    requires ip !in ns && ip !in attached && |n.entries| <= 2
    ensures Refs(ns[ip := n], attached, i) == Refs(ns, attached, i)
  {
    RefsNew(ns, attached, ip, n, attached, i);
  }

  /** Neither an entry nor an attached directory's ".." names the inode. */
  ghost predicate Unnamed(t: Tree, ip: int) {
    ip != 0 && ip !in Attached(t) && forall d, k :: !Names(t.nodes, d, k, ip)
  }

  lemma UnnamedRefs(t: Tree, ip: int)
    requires Shape(t.nodes) && Nested(t) && Unnamed(t, ip)
    ensures Refs(t.nodes, Attached(t), ip) == 0
  {
    NoRefs(t, t.nodes.Keys, ip);
  }

  lemma {:induction false} NoRefs(t: Tree, dirs: set<int>, ip: int)
    requires Shape(t.nodes) && Nested(t) && Unnamed(t, ip) && dirs <= t.nodes.Keys
    ensures RefsFrom(t.nodes, Attached(t), dirs, ip) == 0
    decreases |dirs|
  {
    hide Shape, Nested, Unnamed;
    if d :| d in dirs {
      RefsSplit(t.nodes, Attached(t), dirs, ip, d);
      NoRefs(t, dirs - {d}, ip);
      NotCounted(t, d, ip);
    }
  }

  lemma NotCounted(t: Tree, d: int, ip: int)
    requires Shape(t.nodes) && Nested(t) && Unnamed(t, ip) && d in t.nodes
    ensures Occ(Counted(t.nodes[d], d in Attached(t)), ip) == 0
  {
    var n := t.nodes[d];
    var es := Counted(n, d in Attached(t));
    forall k | 0 <= k < |es| ensures es[k].inum != ip {
      var slot := k + |n.entries| - |es|;
      assert es[k] == n.entries[slot];
      if slot >= 2 {
        assert !Names(t.nodes, d, slot, ip);
      } else {
        assert d in Attached(t);
        assert d == ROOTINO || Names(t.nodes, t.home[d].0, t.home[d].1, d);
      }
    }
    OccNone(es, ip);
  }

  /** An inode number that is not in use is not named. */
  lemma FreshUnnamed(t: Tree, ip: int)
    requires Shape(t.nodes) && Nested(t) && 0 < ip && ip !in t.nodes
    ensures Unnamed(t, ip) && ip !in Attached(t) && Refs(t.nodes, Attached(t), ip) == 0
  {
    hide Names;
    UnnamedRefs(t, ip);
  }

  lemma CreateDirRefs(ns: Nodes, attached: set<int>, dp: int, name: string, ip: int, i: int)
    requires Shape(ns) && IsDir(ns, dp) && ip !in ns && ip !in attached && ip > 0 && i != 0
    ensures
      var n := ns[dp];
      var ns' := ns[ip := Node(T_DIR, 1, Dots(ip, dp))][dp := WithEntries(n, Placed(n.entries, name, ip), 1)];
      Refs(ns', attached + {ip}, i) == Refs(ns, attached, i) + One(dp == i) + One(ip == i)
  {
    hide Refs, Occ, Placed, Vacant;
    var m := Node(T_DIR, 1, Dots(ip, dp));
    var ns1 := ns[ip := m];
    assert Counted(m, true) == [Entry(dp, "..")];
    OccOne(Entry(dp, ".."), i);
    RefsNew(ns, attached, ip, m, attached + {ip}, i);
    assert DirShape(ip, m.entries);
    PlacedRefs(ns1, attached + {ip}, dp, name, ip, 1, i);
  }

  lemma CreateDirNested(t: Tree, dp: int, name: string, ip: int)
    requires Shape(t.nodes) && Nested(t) && IsDir(t.nodes, dp) && dp in Attached(t) && 0 < ip && ip !in t.nodes
    requires Find(t.nodes[dp].entries, name) == |t.nodes[dp].entries|
    ensures Shape(CreateNext(t, dp, name, T_DIR, ip).nodes) && Nested(CreateNext(t, dp, name, T_DIR, ip))
  {
    hide Names, Nested, Vacant, Find, Placed, DirShape;
    var m := Node(T_DIR, 1, Dots(ip, dp));
    var ns := t.nodes[ip := m];
    DotsShape(ip, dp);
    PlacedShape(dp, t.nodes[dp].entries, name, ip);
    FreshUnnamed(t, ip);
    NewNames(t.nodes, ip, m);
    PlacedNames(ns, dp, name, ip, 1);
    NestedGrows(t, CreateNext(t, dp, name, T_DIR, ip), dp, Vacant(t.nodes[dp].entries), ip);
  }

  /** Nesting survives a new directory named by one new entry of the parent its ".." gives. */
  lemma NestedGrows(t: Tree, t': Tree, dp: int, slot: int, x: int)
    requires Nested(t) && Shape(t.nodes) && t'.home == t.home[x := (dp, slot)] && dp in Attached(t)
    requires x !in t.nodes && IsDir(t'.nodes, x) && |t'.nodes[x].entries| >= 2 && t'.nodes[x].entries[1].inum == dp
    requires forall c :: c in t.nodes ==> c in t'.nodes && t'.nodes[c].kind == t.nodes[c].kind
    requires forall c :: c in t.nodes && t.nodes[c].kind == T_DIR && |t.nodes[c].entries| >= 2 ==>
      |t'.nodes[c].entries| >= 2 && t'.nodes[c].entries[1] == t.nodes[c].entries[1]
    requires Names(t'.nodes, dp, slot, x)
    requires forall d, k, c :: Names(t.nodes, d, k, c) ==> Names(t'.nodes, d, k, c)
    requires forall d, k, c :: Names(t'.nodes, d, k, c) ==> Names(t.nodes, d, k, c) || (d == dp && k == slot && c == x)
    ensures Nested(t')
  {
    hide Names, DirShape;
  }

  lemma DotsShape(ip: int, dp: int)
    requires dp > 0
    ensures DirShape(ip, Dots(ip, dp))
  {
  }

  lemma CreateDirKeeps(t: Tree, dp: int, name: string, ip: int)
    requires Inv(t) && IsDir(t.nodes, dp) && dp in Attached(t) && 0 < ip && ip !in t.nodes
    requires Find(t.nodes[dp].entries, name) == |t.nodes[dp].entries|
    ensures Inv(CreateNext(t, dp, name, T_DIR, ip))
  {
    hide Refs, Nested, Vacant, Find, Placed, DirShape, Unnamed;
    var t' := CreateNext(t, dp, name, T_DIR, ip);
    CreateDirNested(t, dp, name, ip);
    FreshUnnamed(t, ip);
    assert Attached(t') == Attached(t) + {ip};
    forall i | i in t'.nodes ensures t'.nodes[i].nlink == Refs(t'.nodes, Attached(t'), i) + t'.linking[i] {
      CreateDirRefs(t.nodes, Attached(t), dp, name, ip, i);
    }
  }

  /** What an entry names has a positive count, so unlink never finds a link count below 1. */
  lemma NamedCounts(t: Tree, d: int, k: int, c: int)
    requires Inv(t) && Names(t.nodes, d, k, c)
    ensures c in t.nodes && t.nodes[c].nlink >= 1
  {
    hide Refs, Occ;
    var es := Counted(t.nodes[d], d in Attached(t));
    var j := k + |es| - |t.nodes[d].entries|;
    assert es[j] == t.nodes[d].entries[k];
    OccPositive(es, j);
    RefsAtLeast(t.nodes, Attached(t), d, c);
  }

  lemma RefsAtLeast(ns: Nodes, attached: set<int>, d: int, i: int)
    requires d in ns
    ensures Refs(ns, attached, i) >= Occ(Counted(ns[d], d in attached), i)
  {
    RefsSplit(ns, attached, ns.Keys, i, d);
  }

  lemma AttachedCounts(t: Tree, d: int)
    requires Inv(t) && d in Attached(t)
    ensures d in t.nodes && t.nodes[d].nlink >= 1
  {
    hide Refs, Occ;
    if d == ROOTINO {
      var es := Counted(t.nodes[d], true);
      assert es[0] == t.nodes[d].entries[1];
      OccPositive(es, 0);
      RefsAtLeast(t.nodes, Attached(t), d, d);
    } else {
      NamedCounts(t, t.home[d].0, t.home[d].1, d);
    }
  }

  /** A directory is named somewhere, or is the root, exactly while its link count is positive. */
  lemma LinkedIffNamed(t: Tree, d: int)
    requires Inv(t) && IsDir(t.nodes, d)
    ensures t.nodes[d].nlink > 0 <==> d in Attached(t)
    ensures t.nodes[d].nlink >= 0
  {
    hide Refs, Occ, Names;
    if d in Attached(t) {
      AttachedCounts(t, d);
    } else {
      assert Unnamed(t, d);
      UnnamedRefs(t, d);
      assert d !in t.linking;
    }
  }

  // ---- unlink

  lemma UnlinkFileKeeps(t: Tree, dp: int, k: int, c: int)
    requires Inv(t) && Names(t.nodes, dp, k, c) && c in t.nodes && t.nodes[c].kind != T_DIR
    ensures Inv(UnlinkNext(t, dp, k))
  {
    hide Refs, Nested, DirShape;
    var t' := UnlinkNext(t, dp, k);
    var n := t.nodes[dp];
    var ns := t.nodes[dp := WithEntries(n, n.entries[k := CLEARED], 0)];
    ClearedShape(dp, n.entries, k);
    ClearedNames(t.nodes, dp, k, 0);
    NlinkNames(ns, c, ns[c].nlink - 1);
    NestedDrops(t, t', dp, k, c);
    forall i | i in t'.nodes ensures t'.nodes[i].nlink == Refs(t'.nodes, Attached(t'), i) + t'.linking[i] {
      ClearedRefs(t.nodes, Attached(t), dp, k, 0, i);
      NlinkRefs(ns, Attached(t), c, ns[c].nlink - 1, i);
    }
  }

  lemma ClearedShape(d: int, es: seq<Entry>, k: int)
    requires DirShape(d, es) && 2 <= k < |es|
    ensures DirShape(d, es[k := CLEARED]) && |es[k := CLEARED]| == |es|
  {
  }

  /** Nesting survives the loss of an entry that names a file. */
  lemma NestedDrops(t: Tree, t': Tree, dp: int, slot: int, x: int)
    requires Nested(t) && t'.home == t.home && t'.nodes.Keys == t.nodes.Keys
    requires Names(t.nodes, dp, slot, x) && !IsDir(t.nodes, x)
    requires forall c :: c in t.nodes ==> t'.nodes[c].kind == t.nodes[c].kind
    requires forall c :: c in t.nodes && t.nodes[c].kind == T_DIR && |t.nodes[c].entries| >= 2 ==>
      |t'.nodes[c].entries| >= 2 && t'.nodes[c].entries[1] == t.nodes[c].entries[1]
    requires forall d, k, c :: Names(t'.nodes, d, k, c) <==> Names(t.nodes, d, k, c) && !(d == dp && k == slot)
    ensures Nested(t')
  {
  }

  lemma UnlinkDirRefs(t: Tree, dp: int, k: int, c: int, i: int)
    requires Shape(t.nodes) && Nested(t) && Names(t.nodes, dp, k, c) && IsDir(t.nodes, c) && c != dp && i != 0
    ensures
      var n := t.nodes[dp];
      var m := t.nodes[c].(nlink := t.nodes[c].nlink - 1);
      var ns' := t.nodes[dp := WithEntries(n, n.entries[k := CLEARED], -1)][c := m];
      Refs(ns', Attached(t) - {c}, i) + One(dp == i) + One(c == i) == Refs(t.nodes, Attached(t), i)
  {
    hide Refs, Occ;
    var n, m := t.nodes[dp], t.nodes[c];
    var ns := t.nodes[dp := WithEntries(n, n.entries[k := CLEARED], -1)];
    ClearedRefs(t.nodes, Attached(t), dp, k, -1, i);
    RefsUpdate(ns, Attached(t), c, m.(nlink := m.nlink - 1), Attached(t) - {c}, i);
    assert m.entries[1..] == [m.entries[1]] + m.entries[2..];
    OccConcat([m.entries[1]], m.entries[2..], i);
    OccOne(m.entries[1], i);
  }

  /** Nesting survives the loss of an empty directory together with its one entry. */
  lemma NestedShrinks(t: Tree, t': Tree, dp: int, slot: int, x: int)
    requires Nested(t) && Names(t.nodes, dp, slot, x) && IsDir(t.nodes, x) && Empty(t.nodes[x].entries)
    requires t'.home == t.home - {x} && t'.nodes.Keys == t.nodes.Keys
    requires forall c :: c in t.nodes ==> t'.nodes[c].kind == t.nodes[c].kind
    requires forall c :: c in t.nodes && t.nodes[c].kind == T_DIR && |t.nodes[c].entries| >= 2 ==>
      |t'.nodes[c].entries| >= 2 && t'.nodes[c].entries[1] == t.nodes[c].entries[1]
    requires forall d, k, c :: Names(t'.nodes, d, k, c) <==> Names(t.nodes, d, k, c) && !(d == dp && k == slot)
    ensures Nested(t')
  {
    assert t.home[x] == (dp, slot);
    forall d, k, c | Names(t'.nodes, d, k, c) ensures c in t'.nodes && d in Attached(t') {
      assert Names(t.nodes, d, k, c);
    }
  }

  lemma UnlinkDirKeeps(t: Tree, dp: int, k: int, c: int)
    requires Inv(t) && Names(t.nodes, dp, k, c) && IsDir(t.nodes, c) && Empty(t.nodes[c].entries)
    ensures Inv(UnlinkNext(t, dp, k))
  {
    hide Refs, DirShape;
    assert c != dp && c in t.home;
    UnlinkDirNested(t, dp, k, c);
    UnlinkDirCounts(t, dp, k, c);
  }

  lemma UnlinkDirNested(t: Tree, dp: int, k: int, c: int)
    requires Shape(t.nodes) && Nested(t) && Names(t.nodes, dp, k, c) && IsDir(t.nodes, c) && Empty(t.nodes[c].entries)
    requires c != dp
    ensures Shape(UnlinkNext(t, dp, k).nodes) && Nested(UnlinkNext(t, dp, k))
  {
    hide Nested, DirShape;
    var n := t.nodes[dp];
    var ns := t.nodes[dp := WithEntries(n, n.entries[k := CLEARED], -1)];
    ClearedShape(dp, n.entries, k);
    ClearedNames(t.nodes, dp, k, -1);
    NlinkNames(ns, c, ns[c].nlink - 1);
    NestedShrinks(t, UnlinkNext(t, dp, k), dp, k, c);
  }

  lemma UnlinkDirCounts(t: Tree, dp: int, k: int, c: int)
    requires Inv(t) && Names(t.nodes, dp, k, c) && IsDir(t.nodes, c) && c != dp && c in t.home
    ensures Counts(UnlinkNext(t, dp, k))
  {
    hide Refs, DirShape, Nested;
    var t' := UnlinkNext(t, dp, k);
    RootStays(t, c);
    assert Attached(t') == Attached(t) - {c};
    forall i | i in t'.nodes ensures t'.nodes[i].nlink == Refs(t'.nodes, Attached(t'), i) + t'.linking[i] {
      UnlinkDirRefs(t, dp, k, c, i);
    }
  }

  lemma RootStays(t: Tree, c: int)
    requires Nested(t) && c in t.home
    ensures c != ROOTINO
  {
  }

  // ---- iput of an unlinked inode

  lemma FreeRefs(t: Tree, ip: int, i: int)
    requires Shape(t.nodes) && Nested(t) && ip in t.nodes && ip !in Attached(t) && i != 0
    ensures Refs(t.nodes - {ip}, Attached(t), i) == Refs(t.nodes, Attached(t), i)
  {
    var n := t.nodes[ip];
    var es := Counted(n, false);
    forall k | 0 <= k < |es| ensures es[k].inum != i {
      assert es[k] == n.entries[k + 2];
      assert !Names(t.nodes, ip, k + 2, n.entries[k + 2].inum);
    }
    OccNone(es, i);
    RefsRemove(t.nodes, Attached(t), ip, i);
  }

  /** With no link left nothing names the inode, so freeing it leaves no dangling entry. */
  lemma FreeKeeps(t: Tree, ip: int)
    requires Inv(t) && ip in t.nodes && t.nodes[ip].nlink == 0
    ensures Inv(FreeNext(t, ip))
  {
    hide Refs;
    var t' := FreeNext(t, ip);
    assert ip !in Attached(t) by {
      if ip in Attached(t) { AttachedCounts(t, ip); }
    }
    forall d, k | Names(t.nodes, d, k, ip) ensures false {
      NamedCounts(t, d, k, ip);
    }
    forall d, k, c ensures Names(t'.nodes, d, k, c) <==> Names(t.nodes, d, k, c) {
      assert Names(t.nodes, d, k, c) ==> d in Attached(t);
    }
    forall i | i in t'.nodes ensures t'.nodes[i].nlink == Refs(t'.nodes, Attached(t'), i) + t'.linking[i] {
      FreeRefs(t, ip, i);
    }
  }

  // ---- whole runs

  /** The directories whose ".." counts, read off the link counts themselves. */
  ghost function Linked(ns: Nodes): set<int> {
    set d | d in ns && ns[d].kind == T_DIR && ns[d].nlink > 0
  }

  /** The step goes past its error returns, and adds no entry under an unlinked directory. */
  ghost predicate Enabled(t: Tree, op: Op) {
    match op
    case Create(dp, name, kind, ip) =>
      && IsDir(t.nodes, dp) && t.nodes[dp].nlink > 0 && Find(t.nodes[dp].entries, name) == |t.nodes[dp].entries|
      && kind in {T_DIR, T_FILE, T_DEVICE} && 0 < ip && ip !in t.nodes
    case Raise(ip) => ip in t.nodes && t.nodes[ip].kind != T_DIR
    case Enter(ip, dp, name) =>
      && ip in t.linking && IsDir(t.nodes, dp) && t.nodes[dp].nlink > 0
      && Find(t.nodes[dp].entries, name) == |t.nodes[dp].entries|
    case Lower(ip) => ip in t.linking && ip in t.nodes
    case Unlink(dp, name) =>
      && IsDir(t.nodes, dp) && name != "." && name != ".."
      && var k := Find(t.nodes[dp].entries, name);
      && k < |t.nodes[dp].entries| && t.nodes[dp].entries[k].inum in t.nodes
      && (IsDir(t.nodes, t.nodes[dp].entries[k].inum) ==> Empty(t.nodes[t.nodes[dp].entries[k].inum].entries))
    case Free(ip) => ip in t.nodes && t.nodes[ip].nlink == 0
  }

  ghost function Next(t: Tree, op: Op): Tree
    requires Enabled(t, op)
  {
    match op
    case Create(dp, name, kind, ip) => CreateNext(t, dp, name, kind, ip)
    case Raise(ip) => RaiseNext(t, ip)
    case Enter(ip, dp, name) => EnterNext(t, ip, dp, name)
    case Lower(ip) => LowerNext(t, ip)
    case Unlink(dp, name) => UnlinkNext(t, dp, Find(t.nodes[dp].entries, name))
    case Free(ip) => FreeNext(t, ip)
  }

  /** ops is a run from t to t'. */
  ghost predicate Run(t: Tree, ops: seq<Op>, t': Tree)
    decreases |ops|
  {
    if ops == [] then t == t'
    else Enabled(t, ops[0]) && Run(Next(t, ops[0]), ops[1..], t')
  }

  /** The empty root directory mkfs starts from. */
  function Root(): Tree {
    Tree(map[ROOTINO := Node(T_DIR, 1, Dots(ROOTINO, ROOTINO))], map[], multiset{})
  }

  lemma RootSound()
    ensures Inv(Root())
  {
    var ns := Root().nodes;
    var n := Node(T_DIR, 1, Dots(ROOTINO, ROOTINO));
    assert ns.Keys == {ROOTINO};
    assert Counted(n, true) == [Entry(ROOTINO, "..")];
    OccOne(Entry(ROOTINO, ".."), ROOTINO);
    RefsSplit(ns, {ROOTINO}, ns.Keys, ROOTINO, ROOTINO);
    assert ns.Keys - {ROOTINO} == {};
    assert Attached(Root()) == {ROOTINO};
    DotsShape(ROOTINO, ROOTINO);
  }

  /** A name other than the dots is found past them. */
  lemma FoundPastDots(ns: Nodes, dp: int, name: string)
    requires Shape(ns) && IsDir(ns, dp) && name != "." && name != ".." && Find(ns[dp].entries, name) < |ns[dp].entries|
    ensures Names(ns, dp, Find(ns[dp].entries, name), ns[dp].entries[Find(ns[dp].entries, name)].inum)
  {
    hide Find;
    assert DirShape(dp, ns[dp].entries);
  }

  lemma NextKeeps(t: Tree, op: Op)
    requires Inv(t) && Enabled(t, op)
    ensures Inv(Next(t, op))
  {
    hide Inv, Find, Empty, CreateNext, RaiseNext, LowerNext, EnterNext, UnlinkNext, FreeNext;
    match op
    case Create(dp, name, kind, ip) =>
      LinkedIffNamed(t, dp);
      if kind == T_DIR { CreateDirKeeps(t, dp, name, ip); } else { CreateFileKeeps(t, dp, name, kind, ip); }
    case Raise(ip) => RaiseKeeps(t, ip);
    case Enter(ip, dp, name) =>
      LinkedIffNamed(t, dp);
      EnterKeeps(t, ip, dp, name);
    case Lower(ip) => LowerKeeps(t, ip);
    case Unlink(dp, name) => UnlinkKeeps(t, dp, name);
    case Free(ip) => FreeKeeps(t, ip);
  }

  lemma UnlinkKeeps(t: Tree, dp: int, name: string)
    requires Inv(t) && Enabled(t, Unlink(dp, name))
    ensures Inv(UnlinkNext(t, dp, Find(t.nodes[dp].entries, name)))
  {
    hide Find, Nested, Counts, DirShape;
    var k := Find(t.nodes[dp].entries, name);
    var c := t.nodes[dp].entries[k].inum;
    FoundPastDots(t.nodes, dp, name);
    if IsDir(t.nodes, c) { UnlinkDirKeeps(t, dp, k, c); } else { UnlinkFileKeeps(t, dp, k, c); }
  }

  lemma {:induction false} RunKeeps(t: Tree, ops: seq<Op>, t': Tree)
    requires Inv(t) && Run(t, ops, t')
    ensures Inv(t')
    decreases |ops|
  {
    hide Inv, Enabled, Next;
    if ops != [] {
      NextKeeps(t, ops[0]);
      RunKeeps(Next(t, ops[0]), ops[1..], t');
    }
  }

  /** Each link count is the number of counted entries plus the unfinished links. */
  ghost predicate CountsRight(t: Tree) {
    forall i :: i in t.nodes ==> t.nodes[i].nlink == Refs(t.nodes, Linked(t.nodes), i) + t.linking[i]
  }

  lemma InvCounts(t: Tree)
    requires Inv(t)
    ensures Linked(t.nodes) == Attached(t) && CountsRight(t)
  {
    hide Refs, Shape, Nested, Names;
    forall d ensures d in Linked(t.nodes) <==> d in Attached(t) {
      if d in Attached(t) { AttachedCounts(t, d); }
      if IsDir(t.nodes, d) { LinkedIffNamed(t, d); }
      if d in Attached(t) { AttachedIsDir(t, d); }
    }
    assert Linked(t.nodes) == Attached(t);
  }

  /**
   After every sequence of create, link, its rollback, unlink and freeing steps, each inode's
   link count is the number of entries naming it ("." aside, ".." only from linked
   directories), plus the sys_link calls that have raised it and not finished.
   */
  lemma LinkCounts(ops: seq<Op>, t: Tree, i: int)
    requires Run(Root(), ops, t) && i in t.nodes
    ensures t.nodes[i].nlink == Refs(t.nodes, Linked(t.nodes), i) + t.linking[i]
  {
    hide Run, Refs, Linked, Inv;
    RootSound();
    RunKeeps(Root(), ops, t);
    InvCounts(t);
  }

  lemma AttachedIsDir(t: Tree, d: int)
    requires Inv(t) && d in Attached(t)
    ensures IsDir(t.nodes, d)
  {
  }

  /** sys_unlink never reaches its panic, on any run. */
  lemma UnlinkNeverPanics(ops: seq<Op>, t: Tree, dp: int, name: string)
    requires Run(Root(), ops, t) && Enabled(t, Unlink(dp, name))
    ensures t.nodes[t.nodes[dp].entries[Find(t.nodes[dp].entries, name)].inum].nlink >= 1
  {
    hide Run, Refs, Find, Nested, Counts, DirShape;
    RootSound();
    RunKeeps(Root(), ops, t);
    var k := Find(t.nodes[dp].entries, name);
    FoundPastDots(t.nodes, dp, name);
    NamedCounts(t, dp, k, t.nodes[dp].entries[k].inum);
  }

  // ---- entries under an unlinked directory

  /** The counts are right now and after every further run. */
  ghost predicate AlwaysRight(t: Tree) {
    forall ops, t' :: Run(t, ops, t') ==> CountsRight(t')
  }

  lemma InvAlwaysRight(t: Tree)
    requires Inv(t)
    ensures AlwaysRight(t)
  {
    hide Run, CountsRight, Inv;
    forall ops, t' | Run(t, ops, t') ensures CountsRight(t') {
      RunKeeps(t, ops, t');
      InvCounts(t');
    }
  }

  /** One wrong count, now or after one step, is enough. */
  lemma WrongNow(t: Tree, i: int)
    requires i in t.nodes && t.nodes[i].nlink != Refs(t.nodes, Linked(t.nodes), i) + t.linking[i]
    ensures !AlwaysRight(t)
  {
    hide Refs, Linked;
    assert Run(t, [], t);
  }

  lemma WrongNext(t: Tree, op: Op, i: int)
    requires Enabled(t, op)
    requires
      var u := Next(t, op);
      i in u.nodes && u.nodes[i].nlink != Refs(u.nodes, Linked(u.nodes), i) + u.linking[i]
    ensures !AlwaysRight(t)
  {
    hide Refs, Linked, Enabled, Next;
    assert [op][1..] == [];
    assert Run(t, [op], Next(t, op));
  }

  lemma DeadDirectory(t: Tree, dp: int)
    requires Inv(t) && IsDir(t.nodes, dp) && t.nodes[dp].nlink <= 0
    ensures t.nodes[dp].nlink == 0 && dp !in Attached(t) && dp != ROOTINO && DirShape(dp, t.nodes[dp].entries)
    ensures dp !in t.linking
  {
    LinkedIffNamed(t, dp);
  }

  /** A file created in a dead directory keeps its count when that directory is freed with its entry. */
  lemma FileUnderDead(t: Tree, dp: int, name: string, kind: int, ip: int)
    requires Inv(t) && IsDir(t.nodes, dp) && t.nodes[dp].nlink == 0 && kind != T_DIR && 0 < ip && ip !in t.nodes
    ensures
      var c := CreateNext(t, dp, name, kind, ip);
      && Enabled(c, Free(dp))
      && var u := Next(c, Free(dp));
      ip in u.nodes && u.nodes[ip].nlink == 1 && Refs(u.nodes, Linked(u.nodes), ip) + u.linking[ip] == 0
  {
    hide Refs, Nested, Shape, Placed;
    var m := Node(kind, 1, []);
    var ns := t.nodes - {dp};
    var u := Next(CreateNext(t, dp, name, kind, ip), Free(dp));
    assert u.nodes == ns[ip := m];
    InvCounts(t);
    assert Linked(u.nodes) == Linked(t.nodes);
    FreshUnnamed(t, ip);
    RefsRemove(t.nodes, Attached(t), dp, ip);
    RefsNew(ns, Attached(t), ip, m, Attached(t), ip);
  }

  /** A link entered in a dead directory is lost with it, and the raised count stays. */
  lemma LinkUnderDead(t: Tree, ip: int, dp: int, name: string)
    requires Inv(t) && ip in t.linking && IsDir(t.nodes, dp) && t.nodes[dp].nlink == 0
    ensures
      var c := EnterNext(t, ip, dp, name);
      && Enabled(c, Free(dp))
      && var u := Next(c, Free(dp));
      ip in u.nodes && u.nodes[ip].nlink == Refs(u.nodes, Linked(u.nodes), ip) + u.linking[ip] + 1
  {
    hide Refs, Nested, Placed, DirShape;
    var u := Next(EnterNext(t, ip, dp, name), Free(dp));
    assert u.nodes == t.nodes - {dp};
    InvCounts(t);
    assert Linked(u.nodes) == Linked(t.nodes);
    DeadDirectory(t, dp);
    FreeRefs(t, dp, ip);
  }

  /** What a directory made in a dead directory does to the references to the latter's old parent. */
  lemma RevivedRefs(t: Tree, dp: int, name: string, ip: int, i: int)
    requires Inv(t) && IsDir(t.nodes, dp) && t.nodes[dp].nlink == 0 && 0 < ip && ip !in t.nodes && i != 0
    ensures |t.nodes[dp].entries| >= 2
    ensures
      var c := CreateNext(t, dp, name, T_DIR, ip);
      && Linked(c.nodes) == Attached(t) + {ip, dp}
      && Refs(c.nodes, Linked(c.nodes), i) == Refs(t.nodes, Attached(t), i)
           + One(dp == i) + One(ip == i) + One(t.nodes[dp].entries[1].inum == i)
  {
    hide Refs, Nested, Placed, Vacant, Inv, Occ;
    var c := CreateNext(t, dp, name, T_DIR, ip);
    DeadDirectory(t, dp);
    InvCounts(t);
    assert Linked(c.nodes) == Attached(t) + {ip, dp};
    InvParts(t, ip);
    CreateDirRefs(t.nodes, Attached(t), dp, name, ip, i);
    var n, live := c.nodes[dp], Attached(t) + {ip};
    PlacedKeepsDots(dp, t.nodes[dp].entries, name, ip);
    assert c.nodes[dp := n] == c.nodes;
    RefsUpdate(c.nodes, live, dp, n, live + {dp}, i);
    assert live + {dp} == Linked(c.nodes);
    assert n.entries[1..] == [n.entries[1]] + n.entries[2..];
    OccConcat([n.entries[1]], n.entries[2..], i);
    OccOne(n.entries[1], i);
  }

  lemma PlacedKeepsDots(d: int, es: seq<Entry>, name: string, c: int)
    requires DirShape(d, es) && d != 0
    ensures |es| >= 2 && |Placed(es, name, c)| >= 2 && Placed(es, name, c)[1] == es[1]
  {
    assert Vacant(es) >= 2;
  }

  lemma InvParts(t: Tree, ip: int)
    requires Inv(t) && 0 < ip && ip !in t.nodes
    ensures Shape(t.nodes) && Counts(t) && ip !in Attached(t) && ip !in t.linking
    ensures Refs(t.nodes, Attached(t), ip) == 0
  {
    FreshUnnamed(t, ip);
  }

  /** A name no entry has. */
  lemma {:induction false} FreshName(es: seq<Entry>) returns (name: string)
    ensures forall k :: 0 <= k < |es| ==> |es[k].name| < |name|
    decreases |es|
  {
    if es == [] {
      name := "";
    } else {
      name := FreshName(es[..|es| - 1]);
      name := name + es[|es| - 1].name + "a";
    }
  }

  /** A directory made in a dead directory revives its "..", which no count allows for. */
  lemma DirUnderDead(t: Tree, dp: int, name: string, ip: int)
    requires Inv(t) && IsDir(t.nodes, dp) && t.nodes[dp].nlink == 0 && 0 < ip && ip !in t.nodes
    ensures !AlwaysRight(CreateNext(t, dp, name, T_DIR, ip))
  {
    hide Refs, Linked, Inv, AlwaysRight, Placed;
    DeadDirectory(t, dp);
    InvParts(t, ip);
    var c := CreateNext(t, dp, name, T_DIR, ip);
    var q := t.nodes[dp].entries[1].inum;
    RevivedRefs(t, dp, name, ip, q);
    if q in c.nodes {
      WrongNow(c, q);
    } else {
      var z := FreshName(c.nodes[ROOTINO].entries);
      RootIsLive(t);
      PlacedKeepsDots(dp, t.nodes[dp].entries, name, ip);
      ParentReborn(c, dp, q, z);
      WrongNext(c, Create(ROOTINO, z, T_FILE, q), q);
    }
  }

  lemma RootIsLive(t: Tree)
    requires Inv(t)
    ensures IsDir(t.nodes, ROOTINO) && t.nodes[ROOTINO].nlink > 0 && DirShape(ROOTINO, t.nodes[ROOTINO].entries)
  {
    AttachedCounts(t, ROOTINO);
  }

  /** The old parent's number is given to a new file: two counted entries name it, and its count is 1. */
  lemma ParentReborn(c: Tree, dp: int, q: int, z: string)
    requires IsDir(c.nodes, ROOTINO) && c.nodes[ROOTINO].nlink > 0 && DirShape(ROOTINO, c.nodes[ROOTINO].entries)
    requires forall k :: 0 <= k < |c.nodes[ROOTINO].entries| ==> |c.nodes[ROOTINO].entries[k].name| < |z|
    requires dp != ROOTINO && 0 < q && q !in c.nodes
    requires dp in Linked(c.nodes) && |c.nodes[dp].entries| >= 2 && c.nodes[dp].entries[1].inum == q
    ensures Enabled(c, Create(ROOTINO, z, T_FILE, q))
    ensures
      var u := Next(c, Create(ROOTINO, z, T_FILE, q));
      q in u.nodes && u.nodes[q].nlink == 1 && Refs(u.nodes, Linked(u.nodes), q) >= 2
  {
    hide Refs, Occ;
    var es := c.nodes[ROOTINO].entries;
    assert Find(es, z) == |es|;
    var u := Next(c, Create(ROOTINO, z, T_FILE, q));
    var more := Counted(u.nodes[ROOTINO], true);
    var slot := Vacant(es);
    assert slot >= 2;
    assert more[slot - 1] == Entry(q, z);
    OccPositive(more, slot - 1);
    var dots := Counted(u.nodes[dp], true);
    assert dots[0] == c.nodes[dp].entries[1];
    OccPositive(dots, 0);
    RefsOfTwo(u.nodes, Linked(u.nodes), dp, ROOTINO, q);
  }

  lemma RefsOfTwo(ns: Nodes, attached: set<int>, d: int, e: int, i: int)
    requires d in ns && e in ns && d != e
    ensures Refs(ns, attached, i) >= Occ(Counted(ns[d], d in attached), i) + Occ(Counted(ns[e], e in attached), i)
  {
    RefsSplit(ns, attached, ns.Keys, i, d);
    RefsSplit(ns, attached, ns.Keys - {d}, i, e);
  }

  /** Creating in dp leaves the counts right for ever if and only if dp still has a link. */
  lemma CreateSoundIff(t: Tree, dp: int, name: string, kind: int, ip: int)
    requires Inv(t) && IsDir(t.nodes, dp) && Find(t.nodes[dp].entries, name) == |t.nodes[dp].entries|
    requires 0 < ip && ip !in t.nodes
    ensures AlwaysRight(CreateNext(t, dp, name, kind, ip)) <==> t.nodes[dp].nlink > 0
  {
    hide Inv, Find, CreateNext, AlwaysRight, Refs, Linked, Enabled, Next;
    LinkedIffNamed(t, dp);
    if t.nodes[dp].nlink > 0 {
      if kind == T_DIR { CreateDirKeeps(t, dp, name, ip); } else { CreateFileKeeps(t, dp, name, kind, ip); }
      InvAlwaysRight(CreateNext(t, dp, name, kind, ip));
    } else if kind == T_DIR {
      DirUnderDead(t, dp, name, ip);
    } else {
      FileUnderDead(t, dp, name, kind, ip);
      WrongNext(CreateNext(t, dp, name, kind, ip), Free(dp), ip);
    }
  }

  /** And so with the entry sys_link makes. */
  lemma EnterSoundIff(t: Tree, ip: int, dp: int, name: string)
    requires Inv(t) && ip in t.linking && IsDir(t.nodes, dp)
    requires Find(t.nodes[dp].entries, name) == |t.nodes[dp].entries|
    ensures AlwaysRight(EnterNext(t, ip, dp, name)) <==> t.nodes[dp].nlink > 0
  {
    hide Inv, Find, EnterNext, AlwaysRight, Refs, Linked, Enabled, Next;
    LinkedIffNamed(t, dp);
    if t.nodes[dp].nlink > 0 {
      EnterKeeps(t, ip, dp, name);
      InvAlwaysRight(EnterNext(t, ip, dp, name));
    } else {
      LinkUnderDead(t, ip, dp, name);
      WrongNext(EnterNext(t, ip, dp, name), Free(dp), ip);
    }
  }

  /**
   From the root mkfs makes: mkdir and rmdir of "d" while somebody has it open, a file created
   in it, and the directory freed. The file keeps link count 1 and no entry names it.
   */
  lemma OrphanedFile() returns (t: Tree)
    ensures Run(Root(), [Create(ROOTINO, "d", T_DIR, 2), Unlink(ROOTINO, "d")], t)
    ensures IsDir(t.nodes, 2) && t.nodes[2].nlink == 0 && Enabled(CreateNext(t, 2, "f", T_FILE, 3), Free(2))
    ensures
      var u := Next(CreateNext(t, 2, "f", T_FILE, 3), Free(2));
      3 in u.nodes && u.nodes[3].nlink == 1 && Refs(u.nodes, Linked(u.nodes), 3) + u.linking[3] == 0
  {
    hide *;
    var mk, rm := Create(ROOTINO, "d", T_DIR, 2), Unlink(ROOTINO, "d");
    t := MadeAndRemoved();
    RunTwo(Root(), mk, rm);
    RootSound();
    RunKeeps(Root(), [mk, rm], t);
    FileUnderDead(t, 2, "f", T_FILE, 3);
  }

  lemma RunTwo(t: Tree, a: Op, b: Op)
    requires Enabled(t, a) && Enabled(Next(t, a), b)
    ensures Run(t, [a, b], Next(Next(t, a), b))
  {
    hide Enabled, Next;
    assert [a, b][1..] == [b] && [b][1..] == [];
    assert Run(Next(t, a), [b], Next(Next(t, a), b));
  }

  lemma MadeAndRemoved() returns (t: Tree)
    ensures var mk, rm := Create(ROOTINO, "d", T_DIR, 2), Unlink(ROOTINO, "d");
            Enabled(Root(), mk) && Enabled(Next(Root(), mk), rm) && t == Next(Next(Root(), mk), rm)
    ensures IsDir(t.nodes, 2) && t.nodes[2].nlink == 0 && 3 !in t.nodes && T_FILE != T_DIR
  {
    var mk, rm := Create(ROOTINO, "d", T_DIR, 2), Unlink(ROOTINO, "d");
    var es := Dots(ROOTINO, ROOTINO);
    assert Find(es, "d") == 2 && Vacant(es) == 2;
    var s := Next(Root(), mk);
    assert s.nodes[ROOTINO].entries == es + [Entry(2, "d")];
    assert Find(es + [Entry(2, "d")], "d") == 2;
    t := Next(s, rm);
  }
}
