/**
 What the directories of kernel/fs.c say, apart from the slots that say it: a table from
 directory and name to inode number, and the type of each inode. Every run of the directory
 calls does to the slots what it does to the table.
 */
module DirNames {
  import opened Links

  /** dirlookup's answer, 0 for none. */
  function Lookup(ns: Nodes, d: int, name: string): int {
    if !IsDir(ns, d) then 0
    else
      var k := Find(ns[d].entries, name);
      if k < |ns[d].entries| then ns[d].entries[k].inum else 0
  }

  // ---- the table

  datatype Table = Table(names: map<(int, string), int>, kinds: map<int, int>)

  function At(names: map<(int, string), int>, d: int, name: string): int {
    if (d, name) in names then names[(d, name)] else 0
  }

  function Effect(m: Table, op: Op): Table {
    match op
    case Create(dp, name, kind, ip) =>
      var names := m.names[(dp, name) := ip];
      Table(if kind == T_DIR then names[(ip, ".") := ip][(ip, "..") := dp] else names, m.kinds[ip := kind])
    case Enter(ip, dp, name) => m.(names := m.names[(dp, name) := ip])
    case Unlink(dp, name) => m.(names := m.names - {(dp, name)})
    case Free(ip) => Table(map key | key in m.names && key.0 != ip :: m.names[key], m.kinds - {ip})
    case _ => m
  }

  function Replay(ops: seq<Op>): Table
    decreases |ops|
  {
    if ops == [] then Table(map[(ROOTINO, ".") := ROOTINO, (ROOTINO, "..") := ROOTINO], map[ROOTINO := T_DIR])
    else Effect(Replay(ops[..|ops| - 1]), ops[|ops| - 1])
  }

  /** The directories say what the table says. */
  ghost predicate Says(ns: Nodes, m: Table) {
    && (forall d, name :: Lookup(ns, d, name) == At(m.names, d, name))
    && m.kinds == map i | i in ns :: ns[i].kind
  }

  // ---- looking a name up in slots

  /** Names are not repeated, so any slot that holds the name is the one found. */
  lemma FindIs(d: int, es: seq<Entry>, k: int, name: string)
    requires DirShape(d, es) && Holds(es, k, name)
    ensures Find(es, name) == k
  {
    hide Find;
  }

  lemma FindNone(es: seq<Entry>, name: string)
    requires forall k :: 0 <= k < |es| ==> !Holds(es, k, name)
    ensures Find(es, name) == |es|
  {
    hide Find;
  }

  lemma FindPlaced(d: int, es: seq<Entry>, name: string, c: int, other: string)
    requires DirShape(d, es) && d != 0 && Find(es, name) == |es| && c != 0
    ensures
      var es' := Placed(es, name, c);
      var k := Find(es', other);
      if other == name then k < |es'| && es'[k].inum == c
      else if Find(es, other) < |es| then k < |es'| && es'[k].inum == es[Find(es, other)].inum
      else k == |es'|
  {
    hide Find, Vacant;
    PlacedShape(d, es, name, c);
    var es' := Placed(es, name, c);
    var v := Vacant(es);
    if other == name {
      FindIs(d, es', v, name);
    } else if Find(es, other) < |es| {
      FindIs(d, es', Find(es, other), other);
    } else {
      forall k | 0 <= k < |es'| ensures !Holds(es', k, other) {
        assert k != v ==> es'[k] == es[k];
      }
      FindNone(es', other);
    }
  }

  lemma FindCleared(d: int, es: seq<Entry>, k: int, name: string, other: string)
    requires DirShape(d, es) && 2 <= k < |es| && Holds(es, k, name)
    ensures
      var es' := es[k := CLEARED];
      var j := Find(es', other);
      if other == name || Find(es, other) == |es| then j == |es'|
      else j < |es'| && es'[j].inum == es[Find(es, other)].inum
  {
    hide Find;
    var es' := es[k := CLEARED];
    FindIs(d, es, k, name);
    if other == name || Find(es, other) == |es| {
      forall j | 0 <= j < |es'| ensures !Holds(es', j, other) {
        assert j != k ==> es'[j] == es[j];
      }
      FindNone(es', other);
    } else {
      ClearedUnique(d, es, k);
      FindIs(d, es', Find(es, other), other);
    }
  }

  lemma ClearedUnique(d: int, es: seq<Entry>, k: int)
    requires DirShape(d, es) && 2 <= k < |es|
    ensures DirShape(d, es[k := CLEARED])
  {
  }

  lemma FindDots(ip: int, dp: int, name: string)
    requires ip != 0 && dp != 0
    ensures
      var k := Find(Dots(ip, dp), name);
      if name == "." then k == 0 else if name == ".." then k == 1 else k == 2
  {
    hide Find;
    var es := Dots(ip, dp);
    assert es[0] == Entry(ip, ".") && es[1] == Entry(dp, "..");
  }

  // ---- each step

  /** A new inode has the type asked for, its name leads to it, and no other name changes. */
  lemma CreateSays(t: Tree, m: Table, dp: int, name: string, kind: int, ip: int)
    requires Shape(t.nodes) && Says(t.nodes, m) && IsDir(t.nodes, dp) && ip > 0 && ip !in t.nodes
    requires Find(t.nodes[dp].entries, name) == |t.nodes[dp].entries|
    ensures
      var t' := CreateNext(t, dp, name, kind, ip);
      && Says(t'.nodes, Effect(m, Op.Create(dp, name, kind, ip)))
      && ip in t'.nodes && t'.nodes[ip].kind == kind && Lookup(t'.nodes, dp, name) == ip
  {
    hide Find, Placed, Dots, Lookup, Shape;
    var t' := CreateNext(t, dp, name, kind, ip);
    var m' := Effect(m, Op.Create(dp, name, kind, ip));
    forall d, other ensures Lookup(t'.nodes, d, other) == At(m'.names, d, other) {
      CreateLookup(t, m, dp, name, kind, ip, d, other);
    }
    CreateLookup(t, m, dp, name, kind, ip, dp, name);
    CreateKinds(t, m, dp, name, kind, ip);
  }

  lemma CreateLookup(t: Tree, m: Table, dp: int, name: string, kind: int, ip: int, d: int, other: string)
    requires Shape(t.nodes) && Says(t.nodes, m) && IsDir(t.nodes, dp) && ip > 0 && ip !in t.nodes
    requires Find(t.nodes[dp].entries, name) == |t.nodes[dp].entries|
    ensures
      var t' := CreateNext(t, dp, name, kind, ip);
      var m' := Effect(m, Op.Create(dp, name, kind, ip));
      Lookup(t'.nodes, d, other) == At(m'.names, d, other) && At(m'.names, dp, name) == ip
  {
    hide Find, Placed, Dots;
    assert DirShape(dp, t.nodes[dp].entries);
    assert Lookup(t.nodes, d, other) == At(m.names, d, other);
    if d == dp {
      FindPlaced(dp, t.nodes[dp].entries, name, ip, other);
    } else if d == ip && kind == T_DIR {
      FindDots(ip, dp, other);
      DotsAre(ip, dp);
    }
  }

  lemma CreateKinds(t: Tree, m: Table, dp: int, name: string, kind: int, ip: int)
    requires Says(t.nodes, m) && IsDir(t.nodes, dp) && ip !in t.nodes
    ensures
      var t' := CreateNext(t, dp, name, kind, ip);
      var m' := Effect(m, Op.Create(dp, name, kind, ip));
      && m'.kinds == (map i | i in t'.nodes :: t'.nodes[i].kind)
      && ip in t'.nodes && t'.nodes[ip].kind == kind
  {
    hide Find, Placed, Dots, Lookup, At;
  }

  lemma DotsAre(ip: int, dp: int)
    ensures Dots(ip, dp) == [Entry(ip, "."), Entry(dp, "..")]
  {
  }

  lemma EnterSays(t: Tree, m: Table, ip: int, dp: int, name: string)
    requires Shape(t.nodes) && Says(t.nodes, m) && IsDir(t.nodes, dp) && ip != 0
    requires Find(t.nodes[dp].entries, name) == |t.nodes[dp].entries|
    ensures
      var t' := EnterNext(t, ip, dp, name);
      Says(t'.nodes, Effect(m, Enter(ip, dp, name))) && Lookup(t'.nodes, dp, name) == ip
  {
    hide Find, Placed;
    var t' := EnterNext(t, ip, dp, name);
    var m' := Effect(m, Enter(ip, dp, name));
    assert DirShape(dp, t.nodes[dp].entries);
    forall d, other ensures Lookup(t'.nodes, d, other) == At(m'.names, d, other) {
      assert Lookup(t.nodes, d, other) == At(m.names, d, other);
      if d == dp {
        FindPlaced(dp, t.nodes[dp].entries, name, ip, other);
      }
    }
    FindPlaced(dp, t.nodes[dp].entries, name, ip, name);
    assert m'.kinds == map i | i in t'.nodes :: t'.nodes[i].kind;
  }

  lemma UnlinkSays(t: Tree, m: Table, dp: int, name: string)
    requires Inv(t) && Says(t.nodes, m) && Enabled(t, Unlink(dp, name))
    ensures
      var t' := Next(t, Unlink(dp, name));
      Says(t'.nodes, Effect(m, Unlink(dp, name))) && Lookup(t'.nodes, dp, name) == 0
  {
    hide Find, Nested, Counts;
    var t' := Next(t, Unlink(dp, name));
    var m' := Effect(m, Unlink(dp, name));
    var es := t.nodes[dp].entries;
    assert DirShape(dp, es);
    FoundPastDots(t.nodes, dp, name);
    var k := Find(es, name);
    assert es[k].inum == dp ==> !Empty(es);
    assert t'.nodes[dp].entries == es[k := CLEARED];
    forall d, other ensures Lookup(t'.nodes, d, other) == At(m'.names, d, other) {
      assert Lookup(t.nodes, d, other) == At(m.names, d, other);
      if d == dp {
        FindCleared(dp, es, k, name, other);
      }
    }
    FindCleared(dp, es, k, name, name);
    assert m'.kinds == map i | i in t'.nodes :: t'.nodes[i].kind;
  }

  lemma CountSays(t: Tree, m: Table, ip: int, nlink: int)
    requires Says(t.nodes, m) && ip in t.nodes
    ensures Says(t.nodes[ip := t.nodes[ip].(nlink := nlink)], m)
  {
    hide Find;
    var ns := t.nodes[ip := t.nodes[ip].(nlink := nlink)];
    forall d, name ensures Lookup(ns, d, name) == At(m.names, d, name) {
      assert Lookup(t.nodes, d, name) == At(m.names, d, name);
    }
    assert m.kinds == map i | i in ns :: ns[i].kind;
  }

  lemma FreeSays(t: Tree, m: Table, ip: int)
    requires Says(t.nodes, m) && ip in t.nodes
    ensures Says(FreeNext(t, ip).nodes, Effect(m, Free(ip)))
  {
    hide Find;
    var ns := FreeNext(t, ip).nodes;
    var m' := Effect(m, Free(ip));
    forall d, name ensures Lookup(ns, d, name) == At(m'.names, d, name) {
      assert Lookup(t.nodes, d, name) == At(m.names, d, name);
    }
    assert m'.kinds == map i | i in ns :: ns[i].kind;
  }

  lemma NextSays(t: Tree, m: Table, op: Op)
    requires Inv(t) && Enabled(t, op) && Says(t.nodes, m)
    ensures Says(Next(t, op).nodes, Effect(m, op))
  {
    hide Find, Nested, Counts, Says, CreateNext, EnterNext, FreeNext, Lookup;
    match op
    case Create(dp, name, kind, ip) => CreateSays(t, m, dp, name, kind, ip);
    case Raise(ip) => CountSays(t, m, ip, t.nodes[ip].nlink + 1);
    case Enter(ip, dp, name) =>
      LinkingPositive(t, ip);
      EnterSays(t, m, ip, dp, name);
    case Lower(ip) => CountSays(t, m, ip, t.nodes[ip].nlink - 1);
    case Unlink(dp, name) => UnlinkSays(t, m, dp, name);
    case Free(ip) => FreeSays(t, m, ip);
  }

  lemma LinkingPositive(t: Tree, ip: int)
    requires Inv(t) && ip in t.linking
    ensures ip > 0
  {
    hide Nested, Refs;
  }

  lemma RootSays()
    ensures Says(Root().nodes, Replay([]))
  {
    hide Find, Dots;
    var ns := Root().nodes;
    var m := Replay([]);
    DotsAre(ROOTINO, ROOTINO);
    forall d, name ensures Lookup(ns, d, name) == At(m.names, d, name) {
      FindDots(ROOTINO, ROOTINO, name);
    }
    assert m.kinds == map i | i in ns :: ns[i].kind;
  }

  lemma {:induction false} RunSays(done: seq<Op>, t: Tree, ops: seq<Op>, t': Tree)
    requires Inv(t) && Run(t, ops, t') && Says(t.nodes, Replay(done))
    ensures Says(t'.nodes, Replay(done + ops))
    decreases |ops|
  {
    hide Inv, Enabled, Next, Says, Effect;
    if ops == [] {
      assert done + ops == done;
    } else {
      NextSays(t, Replay(done), ops[0]);
      NextKeeps(t, ops[0]);
      var more := done + [ops[0]];
      assert more[..|more| - 1] == done;
      RunSays(more, Next(t, ops[0]), ops[1..], t');
      assert more + ops[1..] == done + ops;
    }
  }

  /**
   After every run, looking a name up gives what the calls made of it: the inode last entered
   under the name, none once it is unlinked; and each inode has the type it was created with.
   */
  lemma NamesFollowCalls(ops: seq<Op>, t: Tree)
    requires Run(Root(), ops, t)
    ensures forall d, name :: Lookup(t.nodes, d, name) == At(Replay(ops).names, d, name)
    ensures (map i | i in t.nodes :: t.nodes[i].kind) == Replay(ops).kinds
  {
    hide Run, Inv, Lookup, At, Replay;
    RootSound();
    RootSays();
    RunSays([], Root(), ops, t);
    assert [] + ops == ops;
  }
}
