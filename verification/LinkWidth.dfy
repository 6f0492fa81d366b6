/**
 The same system calls with the link count as it is stored, a 16-bit signed field
 (kernel/file.h, kernel/fs.h). Nothing in sys_link or create stops a count at its largest
 value: the next link makes it negative, and sys_unlink of any of the links then panics.
 */
module LinkWidth {
  import opened Links

  const SHRT_MAX: int := 0x7FFF

  function Short(n: int): int {
    (n + SHRT_MAX + 1) % (2 * SHRT_MAX + 2) - SHRT_MAX - 1
  }

  function Narrow(t: Tree): Tree {
    t.(nodes := map i | i in t.nodes :: t.nodes[i].(nlink := Short(t.nodes[i].nlink)))
  }

  ghost function NextShort(t: Tree, op: Op): Tree
    requires Enabled(t, op)
  {
    Narrow(Next(t, op))
  }

  ghost predicate RunShort(t: Tree, ops: seq<Op>, t': Tree)
    decreases |ops|
  {
    if ops == [] then t == t'
    else Enabled(t, ops[0]) && RunShort(NextShort(t, ops[0]), ops[1..], t')
  }

  ghost predicate Fits(t: Tree) {
    forall i :: i in t.nodes ==> 0 <= t.nodes[i].nlink <= SHRT_MAX
  }

  /** What a caller can check: no count that the step raises is at its largest value. */
  ghost predicate Room(t: Tree, op: Op) {
    match op
    case Create(dp, _, kind, _) => kind == T_DIR && dp in t.nodes ==> t.nodes[dp].nlink < SHRT_MAX
    case Raise(ip) => ip in t.nodes ==> t.nodes[ip].nlink < SHRT_MAX
    case _ => true
  }

  ghost predicate RoomThroughout(t: Tree, ops: seq<Op>)
    decreases |ops|
  {
    ops == [] ||
    (Enabled(t, ops[0]) && Room(t, ops[0]) && RoomThroughout(NextShort(t, ops[0]), ops[1..]))
  }

  ghost predicate RightThroughout(t: Tree, ops: seq<Op>)
    decreases |ops|
  {
    && CountsRight(t)
    && (ops == [] || (Enabled(t, ops[0]) && RightThroughout(NextShort(t, ops[0]), ops[1..])))
  }

  lemma NarrowSame(t: Tree)
    requires Fits(t)
    ensures Narrow(t) == t
  {
    forall i | i in t.nodes ensures Narrow(t).nodes[i] == t.nodes[i] {
      assert Short(t.nodes[i].nlink) == t.nodes[i].nlink;
    }
    assert Narrow(t).nodes == t.nodes;
  }

  /** With room, the step gives the counts the unbounded machine gives. */
  lemma RoomKeepsFit(t: Tree, op: Op)
    requires Inv(t) && Fits(t) && Enabled(t, op) && Room(t, op)
    ensures NextShort(t, op) == Next(t, op) && Fits(Next(t, op))
  {
    hide Shape, Nested, Find, Refs;
    var n := Next(t, op);
    NextKeeps(t, op);
    forall i | i in n.nodes ensures 0 <= n.nodes[i].nlink <= SHRT_MAX {
      assert n.nodes[i].nlink == Refs(n.nodes, Attached(n), i) + n.linking[i];
    }
    NarrowSame(n);
  }

  /** Without room, a count goes negative. */
  lemma NoRoom(t: Tree, op: Op) returns (i: int)
    requires Fits(t) && Enabled(t, op) && !Room(t, op)
    ensures i in NextShort(t, op).nodes && NextShort(t, op).nodes[i].nlink < 0 && !CountsRight(NextShort(t, op))
  {
    hide Find, Refs, Linked;
    i := if op.Raise? then op.ip else op.dp;
    assert Next(t, op).nodes[i].nlink == SHRT_MAX + 1;
    var n := NextShort(t, op);
    assert n.nodes[i].nlink < 0 <= Refs(n.nodes, Linked(n.nodes), i) + n.linking[i];
  }

  /**
   The counts are right in every state of a run if and only if the run never raises a count
   that is at its largest value.
   */
  lemma {:induction false} RightIffRoom(t: Tree, ops: seq<Op>, t': Tree)
    requires Inv(t) && Fits(t) && RunShort(t, ops, t')
    ensures RightThroughout(t, ops) <==> RoomThroughout(t, ops)
    decreases |ops|
  {
    hide Inv, Fits, Enabled, Room, CountsRight, NextShort, Next;
    InvCounts(t);
    if ops != [] {
      if Room(t, ops[0]) {
        RoomKeepsFit(t, ops[0]);
        NextKeeps(t, ops[0]);
        RightIffRoom(NextShort(t, ops[0]), ops[1..], t');
      } else {
        var i := NoRoom(t, ops[0]);
        assert !RightThroughout(NextShort(t, ops[0]), ops[1..]);
      }
    }
  }

  /** A run with room is a run of the unbounded machine, to the same state. */
  lemma {:induction false} SameRun(t: Tree, ops: seq<Op>, t': Tree)
    requires Inv(t) && Fits(t) && RunShort(t, ops, t') && RoomThroughout(t, ops)
    ensures Run(t, ops, t') && Inv(t') && Fits(t')
    decreases |ops|
  {
    hide Inv, Fits, Enabled, Room, NextShort, Next;
    if ops != [] {
      RoomKeepsFit(t, ops[0]);
      NextKeeps(t, ops[0]);
      SameRun(NextShort(t, ops[0]), ops[1..], t');
    }
  }

  lemma RootFits()
    ensures Inv(Root()) && Fits(Root())
  {
    RootSound();
  }

  /** sys_unlink reaches its panic for this entry. */
  ghost predicate UnlinkPanics(t: Tree, dp: int, name: string)
    requires Enabled(t, Unlink(dp, name))
  {
    t.nodes[t.nodes[dp].entries[Find(t.nodes[dp].entries, name)].inum].nlink < 1
  }

  /** With room throughout, sys_unlink does not panic. */
  lemma NoPanicWithRoom(ops: seq<Op>, t: Tree, dp: int, name: string)
    requires RunShort(Root(), ops, t) && RoomThroughout(Root(), ops) && Enabled(t, Unlink(dp, name))
    ensures !UnlinkPanics(t, dp, name)
  {
    hide Inv, Fits, Run, RunShort, RoomThroughout;
    RootFits();
    SameRun(Root(), ops, t);
    UnlinkNeverPanics(ops, t, dp, name);
  }

  // ---- the run that goes over

  /** Inode 2 is a file, the root can take entries, and no link is under way. */
  ghost predicate Linkable(t: Tree, links: nat) {
    && Inv(t) && Fits(t) && t.linking == multiset{}
    && IsDir(t.nodes, ROOTINO) && t.nodes[ROOTINO].nlink > 0
    && 2 in t.nodes && t.nodes[2].kind == T_FILE && t.nodes[2].nlink == links
  }

  lemma {:induction false} RunOneMore(t: Tree, ops: seq<Op>, t': Tree, op: Op)
    requires RunShort(t, ops, t') && Enabled(t', op)
    ensures RunShort(t, ops + [op], NextShort(t', op))
    decreases |ops|
  {
    hide Enabled, NextShort;
    if ops == [] {
      assert ops + [op] == [op];
    } else {
      assert (ops + [op])[1..] == ops[1..] + [op];
      RunOneMore(NextShort(t, ops[0]), ops[1..], t', op);
    }
  }

  lemma Unfound(es: seq<Entry>, name: string)
    requires forall k :: 0 <= k < |es| ==> |es[k].name| < |name|
    ensures Find(es, name) == |es|
  {
  }

  /** A file with one link. */
  lemma FirstLink() returns (t: Tree)
    ensures Enabled(Root(), Create(ROOTINO, "a", T_FILE, 2))
    ensures t == NextShort(Root(), Create(ROOTINO, "a", T_FILE, 2)) && Linkable(t, 1)
  {
    hide Inv, Fits, Refs;
    RootFits();
    var es := Dots(ROOTINO, ROOTINO);
    assert Find(es, "a") == |es|;
    RoomKeepsFit(Root(), Create(ROOTINO, "a", T_FILE, 2));
    NextKeeps(Root(), Create(ROOTINO, "a", T_FILE, 2));
    t := NextShort(Root(), Create(ROOTINO, "a", T_FILE, 2));
  }

  /** link, under a name the root does not have */
  lemma OneMoreLink(t: Tree, links: nat) returns (name: string, u: Tree)
    requires Linkable(t, links) && links < SHRT_MAX
    ensures Enabled(t, Raise(2)) && Enabled(NextShort(t, Raise(2)), Enter(2, ROOTINO, name))
    ensures u == NextShort(NextShort(t, Raise(2)), Enter(2, ROOTINO, name)) && Linkable(u, links + 1)
  {
    hide Inv, Fits, Refs, Placed, Find, Narrow;
    name := FreshName(t.nodes[ROOTINO].entries);
    Unfound(t.nodes[ROOTINO].entries, name);
    RoomKeepsFit(t, Raise(2));
    NextKeeps(t, Raise(2));
    var r := NextShort(t, Raise(2));
    RoomKeepsFit(r, Enter(2, ROOTINO, name));
    NextKeeps(r, Enter(2, ROOTINO, name));
    u := NextShort(r, Enter(2, ROOTINO, name));
  }

  lemma {:induction false} ManyLinks(links: nat) returns (ops: seq<Op>, t: Tree)
    requires 1 <= links <= SHRT_MAX
    ensures RunShort(Root(), ops, t) && Linkable(t, links)
    decreases links
  {
    hide Linkable, NextShort, Enabled, RunShort;
    if links == 1 {
      t := FirstLink();
      ops := [Create(ROOTINO, "a", T_FILE, 2)];
      assert RunShort(Root(), [], Root()) by { RunNone(); }
      RunOneMore(Root(), [], Root(), ops[0]);
      assert [] + ops == ops;
    } else {
      var ops1, s := ManyLinks(links - 1);
      var name, u := OneMoreLink(s, links - 1);
      RunOneMore(Root(), ops1, s, Raise(2));
      RunOneMore(Root(), ops1 + [Raise(2)], NextShort(s, Raise(2)), Enter(2, ROOTINO, name));
      ops, t := ops1 + [Raise(2)] + [Enter(2, ROOTINO, name)], u;
    }
  }

  lemma RunNone()
    ensures RunShort(Root(), [], Root())
  {
  }

  lemma Lookup(es: seq<Entry>, name: string, inum: int)
    requires inum != 0 && forall k :: 0 <= k < |es| ==> |es[k].name| < |name|
    ensures 0 <= Vacant(es) < |Placed(es, name, inum)|
    ensures Find(Placed(es, name, inum), name) == Vacant(es) && Placed(es, name, inum)[Vacant(es)].inum == inum
  {
    hide Vacant;
    var p := Placed(es, name, inum);
    assert Holds(p, Vacant(es), name);
  }

  /** The link past the last: the count is negative, and unlinking the new name panics. */
  lemma LinkTooMany(t: Tree) returns (name: string, u: Tree)
    requires Linkable(t, SHRT_MAX)
    ensures Enabled(t, Raise(2)) && Enabled(NextShort(t, Raise(2)), Enter(2, ROOTINO, name))
    ensures u == NextShort(NextShort(t, Raise(2)), Enter(2, ROOTINO, name))
    ensures Enabled(u, Unlink(ROOTINO, name)) && UnlinkPanics(u, ROOTINO, name)
  {
    hide Inv, Refs, Placed, Find, Vacant;
    var es := t.nodes[ROOTINO].entries;
    name := FreshName(es);
    name := name + "...";
    Unfound(es, name);
    Lookup(es, name, 2);
    var r := NextShort(t, Raise(2));
    assert r.nodes[ROOTINO] == t.nodes[ROOTINO].(nlink := Short(t.nodes[ROOTINO].nlink));
    u := NextShort(r, Enter(2, ROOTINO, name));
    assert u.nodes[ROOTINO].entries == Placed(es, name, 2);
    assert u.nodes[2].nlink < 0 && u.nodes[2].kind == T_FILE;
    assert |name| >= 3;
  }

  /** With 32768 links to one file, reached by create and link alone, unlink panics. */
  lemma TooManyLinks() returns (ops: seq<Op>, t: Tree, name: string)
    ensures RunShort(Root(), ops, t) && Enabled(t, Unlink(ROOTINO, name)) && UnlinkPanics(t, ROOTINO, name)
  {
    hide Linkable, NextShort, Enabled, RunShort, UnlinkPanics;
    var ops1, s := ManyLinks(SHRT_MAX);
    name, t := LinkTooMany(s);
    RunOneMore(Root(), ops1, s, Raise(2));
    RunOneMore(Root(), ops1 + [Raise(2)], NextShort(s, Raise(2)), Enter(2, ROOTINO, name));
    ops := ops1 + [Raise(2)] + [Enter(2, ROOTINO, name)];
  }
}
