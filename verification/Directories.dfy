/**
 The directory system calls of kernel/sysfile.c over the entries of kernel/fs.c, updating
 inodes in place. Each call that succeeds is one step of the Links model.
 */
module Directories {
  import opened Links
  import opened DirNames

  class Inodes {
    var nodes: Nodes
    ghost var home: map<int, (int, int)>
    ghost var linking: multiset<int>

    ghost function Now(): Tree
      reads this
    {
      Tree(nodes, home, linking)
    }

    /** dirlookup: the first slot with the name, |entries| if there is none */
    method Dirlookup(dp: int, name: string) returns (k: int)
      requires IsDir(nodes, dp)
      ensures k == Find(nodes[dp].entries, name)
    {
      var es := nodes[dp].entries;
      k := 0;
      while k < |es|
        invariant 0 <= k <= |es|
        invariant forall j :: 0 <= j < k ==> es[j].inum == 0 || es[j].name != name
      {
        if es[k].inum != 0 && es[k].name == name {
          break;
        }
        k := k + 1;
      }
    }

    method Isdirempty(dp: int) returns (r: bool)
      requires dp in nodes
      ensures r <==> Empty(nodes[dp].entries)
    {
      var es := nodes[dp].entries;
      var k := 2;
      while k < |es|
        invariant 2 <= k && forall j :: 2 <= j < k && j < |es| ==> es[j].inum == 0
      {
        if es[k].inum != 0 {
          return false;
        }
        k := k + 1;
      }
      r := true;
    }

    method FindVacant(dp: int) returns (k: int)
      requires dp in nodes
      ensures k == Vacant(nodes[dp].entries)
    {
      var es := nodes[dp].entries;
      k := 0;
      while k < |es|
        invariant 0 <= k <= |es|
        invariant forall j :: 0 <= j < k ==> es[j].inum != 0
      {
        if es[k].inum == 0 {
          break;
        }
        k := k + 1;
      }
    }

    /** A name that is there already changes nothing; otherwise it takes the first empty slot. */
    method Dirlink(dp: int, name: string, inum: int) returns (ok: bool)
      requires IsDir(nodes, dp)
      modifies this`nodes
      ensures ok <==> old(Find(nodes[dp].entries, name) == |nodes[dp].entries|)
      ensures !ok ==> nodes == old(nodes)
      ensures ok ==> nodes == old(nodes[dp := WithEntries(nodes[dp], Placed(nodes[dp].entries, name, inum), 0)])
    {
      hide Find, Vacant;
      var k := Dirlookup(dp, name);
      if k < |nodes[dp].entries| {
        return false;
      }
      k := FindVacant(dp);
      nodes := nodes[dp := nodes[dp].(entries := Put(nodes[dp].entries, k, Entry(inum, name)))];
      ok := true;
    }

    /** The first two entries of a new directory. */
    method MakeDots(ip: int, dp: int)
      requires ip in nodes && nodes[ip].kind == T_DIR && nodes[ip].entries == [] && ip != 0
      modifies this`nodes
      ensures nodes == old(nodes[ip := nodes[ip].(entries := Dots(ip, dp))])
    {
      var ok := Dirlink(ip, ".", ip);
      assert nodes[ip].entries == [Entry(ip, ".")];
      assert Find([Entry(ip, ".")][..0], "..") == 0;
      ok := Dirlink(ip, "..", dp);
      assert nodes[ip].entries == Dots(ip, dp);
    }

    /**
     create, given the inode number ialloc would find. 0 means refused, -1 that ilock panics on
     a free inode, which only ".." of a directory without links can name.
     */
    method Create(dp: int, name: string, kind: int, next: int) returns (ip: int)
      requires Inv(Now()) && IsDir(nodes, dp)
      requires kind in {T_DIR, T_FILE, T_DEVICE} && 0 < next && next !in nodes
      modifies this
      ensures
        var found := old(Find(nodes[dp].entries, name) < |nodes[dp].entries|);
        && (AlwaysRight(Now()) <==> found || old(nodes[dp].nlink) > 0)
        && (found || old(nodes[dp].nlink) > 0 ==> Inv(Now()))
      ensures ip == -1 ==> name == ".." && old(nodes[dp].nlink) == 0
      ensures
        var es := old(nodes[dp].entries);
        var k := Find(es, name);
        if k == |es| then
          && ip == next && Now() == CreateNext(old(Now()), dp, name, kind, next)
          && ip in nodes && nodes[ip].kind == kind && Lookup(nodes, dp, name) == ip
        else
          && Now() == old(Now())
          && ip == if es[k].inum !in nodes then -1
                   else if kind == T_FILE && nodes[es[k].inum].kind in {T_FILE, T_DEVICE} then es[k].inum else 0
    {
      hide Inv, Find, Vacant, Placed, AlwaysRight, Lookup;
      ghost var t := Now();
      var k := Dirlookup(dp, name);
      if k < |nodes[dp].entries| {
        InvAlwaysRight(t);
        InUseUnlessDead(t, dp, name);
        ip := nodes[dp].entries[k].inum;
        if ip !in nodes {
          ip := -1;
        } else if kind != T_FILE || nodes[ip].kind !in {T_FILE, T_DEVICE} {
          ip := 0;
        }
        return;
      }
      ip := next;
      nodes := nodes[ip := Node(kind, 1, [])];
      if kind == T_DIR {
        nodes := nodes[dp := nodes[dp].(nlink := nodes[dp].nlink + 1)];
        MakeDots(ip, dp);
        home := home[ip := (dp, Vacant(t.nodes[dp].entries))];
      }
      var ok := Dirlink(dp, name, ip);
      assert nodes == CreateNext(t, dp, name, kind, ip).nodes;
      CreateFinds(t, dp, name, kind, ip);
      CreateSoundIff(t, dp, name, kind, ip);
      if t.nodes[dp].nlink > 0 {
        NextKeeps(t, Op.Create(dp, name, kind, ip));
      }
    }

    /** sys_link up to the point where it gives up the lock on ip */
    method LinkBegin(ip: int) returns (ok: bool)
      requires Inv(Now()) && ip in nodes
      modifies this
      ensures Inv(Now())
      ensures ok <==> old(nodes[ip].kind) != T_DIR
      ensures Now() == if ok then RaiseNext(old(Now()), ip) else old(Now())
    {
      hide Inv;
      if nodes[ip].kind == T_DIR {
        return false;
      }
      RaiseKeeps(Now(), ip);
      nodes := nodes[ip := nodes[ip].(nlink := nodes[ip].nlink + 1)];
      linking := linking + multiset{ip};
      ok := true;
    }

    /** The rest of sys_link; other calls may have run since LinkBegin. dp 0 means no such path. */
    method LinkEnd(ip: int, dp: int, name: string) returns (ok: bool)
      requires Inv(Now()) && ip in linking && (dp != 0 ==> IsDir(nodes, dp))
      modifies this
      ensures ip in old(nodes)
      ensures ok <==> dp != 0 && old(Find(nodes[dp].entries, name) == |nodes[dp].entries|)
      ensures AlwaysRight(Now()) <==> !ok || old(nodes[dp].nlink) > 0
      ensures !ok || old(nodes[dp].nlink) > 0 ==> Inv(Now())
      ensures Now() == if ok then EnterNext(old(Now()), ip, dp, name) else LowerNext(old(Now()), ip)
      ensures ok ==> Lookup(nodes, dp, name) == ip
    {
      hide Inv, Find, Vacant, Placed, AlwaysRight, Lookup;
      ghost var t := Now();
      LinkingInUse(t, ip);
      if dp != 0 {
        ok := Dirlink(dp, name, ip);
        if ok {
          linking := linking - multiset{ip};
          EnterSoundIff(t, ip, dp, name);
          EnterFinds(t, ip, dp, name);
          if t.nodes[dp].nlink > 0 {
            NextKeeps(t, Enter(ip, dp, name));
          }
          return;
        }
      }
      nodes := nodes[ip := nodes[ip].(nlink := nodes[ip].nlink - 1)];
      linking := linking - multiset{ip};
      NextKeeps(t, Lower(ip));
      InvAlwaysRight(Now());
      ok := false;
    }

    /** sys_unlink; its panic on a link count below 1 is shown unreachable */
    method Unlink(dp: int, name: string) returns (ok: bool)
      requires Inv(Now()) && IsDir(nodes, dp)
      modifies this
      ensures Inv(Now())
      ensures ok <==> Enabled(old(Now()), Op.Unlink(dp, name))
      ensures Now() == if ok then Next(old(Now()), Op.Unlink(dp, name)) else old(Now())
      ensures ok ==> Lookup(nodes, dp, name) == 0
    {
      hide Inv, Find, Empty, Lookup;
      ghost var t := Now();
      if name == "." || name == ".." {
        return false;
      }
      var k := Dirlookup(dp, name);
      if k == |nodes[dp].entries| {
        return false;
      }
      var ip := nodes[dp].entries[k].inum;
      FoundInUse(t, dp, name);
      assert nodes[ip].nlink >= 1;
      var dir := nodes[ip].kind == T_DIR;
      if dir {
        var empty := Isdirempty(ip);
        if !empty {
          return false;
        }
      }
      NotItself(t, dp, k);
      NextKeeps(t, Op.Unlink(dp, name));
      UnlinkFinds(t, dp, name);
      nodes := nodes[dp := nodes[dp].(entries := nodes[dp].entries[k := CLEARED])];
      if dir {
        nodes := nodes[dp := nodes[dp].(nlink := nodes[dp].nlink - 1)];
        home := home - {ip};
      }
      nodes := nodes[ip := nodes[ip].(nlink := nodes[ip].nlink - 1)];
      assert nodes == UnlinkNext(t, dp, k).nodes;
      ok := true;
    }

    /** iput dropping the last reference to an inode without links */
    method Iput(ip: int)
      requires Inv(Now()) && ip in nodes
      modifies this
      ensures Inv(Now())
      ensures Now() == if old(nodes[ip].nlink) == 0 then FreeNext(old(Now()), ip) else old(Now())
    {
      hide Inv;
      if nodes[ip].nlink == 0 {
        FreeKeeps(Now(), ip);
        nodes := nodes - {ip};
      }
    }
  }

  /** The name leads to the new inode; to the linked one; to none. */
  lemma CreateFinds(t: Tree, dp: int, name: string, kind: int, ip: int)
    requires Inv(t) && IsDir(t.nodes, dp) && ip > 0 && ip !in t.nodes
    requires Find(t.nodes[dp].entries, name) == |t.nodes[dp].entries|
    ensures Lookup(CreateNext(t, dp, name, kind, ip).nodes, dp, name) == ip
  {
    hide Find, Placed, Nested, Counts;
    assert DirShape(dp, t.nodes[dp].entries);
    FindPlaced(dp, t.nodes[dp].entries, name, ip, name);
  }

  lemma EnterFinds(t: Tree, ip: int, dp: int, name: string)
    requires Inv(t) && IsDir(t.nodes, dp) && ip in t.linking
    requires Find(t.nodes[dp].entries, name) == |t.nodes[dp].entries|
    ensures Lookup(EnterNext(t, ip, dp, name).nodes, dp, name) == ip
  {
    hide Find, Placed, Nested, Counts;
    LinkingPositive(t, ip);
    assert DirShape(dp, t.nodes[dp].entries);
    FindPlaced(dp, t.nodes[dp].entries, name, ip, name);
  }

  lemma UnlinkFinds(t: Tree, dp: int, name: string)
    requires Inv(t) && Enabled(t, Op.Unlink(dp, name))
    ensures Lookup(Next(t, Op.Unlink(dp, name)).nodes, dp, name) == 0
  {
    hide Find, Nested, Counts;
    var es := t.nodes[dp].entries;
    assert DirShape(dp, es);
    FoundPastDots(t.nodes, dp, name);
    var k := Find(es, name);
    NotItself(t, dp, k);
    FindCleared(dp, es, k, name, name);
  }

  /** What a lookup finds is in use; ".." may only be trusted while the directory is linked. */
  lemma FoundInUse(t: Tree, dp: int, name: string)
    requires Inv(t) && IsDir(t.nodes, dp) && Find(t.nodes[dp].entries, name) < |t.nodes[dp].entries|
    requires t.nodes[dp].nlink > 0 || (name != "." && name != "..")
    ensures
      var k := Find(t.nodes[dp].entries, name);
      var c := t.nodes[dp].entries[k].inum;
      c in t.nodes && (name != "." && name != ".." ==> k >= 2 && c != 0 && t.nodes[c].nlink >= 1)
  {
    hide Find, Counts;
    var k := Find(t.nodes[dp].entries, name);
    assert DirShape(dp, t.nodes[dp].entries);
    if name != "." && name != ".." {
      FoundPastDots(t.nodes, dp, name);
      NamedCounts(t, dp, k, t.nodes[dp].entries[k].inum);
    } else {
      DotsInUse(t, dp, k, name);
    }
  }

  lemma InUseUnlessDead(t: Tree, dp: int, name: string)
    requires Inv(t) && IsDir(t.nodes, dp) && Find(t.nodes[dp].entries, name) < |t.nodes[dp].entries|
    ensures
      var c := t.nodes[dp].entries[Find(t.nodes[dp].entries, name)].inum;
      c in t.nodes || (name == ".." && t.nodes[dp].nlink == 0)
    ensures -1 !in t.nodes
  {
    hide Find, Counts, Refs;
    LinkedIffNamed(t, dp);
    assert DirShape(dp, t.nodes[dp].entries);
    if t.nodes[dp].nlink > 0 || (name != "." && name != "..") {
      FoundInUse(t, dp, name);
    }
  }

  lemma DotsInUse(t: Tree, dp: int, k: int, name: string)
    requires Inv(t) && IsDir(t.nodes, dp) && t.nodes[dp].nlink > 0
    requires Holds(t.nodes[dp].entries, k, name) && (name == "." || name == "..")
    ensures t.nodes[dp].entries[k].inum in t.nodes
  {
    hide Counts;
    var es := t.nodes[dp].entries;
    assert DirShape(dp, es);
    LinkedIffNamed(t, dp);
    assert k < 2;
    if dp != ROOTINO {
      assert Names(t.nodes, t.home[dp].0, t.home[dp].1, dp);
    }
  }

  lemma LinkingInUse(t: Tree, ip: int)
    requires Inv(t) && ip in t.linking
    ensures ip in t.nodes && t.nodes[ip].kind != T_DIR
  {
  }

  /** A directory that is empty holds no entry for itself. */
  lemma NotItself(t: Tree, dp: int, k: int)
    requires Inv(t) && IsDir(t.nodes, dp) && 2 <= k < |t.nodes[dp].entries| && t.nodes[dp].entries[k].inum != 0
    ensures t.nodes[dp].entries[k].inum == dp ==> !Empty(t.nodes[dp].entries)
  {
  }
}
