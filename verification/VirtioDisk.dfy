/**
 The virtio disk driver, kernel/virtio_disk.c. A method of the driver is one stretch of code
 under vdisk_lock; Fetch and Complete are the device's steps.
 */
module VirtioDisk {
  import opened VirtioRing
  import opened VirtioIo

  class Disk {
    var q: Queue
    var m: Store
    ghost var g: Books
    ghost var reqs: map<int, Request>

    ghost predicate Valid()
      reads this
    {
      Sound(q, g) && Matched(q, m, g.chains, reqs)
    }

    /** The end of virtio_disk_init: every descriptor is free, every ring empty. */
    constructor (m: Store)
      ensures Valid() && g.chains == map[] && q.busy == map[] && this.m == m
    {
      this.m := m;
      reqs := map[];
      q := Queue(seq(NUM, _ => true), seq(NUM, _ => Desc(0, 0, 0, 0)), seq(NUM, _ => 0), 0,
                 seq(NUM, _ => 0), 0, 0, seq(NUM, _ => Info(NOBUF, 0)), map[]);
      g := Books(map[], map[], map[], [], 0, [], 0);
    }

    /** -1 when no descriptor is free */
    method AllocDesc() returns (i: int)
      requires |q.free| == NUM
      modifies this`q
      ensures i == -1 ==> q == old(q) && FreeSet(q.free) == {}
      ensures i != -1 ==> 0 <= i < NUM && old(q).free[i] && q == old(q).(free := old(q).free[i := false])
    {
      i := 0;
      while i < NUM
        invariant 0 <= i <= NUM && q == old(q) && forall j :: 0 <= j < i ==> !q.free[j]
      {
        if q.free[i] {
          q := q.(free := q.free[i := false]);
          return;
        }
        i := i + 1;
      }
      NoneFree(q.free);
      i := -1;
    }

    /** Its two panics are the preconditions. */
    method FreeDesc(i: int)
      requires 0 <= i < NUM == |q.free| == |q.desc| && !q.free[i]
      modifies this`q
      ensures q == Released(old(q), i)
    {
      q := q.(desc := Blanked(q.desc, i), free := q.free[i := true]);
    }

    /** Three descriptors, or none taken at all. */
    method AllocThree() returns (ok: bool, i0: int, i1: int, i2: int)
      requires Sized(q)
      modifies this`q
      ensures ok <==> |FreeSet(old(q).free)| >= 3
      ensures ok ==> ThreeFree(old(q).free, i0, i1, i2) && q == old(q).(free := Taken(old(q).free, i0, i1, i2))
      ensures !ok ==>
                && q == old(q).(desc := q.desc) && |q.desc| == NUM
                && forall k :: 0 <= k < NUM && !q.free[k] ==> q.desc[k] == old(q).desc[k]
    {
      ok, i1, i2 := false, -1, -1;
      i0 := AllocDesc();
      if i0 < 0 {
        return;
      }
      FreeLess(old(q).free, i0);
      ghost var q1 := q;
      i1 := AllocDesc();
      if i1 < 0 {
        FreeDesc(i0);
        assert q.free == old(q).free;
        return;
      }
      FreeLess(q1.free, i1);
      ghost var q2 := q;
      i2 := AllocDesc();
      if i2 < 0 {
        FreeDesc(i0);
        FreeDesc(i1);
        assert q.free == old(q).free;
        return;
      }
      FreeLess(q2.free, i2);
      ok := true;
    }

    /**
     virtio_disk_rw until it sleeps: the request is on its way, or no room for it was found.
     `header` is where buf0 lies on the kernel stack of the caller, who sleeps meanwhile.
     */
    method Submit(b: int, blockno: int, write: bool, header: int) returns (ok: bool, head: int)
      requires Valid() && b != NOBUF && (forall h :: h in g.chains ==> g.chains[h].b != b)
      requires b in m.mem && |m.mem[b]| == BSIZE && 0 <= blockno && BSIZE * blockno + BSIZE <= |m.platter|
      requires forall h :: h in reqs ==> reqs[h].header != header
      modifies this
      ensures Valid() && (ok <==> |old(g).chains| < 2) && m == old(m).(headers := m.headers)
      ensures ok ==> head !in old(g).chains && g.chains.Keys == old(g).chains.Keys + {head}
      ensures ok ==>
                g.chains[head].b == b && g.phase == old(g).phase[head := Offered] && q.busy == old(q).busy[b := true]
      ensures ok ==> reqs == old(reqs)[head := Request(write, blockno, header)]
      ensures ok ==>
        q.ring == old(q).ring[Place(old(q).availIdx) := head] && q.availIdx == (old(q).availIdx + 1) % SPAN
      ensures !ok ==> g == old(g) && q.busy == old(q).busy && m == old(m) && reqs == old(reqs)
    {
      hide Sound, Matched, Partition, Requests, Rings, Queued, Place, Offer, Taken, ThreeFree, Sized, HeaderOf, Given,
           FreeSet;
      ghost var r := Request(write, blockno, header);
      SubmitReady(q, g);
      var i0, i1, i2;
      ok, i0, i1, i2 := AllocThree();
      head := i0;
      if !ok {
        SoundParts(old(q), g);
        RolledBack(old(q), q, g);
        MatchedElsewhere(old(q), m, q, g.chains, g.owner, reqs);
        return;
      }
      SoundParts(old(q), g);
      InRange(old(q).free, i0, i1, i2);
      OfferSound(old(q), g, b, write, header, i0, i1, i2);
      NewHead(old(q), g, i0, i1, i2);
      MatchedOffer(old(q), m, g.chains, g.owner, reqs, b, r, i0, i1, i2);
      OfferIs(old(q), b, write, header, i0, i1, i2);
      HeaderIs(write, blockno, header);
      m := m.(headers := m.headers[header := Header(if write then 1 else 0, blockno * (1024 / 512))]);
      q := q.(desc := q.desc[i0 := Desc(header, 16, 1, i1)]);
      q := q.(desc := q.desc[i1 := Desc(b, 1024, if write then 0 else 2, i2)]);
      q := q.(desc := q.desc[i1 := q.desc[i1].(flags := q.desc[i1].flags + 1)]);
      q := q.(info := q.info[i0 := Info(q.info[i0].b, 0)]);
      q := q.(desc := q.desc[i2 := Desc(i0, 1, 2, 0)]);
      q := q.(busy := q.busy[b := true], info := q.info[i0 := q.info[i0].(b := b)]);
      PlaceTwice(q.availIdx);
      q := q.(ring := q.ring[Place(q.availIdx) := i0]);
      q := q.(availIdx := (q.availIdx + 1) % SPAN);
      assert q == Offer(old(q), b, write, header, i0, i1, i2).(free := Taken(old(q).free, i0, i1, i2));
      g := g.(chains := g.chains[i0 := Chain(i1, i2, b)], owner := Given(g.owner, i0, i1, i2),
              phase := g.phase[i0 := Offered], offered := g.offered + [i0]);
      reqs := reqs[i0 := r];
    }

    /** Frees exactly the three descriptors of the chain; free_desc's panics cannot happen. */
    method FreeChain(head: int, ghost c: Chain)
      requires Sized(q) && Ranged(head, c) && Linked(q, head, c) && head != c.mid && head != c.last && c.mid != c.last
      requires !q.free[head] && !q.free[c.mid] && !q.free[c.last]
      modifies this`q
      ensures q == Released(Released(Released(old(q), head), c.mid), c.last)
    {
      var i := head;
      ghost var k := 0;
      while true
        invariant 0 <= k <= 2 && i == (if k == 0 then head else if k == 1 then c.mid else c.last)
        invariant q == (if k == 0 then old(q) else if k == 1 then Released(old(q), head)
                else Released(Released(old(q), head), c.mid))
        decreases 3 - k
      {
        FreeDesc(i);
        if HasNext(q.desc[i].flags) {
          i := q.desc[i].next;
        } else {
          break;
        }
        k := k + 1;
      }
    }

    /** The end of virtio_disk_rw, once the interrupt handler has cleared the buffer's flag */
    method Finish(head: int)
      requires Valid() && head in g.phase && g.phase[head] == Seen
      modifies this
      ensures Valid() && head in old(g).chains && g == Dropped(old(g), head) && q.busy == old(q).busy
      ensures m == old(m) && reqs == old(reqs) - {head}
    {
      hide Sound, Partition, Requests, Rings, Queued, Place, Linked, Matched;
      SoundParts(q, g);
      RetireSound(q, g, head);
      MatchedRetire(q, m, g.chains, g.owner, reqs, head);
      FinishReady(q, g, head);
      ghost var c := g.chains[head];
      q := q.(info := q.info[head := q.info[head].(b := NOBUF)]);
      FreeChain(head, c);
      g := Dropped(g, head);
      reqs := reqs - {head};
    }

    /** virtio_disk_intr: every request the device has finished is seen, and no other */
    method Intr()
      requires Valid()
      modifies this
      ensures Valid() && m == old(m) && reqs == old(reqs)
      ensures g.done == [] && g.chains == old(g).chains && g.phase.Keys == old(g).phase.Keys
      ensures forall h :: h in g.phase ==> g.phase[h] == if old(g).phase[h] == Finished then Seen else old(g).phase[h]
      ensures forall h :: h in g.chains ==>
        h in old(g).phase && g.chains[h].b in q.busy
        && (q.busy[g.chains[h].b] <==> old(g).phase[h] !in {Finished, Seen})
    {
      hide Sound, Place, Mark, Matched;
      MarkIs(q, g);
      while Place(q.usedIdx) != Place(q.usedId)
        invariant q.desc == old(q).desc && m == old(m) && reqs == old(reqs)
        invariant Sound(q, g) && g.chains == old(g).chains && Mark(g.phase, g.done) == Mark(old(g).phase, old(g).done)
        decreases |g.done|
      {
        RingsFit(q, g);
        AckSound(q, g);
        var id := q.elems[q.usedIdx];
        assert q.info[id].status == 0;
        MarkNext(g.phase, g.done);
        q := q.(busy := q.busy[q.info[id].b := false]);
        q := q.(usedIdx := (q.usedIdx + 1) % NUM);
        g := g.(phase := g.phase[g.done[0] := Seen], done := g.done[1..], taken := g.taken + 1);
      }
      RingsFit(q, g);
      MarkNone(g.phase);
      BusyIs(q, g);
      MatchedFrame(old(q), m, q, m, g.chains, reqs);
    }

    // ---- the device

    /** index is the device's own 16-bit count of the requests it has fetched */
    method Fetch(index: int) returns (head: int)
      requires Valid() && g.offered != [] && index == g.fetched % SPAN && g.fetched >= 0
      modifies this`g
      ensures Valid() && head == old(g).offered[0]
      ensures g == old(g).(phase := old(g).phase[head := Fetched], offered := old(g).offered[1..],
              fetched := old(g).fetched + 1)
    {
      hide Sound, Place;
      FetchSound(q, g);
      PlaceOfCounter(g.fetched);
      head := q.ring[Place(index)];
      g := g.(phase := g.phase[head := Fetched], offered := g.offered[1..], fetched := g.fetched + 1);
    }

    /**
     Any request fetched may be the next to finish. It moves its block the way it was asked to,
     and the status it reports is the one the interrupt handler accepts.
     */
    method Complete(head: int)
      requires Valid() && head in g.phase && g.phase[head] == Fetched
      modifies this
      ensures Valid() && q.busy == old(q).busy && q.free == old(q).free && reqs == old(reqs)
      ensures g == old(g).(phase := old(g).phase[head := Finished], done := old(g).done + [head])
      ensures
        && head in g.chains && head in reqs && Asked(old(q), old(m), head, g.chains[head], reqs[head])
        && Moved(old(m), m, g.chains[head].b, reqs[head])
    {
      hide Sound, Place, Matched, Asked, Carry, Moved;
      InUse(q, m, g, reqs, head);
      CompleteSound(q, g, head);
      PlaceTwice(q.usedId);
      ghost var c := g.chains[head];
      CarriedOut(q, m, head, c, reqs[head]);
      var o := Carry(q, m, head);
      var status := q.desc[q.desc[q.desc[head].next].next].addr;
      m := m.(mem := o.mem, platter := o.platter);
      q := q.(info := q.info[status := q.info[status].(status := o.status)]);
      q := q.(elems := q.elems[Place(q.usedId) := head]);
      q := q.(usedId := (q.usedId + 1) % SPAN);
      g := g.(phase := g.phase[head := Finished], done := g.done + [head]);
      MovedSizes(old(m), m, c.b, reqs[head]);
      MatchedFrame(old(q), old(m), q, m, g.chains, reqs);
    }

    /** The owner of a buffer that is not in flight stores into it. */
    method Fill(b: int, data: seq<int>)
      requires Valid() && b in m.mem && |data| == BSIZE && forall h :: h in g.chains ==> g.chains[h].b != b
      modifies this`m
      ensures Valid() && m == old(m).(mem := old(m).mem[b := data])
    {
      hide Sound, Matched;
      ghost var was := m;
      m := m.(mem := m.mem[b := data]);
      assert m.mem.Keys == was.mem.Keys;
      MatchedFrame(q, was, q, m, g.chains, reqs);
    }
  }

  /** virtio_disk_rw from start to end, with nobody else at the disk. */
  method Transact(d: Disk, b: int, blockno: int, write: bool, header: int)
    requires d.Valid() && d.g.chains == map[] && b != NOBUF && b in d.m.mem && |d.m.mem[b]| == BSIZE
    requires 0 <= blockno && BSIZE * blockno + BSIZE <= |d.m.platter|
    modifies d
    ensures d.Valid() && d.g.chains == map[]
    ensures d.m.mem == if write then old(d.m.mem) else old(d.m.mem)[b := BlockOf(old(d.m.platter), blockno)]
    ensures d.m.platter == if write then WithBlock(old(d.m.platter), blockno, old(d.m.mem[b])) else old(d.m.platter)
  {
    hide Sound, Matched, Asked, Place;
    Idle(d.q, d.m, d.g, d.reqs);
    var ok, head := d.Submit(b, blockno, write, header);
    OneOffered(d.q, d.g, head);
    var again := d.Fetch((d.q.availIdx + SPAN - 1) % SPAN);
    d.Complete(head);
    d.Intr();
    d.Finish(head);
    assert d.g.chains.Keys == {};
  }

  /** A block written is the block read back. */
  method WriteRead(d: Disk, b: int, c: int, blockno: int, header: int)
    requires d.Valid() && d.g.chains == map[] && b != NOBUF && c != NOBUF && b in d.m.mem && c in d.m.mem
    requires |d.m.mem[b]| == BSIZE == |d.m.mem[c]| && 0 <= blockno && BSIZE * blockno + BSIZE <= |d.m.platter|
    modifies d
    ensures d.Valid() && d.m.mem == old(d.m.mem)[c := old(d.m.mem[b])]
  {
    hide Sound, Matched;
    Transact(d, b, blockno, true, header);
    WithBlockOf(old(d.m.platter), blockno, old(d.m.mem[b]), blockno);
    Transact(d, c, blockno, false, header);
  }

  lemma Idle(q: Queue, m: Store, g: Books, reqs: map<int, Request>)
    requires Sound(q, g) && Matched(q, m, g.chains, reqs) && g.chains == map[]
    ensures reqs == map[] && g.phase == map[] && g.offered == [] && g.fetched >= 0
  {
    hide Partition, Requests, Asked, Place;
    assert reqs.Keys == {} && g.phase.Keys == {};
    DistinctFit(g.offered, g.phase.Keys);
  }

  lemma OneOffered(q: Queue, g: Books, h: int)
    requires Sound(q, g) && g.phase == map[h := Offered]
    ensures g.offered == [h] && g.fetched >= 0 && (q.availIdx + SPAN - 1) % SPAN == g.fetched % SPAN
  {
    hide Partition, Requests, Place;
    assert h in g.offered;
    FirstOf(q.ring, g.fetched, g.offered, g.phase, Offered);
    assert g.phase.Keys == {h};
    DistinctFit(g.offered, g.phase.Keys);
    OneBefore(g.fetched);
  }

  lemma OneBefore(n: int)
    ensures ((n + 1) % SPAN + SPAN - 1) % SPAN == n % SPAN
  {
  }

  lemma InUse(q: Queue, m: Store, g: Books, reqs: map<int, Request>, h: int)
    requires Sound(q, g) && Matched(q, m, g.chains, reqs) && h in g.phase
    ensures h in g.chains && h in reqs && Asked(q, m, h, g.chains[h], reqs[h])
  {
    hide Partition, Requests, Rings, Asked;
  }

  lemma MovedSizes(m: Store, m': Store, b: int, r: Request)
    requires b in m.mem && |m.mem[b]| == BSIZE && 0 <= r.blockno && BSIZE * r.blockno + BSIZE <= |m.platter|
    requires Moved(m, m', b, r)
    ensures m'.headers == m.headers && |m'.platter| == |m.platter| && m'.mem.Keys == m.mem.Keys
    ensures forall x :: x in m.mem && |m.mem[x]| == BSIZE ==> |m'.mem[x]| == BSIZE
  {
  }

  lemma SoundParts(q: Queue, g: Books)
    requires Sound(q, g)
    ensures Partition(q.free, g.chains, g.owner) && Sized(q) && |q.free| == NUM == |q.desc|
  {
    hide Claims, Belongs, Linked, Queued;
  }

  lemma InRange(free: seq<bool>, i0: int, i1: int, i2: int)
    requires ThreeFree(free, i0, i1, i2)
    ensures 0 <= i0 < |free| && 0 <= i1 < |free| && 0 <= i2 < |free|
  {
  }

  lemma HeaderIs(write: bool, blockno: int, header: int)
    ensures HeaderOf(Request(write, blockno, header)) == Header(if write then 1 else 0, blockno * (1024 / 512))
  {
  }

  lemma OfferIs(q: Queue, b: int, write: bool, header: int, i0: int, i1: int, i2: int)
    requires Sized(q) && 0 <= i0 < NUM && 0 <= i1 < NUM && 0 <= i2 < NUM && i0 != i1
    ensures |q.desc| == |q.info| == |q.ring| == |q.free| == NUM && 0 <= Place(q.availIdx) < NUM
    ensures
      var desc := q.desc[i0 := Desc(header, 16, 1, i1)];
      var half := desc[i1 := Desc(b, 1024, if write then 0 else 2, i2)];
      var data := half[i1 := half[i1].(flags := half[i1].flags + 1)];
      Offer(q, b, write, header, i0, i1, i2) ==
      q.(desc := data[i2 := Desc(i0, 1, 2, 0)],
         info := q.info[i0 := Info(q.info[i0].b, 0)][i0 := q.info[i0 := Info(q.info[i0].b, 0)][i0].(b := b)],
         busy := q.busy[b := true],
         ring := q.ring[Place(q.availIdx) := i0],
         availIdx := (q.availIdx + 1) % SPAN)
  {
    var desc := q.desc[i0 := Desc(header, 16, 1, i1)];
    assert desc[i1 := Desc(b, 1024, if write then 0 else 2, i2)][i1 := Desc(b, 1024, if write then 1 else 3, i2)]
        == desc[i1 := Desc(b, 1024, if write then 1 else 3, i2)];
    assert q.info[i0 := Info(q.info[i0].b, 0)][i0 := Info(b, 0)] == q.info[i0 := Info(b, 0)];
  }

  lemma BusyIs(q: Queue, g: Books)
    requires Sound(q, g)
    ensures g.phase.Keys == g.chains.Keys
    ensures forall h :: h in g.chains ==> g.chains[h].b in q.busy && (q.busy[g.chains[h].b] <==> g.phase[h] != Seen)
  {
    hide Partition, Requests, Rings;
  }

  /** All of these heads seen. */
  function Mark(phase: map<int, Phase>, heads: seq<int>): map<int, Phase>
    decreases |heads|
  {
    if heads == [] then phase else Mark(phase[heads[0] := Seen], heads[1..])
  }

  lemma MarkNone(phase: map<int, Phase>)
    ensures Mark(phase, []) == phase
  {
  }

  lemma MarkNext(phase: map<int, Phase>, heads: seq<int>)
    requires heads != []
    ensures Mark(phase, heads) == Mark(phase[heads[0] := Seen], heads[1..])
  {
  }

  lemma {:induction false} MarkAll(phase: map<int, Phase>, heads: seq<int>)
    requires forall k :: 0 <= k < |heads| ==> heads[k] in phase
    ensures Mark(phase, heads).Keys == phase.Keys
    ensures forall h :: h in phase ==> Mark(phase, heads)[h] == if h in heads then Seen else phase[h]
    decreases |heads|
  {
    if heads != [] {
      MarkAll(phase[heads[0] := Seen], heads[1..]);
      assert phase[heads[0] := Seen].Keys == phase.Keys;
      forall h | h in phase ensures Mark(phase, heads)[h] == if h in heads then Seen else phase[h] {
        assert h in heads <==> h == heads[0] || h in heads[1..];
      }
    }
  }

  lemma MarkIs(q: Queue, g: Books)
    requires Sound(q, g)
    ensures Mark(g.phase, g.done).Keys == g.phase.Keys
    ensures forall h :: h in g.phase ==> Mark(g.phase, g.done)[h] == if g.phase[h] == Finished then Seen else g.phase[h]
  {
    hide Partition, Requests, Place, Mark;
    MarkAll(g.phase, g.done);
  }

  lemma FinishReady(q: Queue, g: Books, h: int)
    requires Sound(q, g) && h in g.phase
    ensures
      && h in g.chains && Sized(q) && Ranged(h, g.chains[h])
      && var c := g.chains[h];
      && h != c.mid && h != c.last && c.mid != c.last && !q.free[h] && !q.free[c.mid] && !q.free[c.last]
      && Linked(q.(info := q.info[h := q.info[h].(b := NOBUF)]), h, c)
  {
    hide Partition, Linked, Queued, Place;
    RetireParts(q.free, g.chains, g.owner, h);
    SameLinks(q, q.(info := q.info[h := q.info[h].(b := NOBUF)]), h, g.chains[h]);
  }

  lemma NoneFree(free: seq<bool>)
    requires forall j :: 0 <= j < |free| ==> !free[j]
    ensures FreeSet(free) == {}
  {
    var s := FreeSet(free);
    assert forall i :: i !in s;
    assert s == {};
  }

  lemma FreeLess(free: seq<bool>, i: int)
    requires 0 <= i < |free| && free[i]
    ensures |FreeSet(free[i := false])| == |FreeSet(free)| - 1
  {
    var a, b := FreeSet(free), FreeSet(free[i := false]);
    assert forall k :: k in b <==> k in a - {i};
    assert b == a - {i};
  }

  lemma SubmitReady(q: Queue, g: Books)
    requires Sound(q, g)
    ensures Sized(q) && (|FreeSet(q.free)| >= 3 <==> |g.chains| < 2)
  {
    hide Partition, Queued, Linked;
    RoomForOne(q.free, g.chains, g.owner);
  }

  /** A failed allocation only touches descriptors that are free. */
  lemma RolledBack(q: Queue, q': Queue, g: Books)
    requires Sound(q, g) && |q'.desc| == NUM && q' == q.(desc := q'.desc)
    requires |q.free| == NUM && |q.desc| == NUM && forall k :: 0 <= k < NUM && !q.free[k] ==> q'.desc[k] == q.desc[k]
    ensures Sound(q', g)
  {
    hide Queued, Linked, Claims, Belongs;
    forall h | h in g.chains ensures Ranged(h, g.chains[h]) && Linked(q', h, g.chains[h]) {
      HeadOwned(g.owner, h, g.chains[h]);
      LinksSame(q, q', h, g.chains[h]);
    }
  }

  lemma LinksSame(q: Queue, q': Queue, h: int, c: Chain)
    requires |q.desc| == NUM == |q'.desc| && Ranged(h, c) && Linked(q, h, c)
    requires q'.desc[h] == q.desc[h] && q'.desc[c.mid] == q.desc[c.mid] && q'.desc[c.last] == q.desc[c.last]
    ensures Linked(q', h, c)
  {
  }

  lemma NewHead(q: Queue, g: Books, i0: int, i1: int, i2: int)
    requires Sound(q, g) && ThreeFree(q.free, i0, i1, i2)
    ensures i0 !in g.chains
  {
    hide Requests, Busy, Rings, Partition;
    OfferParts(q.free, g.chains, g.owner, i0, i1, i2, 0);
  }
}
