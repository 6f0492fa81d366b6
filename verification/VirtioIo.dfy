/**
 What the device does with a request (section 5.2.6 of OASIS Virtio 1.1): it reads the header,
 moves the data in the direction the header says, and writes the status. A request formatted
 as kernel/virtio_disk.c formats it is one transfer between the buffer and its block.
 */
module VirtioIo {
  import opened VirtioRing

  const T_IN: int := 0
  const T_OUT: int := 1
  const SECTOR: int := 512
  const BSIZE: int := 1024

  /** type and sector of the header; its reserved field is 0 */
  datatype Header = Header(kind: int, sector: int)

  /** The headers by address, the data of each buffer, and the bytes of the disk. */
  datatype Store = Store(headers: map<int, Header>, mem: map<int, seq<int>>, platter: seq<int>)

  datatype Outcome = Outcome(mem: map<int, seq<int>>, platter: seq<int>, status: int)

  const OK: int := 0
  const IOERR: int := 1
  const UNSUPP: int := 2

  predicate Writable(flags: int) { flags / 2 % 2 == 1 }

  // ---- the device

  /** The data part of request h. */
  function Transfer(m: Store, hd: Header, d: Desc): Outcome
    requires d.addr in m.mem
  {
    var from := hd.sector * SECTOR;
    if hd.sector < 0 || |m.mem[d.addr]| != d.len || from + d.len > |m.platter| then Outcome(m.mem, m.platter, IOERR)
    else if hd.kind == T_OUT && !Writable(d.flags) then
      Outcome(m.mem, m.platter[..from] + m.mem[d.addr] + m.platter[from + d.len..], OK)
    else if hd.kind == T_IN && Writable(d.flags) then
      Outcome(m.mem[d.addr := m.platter[from..from + d.len]], m.platter, OK)
    else Outcome(m.mem, m.platter, UNSUPP)
  }

  /** Header, data and status descriptors are there, readable and writable as they have to be. */
  predicate Proper(q: Queue, m: Store, h: int)
    requires |q.desc| == NUM && 0 <= h < NUM
  {
    var d0 := q.desc[h];
    && HasNext(d0.flags) && !Writable(d0.flags) && d0.len == 16 && d0.addr in m.headers && 0 <= d0.next < NUM
    && var d1 := q.desc[d0.next];
    && HasNext(d1.flags) && d1.addr in m.mem && 0 <= d1.next < NUM
    && var d2 := q.desc[d1.next];
    && !HasNext(d2.flags) && Writable(d2.flags) && d2.len == 1
  }

  /** The device carries out request h. */
  function Carry(q: Queue, m: Store, h: int): Outcome
    requires |q.desc| == NUM && 0 <= h < NUM
  {
    if !Proper(q, m, h) then Outcome(m.mem, m.platter, IOERR)
    else Transfer(m, m.headers[q.desc[h].addr], q.desc[q.desc[h].next])
  }

  // ---- what the driver asked for

  /** virtio_disk_rw's arguments, and where it put the header. */
  datatype Request = Request(write: bool, blockno: int, header: int)

  function BlockOf(platter: seq<int>, blockno: int): seq<int>
    requires 0 <= blockno && BSIZE * blockno + BSIZE <= |platter|
  {
    platter[BSIZE * blockno..BSIZE * blockno + BSIZE]
  }

  function WithBlock(platter: seq<int>, blockno: int, data: seq<int>): (r: seq<int>)
    requires 0 <= blockno && BSIZE * blockno + BSIZE <= |platter| && |data| == BSIZE
    ensures |r| == |platter|
  {
    platter[..BSIZE * blockno] + data + platter[BSIZE * blockno + BSIZE..]
  }

  /** The other blocks of a disk stay, and the one stored is read back. */
  lemma WithBlockOf(platter: seq<int>, blockno: int, data: seq<int>, other: int)
    requires 0 <= blockno && BSIZE * blockno + BSIZE <= |platter| && |data| == BSIZE
    requires 0 <= other && BSIZE * other + BSIZE <= |platter|
    ensures BlockOf(WithBlock(platter, blockno, data), other) ==
            if other == blockno then data else BlockOf(platter, other)
  {
    if other < blockno {
      assert BSIZE * other + BSIZE <= BSIZE * blockno;
    } else if other > blockno {
      assert BSIZE * other >= BSIZE * blockno + BSIZE;
    }
  }

  /** The device reads the header, moves the data the right way, and writes the status. */
  predicate Formatted(q: Queue, head: int, c: Chain, b: int, write: bool, header: int) {
    && |q.desc| == NUM && Ranged(head, c)
    && q.desc[head] == Desc(header, 16, F_NEXT, c.mid)
    && q.desc[c.mid] == Desc(b, 1024, if write then F_NEXT else F_WRITE + F_NEXT, c.last)
    && q.desc[c.last] == Desc(head, 1, F_WRITE, 0)
  }

  function HeaderOf(r: Request): Header {
    Header(if r.write then T_OUT else T_IN, r.blockno * (BSIZE / SECTOR))
  }

  /** Request r stands in the queue and in memory, and its block is on the disk. */
  predicate Asked(q: Queue, m: Store, h: int, c: Chain, r: Request) {
    && Formatted(q, h, c, c.b, r.write, r.header)
    && r.header in m.headers
    && m.headers[r.header] == HeaderOf(r)
    && c.b in m.mem && |m.mem[c.b]| == BSIZE
    && 0 <= r.blockno && BSIZE * r.blockno + BSIZE <= |m.platter|
  }

  /** Every request outstanding is asked for, and none shares its header. */
  ghost predicate Matched(q: Queue, m: Store, chains: map<int, Chain>, reqs: map<int, Request>) {
    && reqs.Keys == chains.Keys
    && (forall h :: h in chains ==> Asked(q, m, h, chains[h], reqs[h]))
    && forall h, k :: h in reqs && k in reqs && h != k ==> reqs[h].header != reqs[k].header
  }

  /** What a request asked for: a whole block from the buffer to the disk, or from the disk to the buffer. */
  predicate Moved(m: Store, m': Store, b: int, r: Request)
    requires b in m.mem && |m.mem[b]| == BSIZE && 0 <= r.blockno && BSIZE * r.blockno + BSIZE <= |m.platter|
  {
    && m'.headers == m.headers
    && if r.write then m'.mem == m.mem && m'.platter == WithBlock(m.platter, r.blockno, m.mem[b])
       else m'.mem == m.mem[b := BlockOf(m.platter, r.blockno)] && m'.platter == m.platter
  }

  /** The device does what was asked and reports no error. */
  lemma CarriedOut(q: Queue, m: Store, h: int, c: Chain, r: Request)
    requires Asked(q, m, h, c, r)
    ensures |q.desc| == NUM && 0 <= h < NUM && 0 <= c.mid < NUM && 0 <= c.last < NUM
    ensures q.desc[h].next == c.mid && q.desc[c.mid].next == c.last && q.desc[c.last].addr == h
    ensures c.b in m.mem && |m.mem[c.b]| == BSIZE && 0 <= r.blockno && BSIZE * r.blockno + BSIZE <= |m.platter|
    ensures
      var o := Carry(q, m, h);
      o.status == OK && Moved(m, m.(mem := o.mem, platter := o.platter), c.b, r)
  {
    assert r.blockno * (BSIZE / SECTOR) * SECTOR == BSIZE * r.blockno;
  }

  // ---- what keeps a request as it was asked

  lemma AskedStays(q: Queue, m: Store, q': Queue, m': Store, h: int, c: Chain, r: Request)
    requires Asked(q, m, h, c, r) && |q'.desc| == NUM && 0 <= h < NUM && 0 <= c.mid < NUM && 0 <= c.last < NUM
    requires q'.desc[h] == q.desc[h] && q'.desc[c.mid] == q.desc[c.mid] && q'.desc[c.last] == q.desc[c.last]
    requires r.header in m'.headers && m'.headers[r.header] == m.headers[r.header]
    requires c.b in m'.mem && |m'.mem[c.b]| == BSIZE && |m'.platter| == |m.platter|
    ensures Asked(q', m', h, c, r)
  {
  }

  lemma AskedSize(q: Queue, m: Store, h: int, c: Chain, r: Request)
    requires Asked(q, m, h, c, r)
    ensures |q.desc| == NUM && 0 <= h < NUM && 0 <= c.mid < NUM && 0 <= c.last < NUM
    ensures r.header in m.headers && c.b in m.mem && |m.mem[c.b]| == BSIZE
  {
  }

  /** The same descriptors and the same headers. */
  lemma MatchedFrame(q: Queue, m: Store, q': Queue, m': Store, chains: map<int, Chain>, reqs: map<int, Request>)
    requires Matched(q, m, chains, reqs) && q'.desc == q.desc && m'.headers == m.headers
    requires |m'.platter| == |m.platter| && m'.mem.Keys == m.mem.Keys
    requires forall b :: b in m.mem && |m.mem[b]| == BSIZE ==> |m'.mem[b]| == BSIZE
    ensures Matched(q', m', chains, reqs)
  {
    hide Asked;
    forall h | h in chains ensures Asked(q', m', h, chains[h], reqs[h]) {
      AskedSize(q, m, h, chains[h], reqs[h]);
      AskedStays(q, m, q', m', h, chains[h], reqs[h]);
    }
  }

  /** Descriptors of no chain may change. */
  lemma MatchedElsewhere(q: Queue, m: Store, q': Queue, chains: map<int, Chain>, owner: Owner, reqs: map<int, Request>)
    requires Matched(q, m, chains, reqs) && Partition(q.free, chains, owner)
    requires |q.desc| == NUM == |q'.desc| && forall k :: 0 <= k < NUM && !q.free[k] ==> q'.desc[k] == q.desc[k]
    ensures Matched(q', m, chains, reqs)
  {
    hide Asked, Claims, Belongs;
    forall h | h in chains ensures Asked(q', m, h, chains[h], reqs[h]) {
      HeadOwned(owner, h, chains[h]);
      AskedSize(q, m, h, chains[h], reqs[h]);
      AskedStays(q, m, q', m, h, chains[h], reqs[h]);
    }
  }

  lemma MatchedHeader(q: Queue, m: Store, chains: map<int, Chain>, reqs: map<int, Request>, at: int, hd: Header)
    requires Matched(q, m, chains, reqs) && forall h :: h in reqs ==> reqs[h].header != at
    ensures Matched(q, m.(headers := m.headers[at := hd]), chains, reqs)
  {
    hide Asked;
    var m' := m.(headers := m.headers[at := hd]);
    forall h | h in chains ensures Asked(q, m', h, chains[h], reqs[h]) {
      AskedSize(q, m, h, chains[h], reqs[h]);
      AskedStays(q, m, q, m', h, chains[h], reqs[h]);
    }
  }

  lemma MatchedAdd(q: Queue, m: Store, chains: map<int, Chain>, reqs: map<int, Request>, i: int, c: Chain, r: Request)
    requires Matched(q, m, chains, reqs) && i !in chains && Asked(q, m, i, c, r)
    requires forall h :: h in reqs ==> reqs[h].header != r.header
    ensures Matched(q, m, chains[i := c], reqs[i := r])
  {
    hide Asked;
    assert reqs[i := r].Keys == chains[i := c].Keys;
  }

  lemma OfferDescs(q: Queue, b: int, r: Request, i0: int, i1: int, i2: int)
    requires Sized(q) && ThreeFree(q.free, i0, i1, i2)
    ensures
      var q' := Offer(q, b, r.write, r.header, i0, i1, i2).(free := Taken(q.free, i0, i1, i2));
      && |q'.desc| == NUM && (forall k :: 0 <= k < NUM && !q.free[k] ==> q'.desc[k] == q.desc[k])
      && Formatted(q', i0, Chain(i1, i2, b), b, r.write, r.header)
  {
    hide Place;
    PlaceTwice(q.availIdx);
  }

  /** A new request beside the others, its header in a place of its own. */
  lemma MatchedOffer(q: Queue, m: Store, chains: map<int, Chain>, owner: Owner, reqs: map<int, Request>, b: int,
          r: Request, i0: int, i1: int, i2: int)
    requires Matched(q, m, chains, reqs) && Partition(q.free, chains, owner) && Sized(q)
    requires ThreeFree(q.free, i0, i1, i2) && forall h :: h in reqs ==> reqs[h].header != r.header
    requires b in m.mem && |m.mem[b]| == BSIZE && 0 <= r.blockno && BSIZE * r.blockno + BSIZE <= |m.platter|
    ensures i0 !in chains
    ensures Matched(Offer(q, b, r.write, r.header, i0, i1, i2).(free := Taken(q.free, i0, i1, i2)),
                    m.(headers := m.headers[r.header := HeaderOf(r)]), chains[i0 := Chain(i1, i2, b)], reqs[i0 := r])
  {
    OfferDescs(q, b, r, i0, i1, i2);
    hide Matched, Partition, Offer, Taken;
    OfferParts(q.free, chains, owner, i0, i1, i2, b);
    var q' := Offer(q, b, r.write, r.header, i0, i1, i2).(free := Taken(q.free, i0, i1, i2));
    var m' := m.(headers := m.headers[r.header := HeaderOf(r)]);
    MatchedElsewhere(q, m, q', chains, owner, reqs);
    MatchedHeader(q', m, chains, reqs, r.header, HeaderOf(r));
    MatchedAdd(q', m', chains, reqs, i0, Chain(i1, i2, b), r);
  }

  /** A request retired leaves the others. */
  lemma MatchedRetire(q: Queue, m: Store, chains: map<int, Chain>, owner: Owner, reqs: map<int, Request>, h: int)
    requires Matched(q, m, chains, reqs) && Partition(q.free, chains, owner) && Sized(q)
    requires h in chains && Ranged(h, chains[h])
    ensures Matched(Retired(q, h, chains[h]), m, chains - {h}, reqs - {h})
  {
    hide Asked, Claims, Belongs;
    var c := chains[h];
    var q' := Retired(q, h, c);
    assert (reqs - {h}).Keys == (chains - {h}).Keys;
    forall k | k in chains - {h} ensures Asked(q', m, k, chains[k], reqs[k]) {
      ClaimsLess(owner, h, c, k, chains[k]);
      AskedSize(q, m, k, chains[k], reqs[k]);
      AskedStays(q, m, q', m, k, chains[k], reqs[k]);
    }
  }
}
