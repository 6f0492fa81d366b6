/**
 The virtio block queue of kernel/virtio_disk.c (section 2.6 of OASIS Virtio 1.1): eight
 descriptors, the ring of requests offered to the device and the ring of requests it has
 finished. The device is any agent that fetches what is offered and finishes it in any order.
 */
module VirtioRing {

  const NUM: int := 8
  /** The span of a C uint16. */
  const SPAN: int := 0x1_0000
  const F_NEXT: int := 1
  const F_WRITE: int := 2
  const NOBUF: int := 0

  datatype Desc = Desc(addr: int, len: int, flags: int, next: int)

  datatype Info = Info(b: int, status: int)

  /** Memory the driver shares with the device, the driver's own record, and the busy flag of each buffer. */
  datatype Queue = Queue(free: seq<bool>, desc: seq<Desc>, ring: seq<int>, availIdx: int,
                         elems: seq<int>, usedId: int, usedIdx: int, info: seq<Info>, busy: map<int, bool>)

  /** How far a request has come: offered in the ring, fetched, finished by the device, seen by the driver. */
  datatype Phase = Offered | Fetched | Finished | Seen

  /** A request: the two descriptors after its head, and its buffer. */
  datatype Chain = Chain(mid: int, last: int, b: int)

  /** Which request each descriptor in use belongs to, and at which place of its chain. */
  type Owner = map<int, (int, int)>

  /** The requests by head, the two rings' contents, and how many entries were consumed from each. */
  datatype Books = Books(chains: map<int, Chain>, owner: Owner, phase: map<int, Phase>,
                         offered: seq<int>, fetched: int, done: seq<int>, taken: int)

  predicate HasNext(flags: int) { flags % 2 == 1 }

  function Place(n: int): int { n % NUM }

  ghost predicate Sized(q: Queue) {
    |q.free| == NUM && |q.desc| == NUM && |q.ring| == NUM && |q.elems| == NUM && |q.info| == NUM
  }

  /** The three descriptors of chain c with head h are recorded as its own. */
  predicate Claims(owner: Owner, h: int, c: Chain) {
    && h in owner && owner[h] == (h, 0)
    && c.mid in owner && owner[c.mid] == (h, 1)
    && c.last in owner && owner[c.last] == (h, 2)
  }

  /** Descriptor i is where its record says. */
  predicate Belongs(chains: map<int, Chain>, i: int, o: (int, int)) {
    && o.0 in chains
    && i == if o.1 == 0 then o.0 else if o.1 == 1 then chains[o.0].mid else chains[o.0].last
  }

  /** Free descriptors and three-descriptor chains partition the descriptors. */
  ghost predicate Partition(free: seq<bool>, chains: map<int, Chain>, owner: Owner) {
    && |free| == NUM
    && (forall i :: i in owner <==> 0 <= i < NUM && !free[i])
    && (forall i :: i in owner ==> Belongs(chains, i, owner[i]))
    && (forall h :: h in chains ==> Claims(owner, h, chains[h]))
    && |owner| == 3 * |chains|
  }

  /** The next fields lead from the head of a chain to its end. */
  predicate Linked(q: Queue, h: int, c: Chain)
    requires |q.desc| == NUM && 0 <= h < NUM && 0 <= c.mid < NUM && 0 <= c.last < NUM
  {
    && HasNext(q.desc[h].flags) && q.desc[h].next == c.mid
    && HasNext(q.desc[c.mid].flags) && q.desc[c.mid].next == c.last
    && !HasNext(q.desc[c.last].flags)
  }

  predicate Ranged(h: int, c: Chain) { 0 <= h < NUM && 0 <= c.mid < NUM && 0 <= c.last < NUM }

  ghost predicate Requests(q: Queue, chains: map<int, Chain>) {
    && Sized(q)
    && (forall h :: h in chains ==> Ranged(h, chains[h]) && Linked(q, h, chains[h]))
    && (forall h :: h in chains ==> q.info[h].b == chains[h].b != NOBUF && q.info[h].status == 0)
    && (forall h, k :: h in chains && k in chains && h != k ==> chains[h].b != chains[k].b)
  }

  /** A buffer is busy from the offer until the driver has seen that request, and only then, finished. */
  ghost predicate Busy(busy: map<int, bool>, chains: map<int, Chain>, phase: map<int, Phase>) {
    && phase.Keys == chains.Keys
    && (forall h :: h in chains ==> chains[h].b in busy && (busy[chains[h].b] <==> phase[h] != Seen))
    && (forall b :: b in busy && busy[b] ==> exists h :: h in chains && chains[h].b == b)
  }

  /** The entries of `ring` from `base` on are the heads in `heads`: exactly those in that phase, once each. */
  ghost predicate Queued(ring: seq<int>, base: int, heads: seq<int>, phase: map<int, Phase>, ph: Phase) {
    && |ring| == NUM && base >= 0
    && (forall k :: 0 <= k < |heads| ==> heads[k] in phase && phase[heads[k]] == ph)
    && (forall j, k :: 0 <= j < k < |heads| ==> heads[j] != heads[k])
    && (forall h :: h in phase && phase[h] == ph ==> h in heads)
    && (forall k :: 0 <= k < |heads| ==> ring[Place(base + k)] == heads[k])
  }

  ghost predicate Rings(q: Queue, g: Books) {
    && Queued(q.ring, g.fetched, g.offered, g.phase, Offered) && q.availIdx == (g.fetched + |g.offered|) % SPAN
    && Queued(q.elems, g.taken, g.done, g.phase, Finished) && q.usedId == (g.taken + |g.done|) % SPAN
    && q.usedIdx == Place(g.taken)
  }

  ghost predicate Sound(q: Queue, g: Books) {
    && Partition(q.free, g.chains, g.owner) && Requests(q, g.chains)
    && Busy(q.busy, g.chains, g.phase) && Rings(q, g)
  }

  // ---- at most two requests

  lemma AtMostTwo(q: Queue, g: Books)
    requires Partition(q.free, g.chains, g.owner)
    ensures |g.chains| <= 2
  {
    hide Claims, Belongs;
    SmallSet(g.owner.Keys, NUM);
    assert |g.owner| == |g.owner.Keys|;
  }

  lemma {:induction false} SmallSet(s: set<int>, n: int)
    requires 0 <= n && forall i :: i in s ==> 0 <= i < n
    ensures |s| <= n
    decreases n
  {
    if n == 0 {
      assert forall i :: i !in s;
      assert s == {};
    } else {
      SmallSet(s - {n - 1}, n - 1);
      if n - 1 in s {
        assert |s| == |s - {n - 1}| + 1;
      } else {
        assert s == s - {n - 1};
      }
    }
  }

  /** Distinct members of a set are no more than the set. */
  lemma {:induction false} DistinctFit(heads: seq<int>, s: set<int>)
    requires (forall k :: 0 <= k < |heads| ==> heads[k] in s)
    requires forall j, k :: 0 <= j < k < |heads| ==> heads[j] != heads[k]
    ensures |heads| <= |s|
    decreases |heads|
  {
    if heads != [] {
      var last := heads[|heads| - 1];
      DistinctFit(heads[..|heads| - 1], s - {last});
    }
  }

  /** So neither ring overflows, and comparing counters modulo NUM tells empty from not empty. */
  lemma RingsFit(q: Queue, g: Books)
    requires Sound(q, g)
    ensures |g.offered| <= 2 && |g.done| <= 2
    ensures Place(q.usedIdx) != Place(q.usedId) <==> g.done != []
    ensures Place(q.availIdx) == Place(g.fetched + |g.offered|) && Place(q.usedId) == Place(g.taken + |g.done|)
  {
    hide Requests, Place, Partition;
    AtMostTwo(q, g);
    DistinctFit(g.offered, g.phase.Keys);
    DistinctFit(g.done, g.phase.Keys);
    assert |g.chains.Keys| == |g.chains|;
    PlaceOfCounter(g.taken + |g.done|);
    PlaceOfCounter(g.fetched + |g.offered|);
    PlaceTwice(g.taken);
    PlaceApart(g.taken, |g.done|);
  }

  lemma PlaceOfCounter(n: int)
    requires n >= 0
    ensures Place(n % SPAN) == Place(n)
  {
    PlaceShift(n / SPAN * 8192, n % SPAN);
  }

  lemma PlaceShift(t: int, r: int)
    ensures Place(8 * t + r) == Place(r)
  {
  }

  lemma PlaceTwice(n: int)
    ensures Place(Place(n)) == Place(n) && 0 <= Place(n) < NUM
  {
  }

  lemma PlaceApart(n: int, d: int)
    requires 0 <= d < NUM
    ensures Place(n) == Place(n + d) <==> d == 0
  {
  }

  // ---- the rings under each change

  lemma QueuedOther(ring: seq<int>, base: int, heads: seq<int>, phase: map<int, Phase>, ph: Phase,
          h: int, ph': Phase)
    requires Queued(ring, base, heads, phase, ph) && (h in phase ==> phase[h] != ph) && ph' != ph
    ensures Queued(ring, base, heads, phase[h := ph'], ph)
  {
  }

  lemma QueuedGone(ring: seq<int>, base: int, heads: seq<int>, phase: map<int, Phase>, ph: Phase,
          h: int)
    requires Queued(ring, base, heads, phase, ph) && (h in phase ==> phase[h] != ph)
    ensures Queued(ring, base, heads, phase - {h}, ph)
  {
  }

  lemma QueuedPush(ring: seq<int>, base: int, heads: seq<int>, phase: map<int, Phase>, ph: Phase,
          h: int)
    requires Queued(ring, base, heads, phase, ph) && (h in phase ==> phase[h] != ph) && |heads| < NUM
    ensures 0 <= Place(base + |heads|) < |ring|
    ensures Queued(ring[Place(base + |heads|) := h], base, heads + [h], phase[h := ph], ph)
  {
    hide Place;
    PlaceTwice(base + |heads|);
    var ring' := ring[Place(base + |heads|) := h];
    forall k | 0 <= k < |heads + [h]| ensures 0 <= Place(base + k) < NUM && ring'[Place(base + k)] == (heads + [h])[k] {
      PlaceTwice(base + k);
      PlaceApart(base + k, |heads| - k);
    }
    forall x | x in phase[h := ph] && phase[h := ph][x] == ph ensures x in heads + [h] {
      assert x == h || x in heads;
    }
  }

  lemma QueuedPop(ring: seq<int>, base: int, heads: seq<int>, phase: map<int, Phase>, ph: Phase,
          ph': Phase)
    requires Queued(ring, base, heads, phase, ph) && heads != [] && ph' != ph
    ensures 0 <= Place(base) < |ring| && ring[Place(base)] == heads[0]
    ensures Queued(ring, base + 1, heads[1..], phase[heads[0] := ph'], ph)
  {
    hide Place;
    PlaceTwice(base);
    assert ring[Place(base + 0)] == heads[0];
    var heads' := heads[1..];
    forall k | 0 <= k < |heads'| ensures 0 <= Place(base + 1 + k) < NUM && ring[Place(base + 1 + k)] == heads'[k] {
      PlaceTwice(base + 1 + k);
      assert ring[Place(base + (k + 1))] == heads[k + 1];
    }
  }

  // ---- the device

  /** The device fetches the next request offered. */
  lemma FetchSound(q: Queue, g: Books)
    requires Sound(q, g) && g.offered != []
    ensures 0 <= Place(g.fetched) < |q.ring| && q.ring[Place(g.fetched)] == g.offered[0]
    ensures Sound(q, g.(phase := g.phase[g.offered[0] := Fetched], offered := g.offered[1..], fetched := g.fetched + 1))
  {
    hide Place, Partition, Requests, Queued;
    var h := g.offered[0];
    FirstOf(q.ring, g.fetched, g.offered, g.phase, Offered);
    QueuedPop(q.ring, g.fetched, g.offered, g.phase, Offered, Fetched);
    QueuedOther(q.elems, g.taken, g.done, g.phase, Finished, h, Fetched);
    assert g.phase[h := Fetched].Keys == g.phase.Keys;
  }

  /** The device's writes when it has carried out request h. */
  function Completed(q: Queue, h: int): Queue
    requires |q.elems| == NUM && |q.info| == NUM && 0 <= h < NUM
  {
    q.(elems := q.elems[Place(q.usedId) := h], usedId := (q.usedId + 1) % SPAN,
        info := q.info[h := q.info[h].(status := 0)])
  }

  lemma CompleteSound(q: Queue, g: Books, h: int)
    requires Sound(q, g) && h in g.phase && g.phase[h] == Fetched
    ensures 0 <= h < NUM && |q.elems| == NUM && |q.info| == NUM
    ensures Sound(Completed(q, h), g.(phase := g.phase[h := Finished], done := g.done + [h]))
  {
    hide Place, Partition, Linked, Queued, Requests;
    RingsFit(q, g);
    QueuedPush(q.elems, g.taken, g.done, g.phase, Finished, h);
    QueuedOther(q.ring, g.fetched, g.offered, g.phase, Offered, h, Finished);
    Counted(g.taken + |g.done|);
    assert g.phase[h := Finished].Keys == g.phase.Keys;
    RequestOf(q, g.chains, h);
    RequestsFrame(q, Completed(q, h), g.chains);
  }

  lemma RequestOf(q: Queue, chains: map<int, Chain>, h: int)
    requires Requests(q, chains) && h in chains
    ensures Sized(q) && Ranged(h, chains[h]) && Linked(q, h, chains[h]) && q.info[h].b == chains[h].b
    ensures q.info[h].status == 0
  {
    hide Linked;
  }

  lemma RequestsFrame(q: Queue, q': Queue, chains: map<int, Chain>)
    requires Requests(q, chains) && Sized(q') && q'.desc == q.desc
    requires forall h :: 0 <= h < NUM ==>
               q'.info[h].b == q.info[h].b && (q.info[h].status == 0 ==> q'.info[h].status == 0)
    ensures Requests(q', chains)
  {
    hide Linked;
    forall h | h in chains ensures Ranged(h, chains[h]) && Linked(q', h, chains[h]) {
      SameLinks(q, q', h, chains[h]);
    }
  }

  lemma RequestsSized(q: Queue, chains: map<int, Chain>)
    requires Requests(q, chains)
    ensures Sized(q)
  {
    hide Linked;
  }

  lemma FirstOf(ring: seq<int>, base: int, heads: seq<int>, phase: map<int, Phase>, ph: Phase)
    requires Queued(ring, base, heads, phase, ph) && heads != []
    ensures heads[0] in phase && phase[heads[0]] == ph
  {
  }

  lemma Counted(n: int)
    ensures (n % SPAN + 1) % SPAN == (n + 1) % SPAN
  {
  }

  lemma SameLinks(q: Queue, q': Queue, h: int, c: Chain)
    requires |q.desc| == NUM && q'.desc == q.desc && Ranged(h, c) && Linked(q, h, c)
    ensures Linked(q', h, c)
  {
  }

  // ---- the interrupt handler

  /** One iteration of virtio_disk_intr: the buffer of the next finished request is no longer busy. */
  function Acked(q: Queue): Queue
    requires 0 <= q.usedIdx < |q.elems| && 0 <= q.elems[q.usedIdx] < |q.info|
  {
    q.(busy := q.busy[q.info[q.elems[q.usedIdx]].b := false], usedIdx := (q.usedIdx + 1) % NUM)
  }

  lemma AckSound(q: Queue, g: Books)
    requires Sound(q, g) && g.done != []
    ensures 0 <= q.usedIdx < |q.elems| && q.elems[q.usedIdx] == g.done[0] && 0 <= g.done[0] < |q.info|
    ensures g.done[0] in g.chains && q.info[g.done[0]].status == 0 && q.info[g.done[0]].b == g.chains[g.done[0]].b
    ensures Sound(Acked(q), g.(phase := g.phase[g.done[0] := Seen], done := g.done[1..], taken := g.taken + 1))
  {
    hide Place, Partition, Linked, Queued, Requests;
    var h := g.done[0];
    FirstOf(q.elems, g.taken, g.done, g.phase, Finished);
    QueuedPop(q.elems, g.taken, g.done, g.phase, Finished, Seen);
    QueuedOther(q.ring, g.fetched, g.offered, g.phase, Offered, h, Seen);
    PlaceNext(g.taken);
    RequestOf(q, g.chains, h);
    AckBusy(q, g, h);
    RequestsFrame(q, Acked(q), g.chains);
  }

  lemma PlaceNext(n: int)
    ensures (Place(n) + 1) % NUM == Place(n + 1)
  {
  }

  lemma AckBusy(q: Queue, g: Books, h: int)
    requires Requests(q, g.chains) && Busy(q.busy, g.chains, g.phase) && h in g.chains
    ensures Busy(q.busy[g.chains[h].b := false], g.chains, g.phase[h := Seen])
  {
    hide Linked;
    assert g.phase[h := Seen].Keys == g.phase.Keys;
  }

  // ---- offering a request

  function Offer(q: Queue, b: int, write: bool, header: int, i0: int, i1: int, i2: int): Queue
    requires Sized(q) && 0 <= i0 < NUM && 0 <= i1 < NUM && 0 <= i2 < NUM
  {
    q.(desc := q.desc[i0 := Desc(header, 16, F_NEXT, i1)]
                     [i1 := Desc(b, 1024, (if write then 0 else F_WRITE) + F_NEXT, i2)]
                     [i2 := Desc(i0, 1, F_WRITE, 0)],
       info := q.info[i0 := Info(b, 0)],
       busy := q.busy[b := true],
       ring := q.ring[Place(q.availIdx) := i0],
       availIdx := (q.availIdx + 1) % SPAN)
  }

  function Taken(free: seq<bool>, i0: int, i1: int, i2: int): seq<bool>
    requires 0 <= i0 < |free| && 0 <= i1 < |free| && 0 <= i2 < |free|
  {
    free[i0 := false][i1 := false][i2 := false]
  }

  predicate ThreeFree(free: seq<bool>, i0: int, i1: int, i2: int) {
    && 0 <= i0 < |free| && 0 <= i1 < |free| && 0 <= i2 < |free| && i0 != i1 && i0 != i2 && i1 != i2
    && free[i0] && free[i1] && free[i2]
  }

  function Given(owner: Owner, i0: int, i1: int, i2: int): Owner {
    owner[i0 := (i0, 0)][i1 := (i0, 1)][i2 := (i0, 2)]
  }

  lemma OfferParts(free: seq<bool>, chains: map<int, Chain>, owner: Owner, i0: int, i1: int,
          i2: int, b: int)
    requires Partition(free, chains, owner) && ThreeFree(free, i0, i1, i2)
    ensures i0 !in chains
    ensures Partition(Taken(free, i0, i1, i2), chains[i0 := Chain(i1, i2, b)], Given(owner, i0, i1, i2))
  {
    hide Claims, Belongs;
    var chains', owner' := chains[i0 := Chain(i1, i2, b)], Given(owner, i0, i1, i2);
    assert i0 !in owner && i1 !in owner && i2 !in owner;
    if i0 in chains {
      HeadOwned(owner, i0, chains[i0]);
    }
    forall i | i in owner' ensures Belongs(chains', i, owner'[i]) {
      BelongsStill(chains, owner, i0, i1, i2, b, i);
    }
    forall h | h in chains' ensures Claims(owner', h, chains'[h]) {
      ClaimsStill(chains, owner, i0, i1, i2, b, h);
    }
    assert |chains'| == |chains| + 1;
    assert |owner[i0 := (i0, 0)]| == |owner| + 1;
    assert |owner[i0 := (i0, 0)][i1 := (i0, 1)]| == |owner| + 2;
    assert |owner'| == |owner| + 3;
  }

  lemma HeadOwned(owner: Owner, h: int, c: Chain)
    requires Claims(owner, h, c)
    ensures h in owner && c.mid in owner && c.last in owner
  {
  }

  lemma BelongsStill(chains: map<int, Chain>, owner: Owner, i0: int, i1: int, i2: int, b: int,
          i: int)
    requires i0 !in chains && i0 != i1 && i0 != i2 && i1 != i2 && i in Given(owner, i0, i1, i2)
    requires i in owner ==> Belongs(chains, i, owner[i])
    requires i0 !in owner && i1 !in owner && i2 !in owner
    ensures Belongs(chains[i0 := Chain(i1, i2, b)], i, Given(owner, i0, i1, i2)[i])
  {
  }

  lemma ClaimsStill(chains: map<int, Chain>, owner: Owner, i0: int, i1: int, i2: int, b: int, h: int)
    requires i0 != i1 && i0 != i2 && i1 != i2 && i0 !in owner && i1 !in owner && i2 !in owner
    requires h in chains[i0 := Chain(i1, i2, b)] && (h in chains ==> Claims(owner, h, chains[h]))
    ensures Claims(Given(owner, i0, i1, i2), h, chains[i0 := Chain(i1, i2, b)][h])
  {
  }

  lemma OfferRequests(q: Queue, g: Books, b: int, write: bool, header: int, i0: int, i1: int,
          i2: int)
    requires Partition(q.free, g.chains, g.owner) && Requests(q, g.chains) && ThreeFree(q.free, i0, i1, i2)
    requires b != NOBUF && forall h :: h in g.chains ==> g.chains[h].b != b
    ensures Requests(Offer(q, b, write, header, i0, i1, i2), g.chains[i0 := Chain(i1, i2, b)])
  {
    hide Claims, Belongs, Linked, Place;
    PlaceTwice(q.availIdx);
    var q', chains' := Offer(q, b, write, header, i0, i1, i2), g.chains[i0 := Chain(i1, i2, b)];
    forall h | h in chains' ensures Ranged(h, chains'[h]) && Linked(q', h, chains'[h]) {
      if h != i0 {
        HeadOwned(g.owner, h, g.chains[h]);
        LinksElsewhere(q, q', h, g.chains[h], i0, i1, i2);
      } else {
        NewLinks(q', i0, i1, i2, b, write, header);
      }
    }
    forall h | h in g.chains ensures h != i0 {
      HeadOwned(g.owner, h, g.chains[h]);
    }
  }

  lemma LinksElsewhere(q: Queue, q': Queue, h: int, c: Chain, i0: int, i1: int, i2: int)
    requires |q.desc| == NUM == |q'.desc| && Ranged(h, c) && Linked(q, h, c)
    requires forall i :: 0 <= i < NUM && i != i0 && i != i1 && i != i2 ==> q'.desc[i] == q.desc[i]
    requires h !in {i0, i1, i2} && c.mid !in {i0, i1, i2} && c.last !in {i0, i1, i2}
    ensures Linked(q', h, c)
  {
  }

  lemma NewLinks(q: Queue, i0: int, i1: int, i2: int, b: int, write: bool, header: int)
    requires |q.desc| == NUM && Ranged(i0, Chain(i1, i2, b))
    requires q.desc[i0] == Desc(header, 16, F_NEXT, i1)
    requires q.desc[i1] == Desc(b, 1024, (if write then 0 else F_WRITE) + F_NEXT, i2)
    requires q.desc[i2] == Desc(i0, 1, F_WRITE, 0)
    ensures Linked(q, i0, Chain(i1, i2, b))
  {
  }

  lemma OfferSound(q: Queue, g: Books, b: int, write: bool, header: int, i0: int, i1: int, i2: int)
    requires Sound(q, g) && ThreeFree(q.free, i0, i1, i2) && b != NOBUF
    requires forall h :: h in g.chains ==> g.chains[h].b != b
    ensures Sized(q)
    ensures Sound(Offer(q, b, write, header, i0, i1, i2).(free := Taken(q.free, i0, i1, i2)),
                  g.(chains := g.chains[i0 := Chain(i1, i2, b)], owner := Given(g.owner, i0, i1, i2),
                     phase := g.phase[i0 := Offered], offered := g.offered + [i0]))
  {
    hide Place, Linked, Partition, Claims, Belongs, Queued, Requests;
    RequestsSized(q, g.chains);
    PlaceTwice(q.availIdx);
    RingsFit(q, g);
    OfferParts(q.free, g.chains, g.owner, i0, i1, i2, b);
    OfferRequests(q, g, b, write, header, i0, i1, i2);
    QueuedPush(q.ring, g.fetched, g.offered, g.phase, Offered, i0);
    QueuedOther(q.elems, g.taken, g.done, g.phase, Finished, i0, Offered);
    Counted(g.fetched + |g.offered|);
    OfferBusy(q, g, b, i0, i1, i2);
    var q' := Offer(q, b, write, header, i0, i1, i2);
    RequestsFrame(q', q'.(free := Taken(q.free, i0, i1, i2)), g.chains[i0 := Chain(i1, i2, b)]);
  }

  lemma OfferBusy(q: Queue, g: Books, b: int, i0: int, i1: int, i2: int)
    requires Busy(q.busy, g.chains, g.phase) && i0 !in g.chains && forall h :: h in g.chains ==> g.chains[h].b != b
    ensures Busy(q.busy[b := true], g.chains[i0 := Chain(i1, i2, b)], g.phase[i0 := Offered])
  {
    var chains' := g.chains[i0 := Chain(i1, i2, b)];
    assert g.phase[i0 := Offered].Keys == chains'.Keys;
    var busy' := q.busy[b := true];
    forall x | x in busy' && busy'[x] ensures exists h :: h in chains' && chains'[h].b == x {
      if x == b {
        assert chains'[i0].b == b;
      } else {
        var h :| h in g.chains && g.chains[h].b == x;
        assert chains'[h].b == x;
      }
    }
  }

  // ---- retiring a request

  function Blanked(desc: seq<Desc>, i: int): seq<Desc>
    requires 0 <= i < |desc|
  {
    desc[i := desc[i].(addr := 0)]
  }

  /** free_desc on one descriptor */
  function Released(q: Queue, i: int): Queue
    requires 0 <= i < |q.free| && i < |q.desc|
  {
    q.(free := q.free[i := true], desc := Blanked(q.desc, i))
  }

  function Retired(q: Queue, h: int, c: Chain): Queue
    requires Sized(q) && Ranged(h, c)
  {
    Released(Released(Released(q.(info := q.info[h := q.info[h].(b := NOBUF)]), h), c.mid), c.last)
  }

  lemma RetireParts(free: seq<bool>, chains: map<int, Chain>, owner: Owner, h: int)
    requires Partition(free, chains, owner) && h in chains && Ranged(h, chains[h])
    ensures
      var c := chains[h];
      && h != c.mid && h != c.last && c.mid != c.last && !free[h] && !free[c.mid] && !free[c.last]
      && Partition(free[h := true][c.mid := true][c.last := true], chains - {h}, owner - {h, c.mid, c.last})
  {
    hide Claims, Belongs;
    var c := chains[h];
    ClaimsOf(owner, h, c);
    var chains', owner' := chains - {h}, owner - {h, c.mid, c.last};
    forall i | i in owner' ensures Belongs(chains', i, owner'[i]) {
      BelongsLess(chains, owner, h, i);
    }
    forall k | k in chains' ensures Claims(owner', k, chains'[k]) {
      ClaimsLess(owner, h, c, k, chains[k]);
    }
    assert |chains'| == |chains| - 1;
    assert owner' == ((owner - {h}) - {c.mid}) - {c.last};
    assert |owner'| == |owner| - 3;
  }

  lemma ClaimsOf(owner: Owner, h: int, c: Chain)
    requires Claims(owner, h, c)
    ensures h in owner && c.mid in owner && c.last in owner && h != c.mid && h != c.last && c.mid != c.last
  {
  }

  lemma BelongsLess(chains: map<int, Chain>, owner: Owner, h: int, i: int)
    requires h in chains && i in owner && Belongs(chains, i, owner[i]) && i != h && i != chains[h].mid
    requires i != chains[h].last
    ensures Belongs(chains - {h}, i, owner[i])
  {
  }

  lemma ClaimsLess(owner: Owner, h: int, c: Chain, k: int, d: Chain)
    requires Claims(owner, h, c) && Claims(owner, k, d) && k != h
    ensures Claims(owner - {h, c.mid, c.last}, k, d)
    ensures k !in {h, c.mid, c.last} && d.mid !in {h, c.mid, c.last} && d.last !in {h, c.mid, c.last}
  {
  }

  lemma RetireRequests(q: Queue, g: Books, h: int)
    requires Partition(q.free, g.chains, g.owner) && Requests(q, g.chains) && h in g.chains
    ensures Sized(q) && Ranged(h, g.chains[h]) && Requests(Retired(q, h, g.chains[h]), g.chains - {h})
  {
    hide Claims, Belongs, Linked;
    var c := g.chains[h];
    var q' := Retired(q, h, c);
    forall k | k in g.chains - {h} ensures Ranged(k, g.chains[k]) && Linked(q', k, g.chains[k]) {
      ClaimsLess(g.owner, h, c, k, g.chains[k]);
      LinksElsewhere(q, q', k, g.chains[k], h, c.mid, c.last);
    }
  }

  function Dropped(g: Books, h: int): Books
    requires h in g.chains
  {
    g.(chains := g.chains - {h}, owner := g.owner - {h, g.chains[h].mid, g.chains[h].last}, phase := g.phase - {h})
  }

  lemma RetireSound(q: Queue, g: Books, h: int)
    requires Sound(q, g) && h in g.phase && g.phase[h] == Seen
    ensures h in g.chains && Sized(q) && Ranged(h, g.chains[h])
    ensures Sound(Retired(q, h, g.chains[h]), Dropped(g, h))
  {
    hide Place, Partition, Requests, Queued, Claims, Belongs;
    RetireRequests(q, g, h);
    RetireParts(q.free, g.chains, g.owner, h);
    QueuedGone(q.ring, g.fetched, g.offered, g.phase, Offered, h);
    QueuedGone(q.elems, g.taken, g.done, g.phase, Finished, h);
    RetireBusy(q, g, h);
  }

  lemma RetireBusy(q: Queue, g: Books, h: int)
    requires Busy(q.busy, g.chains, g.phase) && h in g.chains && g.phase[h] == Seen
    ensures Busy(q.busy, g.chains - {h}, g.phase - {h})
  {
    var chains' := g.chains - {h};
    assert (g.phase - {h}).Keys == chains'.Keys;
    forall x | x in q.busy && q.busy[x] ensures exists k :: k in chains' && chains'[k].b == x {
      var k :| k in g.chains && g.chains[k].b == x;
      assert k in chains' && chains'[k].b == x;
    }
  }

  // ---- free descriptors

  function FreeSet(free: seq<bool>): set<int> {
    set i | 0 <= i < |free| && free[i]
  }

  function Upto(n: nat): (s: set<int>)
    ensures |s| == n && forall i :: i in s <==> 0 <= i < n
    decreases n
  {
    if n == 0 then {} else Upto(n - 1) + {n - 1}
  }

  /** Three descriptors are free exactly when fewer than two requests are outstanding. */
  lemma RoomForOne(free: seq<bool>, chains: map<int, Chain>, owner: Owner)
    requires Partition(free, chains, owner)
    ensures |FreeSet(free)| == NUM - 3 * |chains|
  {
    hide Claims, Belongs, Upto;
    var all := Upto(NUM);
    assert |owner.Keys| == |owner|;
    assert forall i :: i in all <==> i in FreeSet(free) || i in owner.Keys;
    assert all == FreeSet(free) + owner.Keys;
    assert FreeSet(free) !! owner.Keys;
  }
}
