/**
 Pipes, kernel/pipe.c. A method is one stretch of code between taking the pipe's lock and
 giving it up, by returning or by going to sleep, so any order of calls is an interleaving of
 readers and writers. `put` and `taken` are all bytes ever put in and taken out.
 */
module Pipe {

  const PIPESIZE: int := 512
  const UINT_SPAN: int := 0x1_0000_0000

  /** The value of a C uint that has been counted up n times. */
  function Wrap(n: int): int { n % UINT_SPAN }
  function Index(n: int): int { n % PIPESIZE }

  datatype Outcome = Done | Asleep | Failed

  /** What copyin finds at a user address: a byte, or an address it cannot read. */
  datatype Source = Byte(b: int) | Fault

  /** The ring holds exactly the bytes put in and not yet taken, and both counters are what they count. */
  ghost predicate Ring(data: seq<int>, nread: int, nwrite: int, put: seq<int>, taken: seq<int>) {
    && |data| == PIPESIZE && taken <= put && |put| - |taken| <= PIPESIZE
    && nwrite == Wrap(|put|) && nread == Wrap(|taken|)
    && forall k :: |taken| <= k < |put| ==> data[Index(k)] == put[k]
  }

  predicate Full(put: seq<int>, taken: seq<int>) { |put| - |taken| == PIPESIZE }

  predicate Empty(put: seq<int>, taken: seq<int>) { |put| == |taken| }

  /** Readers may sleep only on an empty pipe still being written, writers only on a full one still being read. */
  ghost predicate Sleepers(readers: set<int>, writers: set<int>, put: seq<int>, taken: seq<int>, readopen: bool,
                           writeopen: bool)
  {
    && (readers != {} ==> Empty(put, taken) && writeopen)
    && (writers != {} ==> Full(put, taken) && readopen)
  }

  predicate Readable(src: seq<Source>, from: int, to: int) {
    0 <= from && to <= |src| && forall k :: from <= k < to ==> src[k].Byte?
  }

  /**
   A killed writer about to put more than a pipeful of readable bytes into the pipe some
   reader sleeps on, which is then empty: it fills the pipe and fails without a wakeup.
   */
  ghost predicate Strands(src: seq<Source>, from: nat, killed: bool, readers: set<int>) {
    killed && readers != {} && |src| - from > PIPESIZE && Readable(src, from, from + PIPESIZE)
  }

  function Min(a: int, b: int): int { if a < b then a else b }

  // ---- counters that wrap

  lemma FullTest(a: int, b: int)
    requires 0 <= a - b <= PIPESIZE && 0 <= b
    ensures Wrap(a) == Wrap(Wrap(b) + PIPESIZE) <==> a - b == PIPESIZE
    ensures Wrap(a) == Wrap(b) <==> a == b
  {
    WrapShift(b, a - b);
    WrapShift(b, PIPESIZE);
  }

  /** Adding less than the span to a counter. */
  lemma WrapShift(b: int, d: int)
    requires 0 <= d < UINT_SPAN && 0 <= b
    ensures Wrap(b + d) == Wrap(Wrap(b) + d)
    ensures Wrap(b + d) == if Wrap(b) + d < UINT_SPAN then Wrap(b) + d else Wrap(b) + d - UINT_SPAN
  {
  }

  lemma SlotOf(n: int)
    requires 0 <= n
    ensures Index(Wrap(n)) == Index(n) && 0 <= Index(n) < PIPESIZE
    ensures Wrap(Wrap(n) + 1) == Wrap(n + 1)
  {
    WrapShift(n, 1);
    assert UINT_SPAN % PIPESIZE == 0;
    assert Index(n) == Index(n % UINT_SPAN) by { IndexOfWrap(n); }
  }

  lemma IndexOfWrap(n: int)
    requires 0 <= n
    ensures Index(n % UINT_SPAN) == Index(n)
  {
    Whole(n / UINT_SPAN * 8388608, n % UINT_SPAN);
  }

  lemma Whole(t: int, r: int)
    ensures Index(512 * t + r) == Index(r)
  {
  }

  lemma DistinctSlots(a: int, b: int)
    requires 0 <= a < b < a + PIPESIZE
    ensures Index(a) != Index(b)
  {
  }

  lemma PutSound(data: seq<int>, nread: int, nwrite: int, put: seq<int>, taken: seq<int>, b: int)
    requires Ring(data, nread, nwrite, put, taken) && !Full(put, taken)
    ensures 0 <= Index(nwrite) < |data|
    ensures Ring(data[Index(nwrite) := b], nread, Wrap(nwrite + 1), put + [b], taken)
  {
    hide Wrap, Index;
    SlotOf(|put|);
    var data' := data[Index(nwrite) := b];
    forall k | |taken| <= k < |put + [b]| ensures 0 <= Index(k) < PIPESIZE && data'[Index(k)] == (put + [b])[k] {
      SlotOf(k);
      if k < |put| {
        DistinctSlots(k, |put|);
      }
    }
  }

  lemma TakeSound(data: seq<int>, nread: int, nwrite: int, put: seq<int>, taken: seq<int>)
    requires Ring(data, nread, nwrite, put, taken) && !Empty(put, taken)
    ensures |taken| < |put| && 0 <= Index(nread) < |data| && data[Index(nread)] == put[|taken|]
    ensures Ring(data, Wrap(nread + 1), nwrite, put, taken + [put[|taken|]])
  {
    hide Wrap, Index;
    SlotOf(|taken|);
  }

  class Channel {
    var data: array<int>
    var nread: int
    var nwrite: int
    var readopen: bool
    var writeopen: bool
    ghost var put: seq<int>
    ghost var taken: seq<int>
    ghost var readers: set<int>
    ghost var writers: set<int>

    ghost predicate Valid()
      reads this, data
    {
      Ring(data[..], nread, nwrite, put, taken) && (readers != {} ==> readopen) && (writers != {} ==> writeopen)
    }

    ghost predicate Watched()
      reads this
    {
      Sleepers(readers, writers, put, taken, readopen, writeopen)
    }

    /** pipealloc's initialisation */
    constructor ()
      ensures Valid() && Watched() && fresh(data) && put == [] && taken == []
      ensures readopen && writeopen && readers == {} && writers == {}
    {
      data := new int[PIPESIZE];
      nread, nwrite, readopen, writeopen := 0, 0, true, true;
      put, taken, readers, writers := [], [], {}, {};
    }

    /**
     pipewrite by pr from byte `from` of src on, until it returns or sleeps; i is the loop
     counter then. It leaves a reader asleep beside a pipe that is not empty exactly when
     `Strands` holds of the call.
     */
    method Write(pr: int, src: seq<Source>, from: nat, killed: bool) returns (i: nat, r: Outcome)
      requires Valid() && from <= |src| && writeopen && pr !in readers && pr !in writers
      modifies this, data
      ensures Valid() && data == old(data) && taken == old(taken) && readopen == old(readopen) && writeopen
      ensures from <= i <= |src| && put == old(put) + Bytes(src[from..i])
      ensures r == Done ==>
        (i == |src| || (src[i].Fault? && !Full(put, taken))) && readers == {} && writers == old(writers)
      ensures r == Asleep ==>
                && i < |src| && Full(put, taken) && readopen && !killed
                && readers == {} && writers == old(writers) + {pr}
      ensures r == Failed ==>
        i < |src| && Full(put, taken) && (!readopen || killed) && readers == old(readers) && writers == old(writers)
      ensures old(Watched()) ==> (Watched() <==> !old(Strands(src, from, killed, readers)))
    {
      hide Ring, Bytes, Wrap, Index;
      i := from;
      BytesNone(src, from);
      while i < |src|
        invariant from <= i <= |src| && data == old(data) && taken == old(taken)
        invariant Ring(data[..], nread, nwrite, put, taken)
        invariant readopen == old(readopen) && writeopen && readers == old(readers) && writers == old(writers)
        invariant put == old(put) + Bytes(src[from..i])
        invariant Readable(src, from, i) && |put| == |old(put)| + i - from
        invariant i > from && old(Watched()) ==> writers == {} && !Empty(put, taken)
      {
        Tests(data[..], nread, nwrite, put, taken);
        if nwrite == Wrap(nread + PIPESIZE) {
          if !readopen || killed {
            r := Failed;
            return;
          }
          readers, writers, r := {}, writers + {pr}, Asleep;
          return;
        }
        if src[i].Fault? {
          break;
        }
        PutSound(data[..], nread, nwrite, put, taken, src[i].b);
        BytesNext(src, from, i);
        data[Index(nwrite)] := src[i].b;
        nwrite, put := Wrap(nwrite + 1), put + [src[i].b];
        i := i + 1;
      }
      Tests(data[..], nread, nwrite, put, taken);
      readers, r := {}, Done;
    }

    /**
     piperead by pr until it returns or sleeps. The bytes taken are the next ones in order. One
     byte is taken and not returned exactly when the address for byte `faultAt` cannot be
     written, the caller asked for that many, and the pipe held that many.
     */
    method Read(pr: int, n: nat, killed: bool, faultAt: nat) returns (got: seq<int>, r: Outcome)
      requires Valid() && readopen && pr !in readers && pr !in writers
      modifies this
      ensures Valid() && data == old(data) && put == old(put) && writeopen == old(writeopen) && readopen
      ensures r == Done <==> !(Empty(put, old(taken)) && writeopen)
      ensures r == Done ==> readers == old(readers) && writers == {}
      ensures r == Done ==>
                var held := |put| - |old(taken)|;
                && |got| == Min(Min(n, faultAt), held)
                && var lost := if faultAt < n && faultAt < held then [put[|old(taken)| + faultAt]] else [];
                taken == old(taken) + got + lost
      ensures r != Done ==>
                got == [] && taken == old(taken) && Empty(put, taken) && writeopen && writers == old(writers)
      ensures r == Asleep ==> !killed && readers == old(readers) + {pr}
      ensures r == Failed ==> killed && readers == old(readers)
      ensures old(Watched()) ==> Watched()
    {
      hide Ring, Wrap, Index;
      got := [];
      Tests(data[..], nread, nwrite, put, taken);
      if nread == nwrite && writeopen {
        if killed {
          return [], Failed;
        }
        readers := readers + {pr};
        return [], Asleep;
      }
      while |got| < n
        invariant data == old(data) && Ring(data[..], nread, nwrite, put, taken) && put == old(put) && |got| <= n
        invariant |got| <= faultAt
        invariant readopen && writeopen == old(writeopen) && readers == old(readers) && writers == old(writers)
        invariant taken == old(taken) + got
        invariant old(Watched()) ==> readers == {} || (got == [] && Empty(put, taken))
      {
        Tests(data[..], nread, nwrite, put, taken);
        if nread == nwrite {
          break;
        }
        TakeSound(data[..], nread, nwrite, put, taken);
        var ch := data[Index(nread)];
        nread, taken := Wrap(nread + 1), taken + [ch];
        if |got| == faultAt {
          break;
        }
        got := got + [ch];
      }
      Tests(data[..], nread, nwrite, put, taken);
      writers, r := {}, Done;
    }

    /** pipeclose, once the last descriptor of that end is gone, so none of its users is inside */
    method Close(writable: bool)
      requires Valid() && (if writable then writers == {} else readers == {})
      modifies this
      ensures Valid() && data == old(data) && put == old(put) && taken == old(taken)
      ensures writeopen == (old(writeopen) && !writable) && readopen == (old(readopen) && writable)
      ensures if writable then readers == {} && writers == old(writers) else writers == {} && readers == old(readers)
      ensures Watched()
    {
      if writable {
        writeopen, readers := false, {};
      } else {
        readopen, writers := false, {};
      }
    }

    /** kill wakes a sleeper whatever it sleeps on, also a stranded one. */
    method Kill(pr: int)
      requires Valid()
      modifies this
      ensures Valid() && data == old(data) && put == old(put) && taken == old(taken)
      ensures readers == old(readers) - {pr} && writers == old(writers) - {pr}
      ensures readopen == old(readopen) && writeopen == old(writeopen)
      ensures old(Watched()) || (readers == {} && writers == {}) ==> Watched()
    {
      readers, writers := readers - {pr}, writers - {pr};
    }
  }

  /** The comparisons of the wrapping counters decide full and empty. */
  lemma Tests(data: seq<int>, nread: int, nwrite: int, put: seq<int>, taken: seq<int>)
    requires Ring(data, nread, nwrite, put, taken)
    ensures nwrite == Wrap(nread + PIPESIZE) <==> Full(put, taken)
    ensures nread == nwrite <==> Empty(put, taken)
    ensures 0 <= |put| - |taken| <= PIPESIZE
  {
    hide Wrap;
    FullTest(|put|, |taken|);
  }

  /** The bytes of a run of readable addresses. */
  function Bytes(src: seq<Source>): seq<int> {
    seq(|src|, k requires 0 <= k < |src| => if src[k].Byte? then src[k].b else 0)
  }

  lemma BytesNone(src: seq<Source>, from: nat)
    requires from <= |src|
    ensures Bytes(src[from..from]) == []
  {
  }

  lemma BytesNext(src: seq<Source>, from: nat, i: nat)
    requires from <= i < |src| && src[i].Byte?
    ensures Bytes(src[from..i + 1]) == Bytes(src[from..i]) + [src[i].b]
  {
  }

  /** The one way to strand a reader: it sleeps, a writer fills the pipe, finds itself killed, and fails. */
  method StrandedReader() returns (c: Channel)
    ensures fresh(c) && c.Valid() && c.readers != {} && !Empty(c.put, c.taken) && c.writeopen && !c.Watched()
  {
    c := new Channel();
    var got, r := c.Read(1, 1, false, 1);
    var src := seq(PIPESIZE + 1, _ => Byte(0));
    var i, w := c.Write(2, src, 0, true);
  }
}
