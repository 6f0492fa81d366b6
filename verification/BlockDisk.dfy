/**
 The disk as the log layer sees it: an array of blocks, each a fixed number of 32-bit
 words, where writing one block is atomic and a machine can stop between two writes.
 */
module BlockDisk {

  /** BSIZE / sizeof(uint) */
  const BLOCK_WORDS: nat := 256

  type Block = b: seq<int> | |b| == BLOCK_WORDS witness seq(BLOCK_WORDS, _ => 0)

  type Disk = seq<Block>

  datatype Write = Write(blockno: nat, data: Block)

  predicate WithinDisk(ws: seq<Write>, size: nat) {
    forall i :: 0 <= i < |ws| ==> ws[i].blockno < size
  }

  /** The disk after the writes `ws`, oldest first. */
  function Apply(d: Disk, ws: seq<Write>): (r: Disk)
    requires WithinDisk(ws, |d|)
    ensures |r| == |d|
    decreases |ws|
  {
    if ws == [] then d
    else
      var last := ws[|ws| - 1];
      Apply(d, ws[..|ws| - 1])[last.blockno := last.data]
  }

  lemma {:induction false} ApplyConcat(d: Disk, ws: seq<Write>, vs: seq<Write>)
    requires WithinDisk(ws, |d|) && WithinDisk(vs, |d|)
    ensures Apply(d, ws + vs) == Apply(Apply(d, ws), vs)
    decreases |vs|
  {
    if vs == [] {
      assert ws + vs == ws;
    } else {
      assert (ws + vs)[..|ws + vs| - 1] == ws + vs[..|vs| - 1];
      ApplyConcat(d, ws, vs[..|vs| - 1]);
    }
  }

  lemma ApplyOne(d: Disk, w: Write)
    requires w.blockno < |d|
    ensures Apply(d, [w]) == d[w.blockno := w.data]
  {
    assert [w][..0] == [];
  }

  /** One more write of a planned sequence. */
  lemma ApplyNext(d: Disk, ws: seq<Write>, k: nat)
    requires WithinDisk(ws, |d|) && k < |ws|
    ensures Apply(d, ws[..k + 1]) == Apply(d, ws[..k])[ws[k].blockno := ws[k].data]
  {
    assert ws[..k + 1][..k] == ws[..k];
  }

  /** A block no write names keeps its contents. */
  lemma {:induction false} Untouched(d: Disk, ws: seq<Write>, b: nat)
    requires WithinDisk(ws, |d|) && b < |d|
    requires forall i :: 0 <= i < |ws| ==> ws[i].blockno != b
    ensures Apply(d, ws)[b] == d[b]
    decreases |ws|
  {
    if ws != [] {
      Untouched(d, ws[..|ws| - 1], b);
    }
  }

  /** A block holds the data of the last write that names it. */
  lemma {:induction false} LastWriteWins(d: Disk, ws: seq<Write>, j: nat)
    requires WithinDisk(ws, |d|) && j < |ws|
    requires forall i :: j < i < |ws| ==> ws[i].blockno != ws[j].blockno
    ensures Apply(d, ws)[ws[j].blockno] == ws[j].data
    decreases |ws|
  {
    if j < |ws| - 1 {
      var front := ws[..|ws| - 1];
      assert front[j] == ws[j];
      LastWriteWins(d, front, j);
    }
  }
}
