/** `chunk(it, size)` from export.py and stats.py (the two copies are
    identical): split an id sequence into consecutive batches of at most
    `size` elements, by slicing a shared iterator until a slice comes back
    empty. */
module Chunking {

  /** The batch size both programs pass, to keep request URLs short. */
  const BatchSize: nat := 100

  function Min(a: int, b: int): int { if a <= b then a else b }

  /** The batches `chunk` yields, as a value. A size of 0 yields nothing:
      the very first slice is empty, which is the iterator's sentinel. */
  function Chunks<T>(xs: seq<T>, size: nat): (r: seq<seq<T>>)
    decreases |xs|
  {
    if size == 0 || xs == [] then []
    else
      var n := Min(size, |xs|);
      [xs[..n]] + Chunks(xs[n..], size)
  }

  /** Concatenation of a sequence of sequences. */
  function Flatten<T>(xss: seq<seq<T>>): seq<T>
  {
    if xss == [] then [] else xss[0] + Flatten(xss[1..])
  }

  /** The iterator loop of `chunk`: take the next `size` elements (fewer at
      the end); stop at the first empty slice. */
  method Chunk<T>(xs: seq<T>, size: nat) returns (chunks: seq<seq<T>>)
    ensures chunks == Chunks(xs, size)
  {
    chunks := [];
    var pos := 0;
    while true
      invariant pos <= |xs|
      invariant chunks + Chunks(xs[pos..], size) == Chunks(xs, size)
      decreases |xs| - pos
    {
      var piece := xs[pos..Min(pos + size, |xs|)];
      ChunkStep(xs, size, pos, chunks);
      if piece == [] {
        break;
      }
      chunks := chunks + [piece];
      pos := pos + |piece|;
    }
  }

  /** One slice of the loop: an empty slice means no batches remain;
      otherwise the slice is the next batch. */
  lemma ChunkStep<T>(xs: seq<T>, size: nat, pos: nat, chunks: seq<seq<T>>)
    requires pos <= |xs|
    requires chunks + Chunks(xs[pos..], size) == Chunks(xs, size)
    ensures var piece := xs[pos..Min(pos + size, |xs|)];
      && (piece == [] ==> chunks == Chunks(xs, size))
      && (piece != [] ==> (chunks + [piece]) + Chunks(xs[pos + |piece|..], size) == Chunks(xs, size))
  {
    var piece := xs[pos..Min(pos + size, |xs|)];
    var rest := xs[pos..];
    if piece == [] {
      assert size == 0 || rest == [];
      assert chunks + [] == chunks;
    } else {
      assert Chunks(rest, size) == [piece] + Chunks(xs[pos + |piece|..], size) by {
        assert Min(size, |rest|) == |piece|;
        assert rest[..|piece|] == piece;
        assert rest[|piece|..] == xs[pos + |piece|..];
      }
      assert (chunks + [piece]) + Chunks(xs[pos + |piece|..], size) == chunks + ([piece] + Chunks(xs[pos + |piece|..], size));
    }
  }

  /** Concatenating the batches gives back the input, in order. */
  lemma {:induction false} ChunksFlatten<T>(xs: seq<T>, size: nat)
    requires size > 0
    ensures Flatten(Chunks(xs, size)) == xs
    decreases |xs|
  {
    if xs != [] {
      var n := Min(size, |xs|);
      var cs := Chunks(xs, size);
      assert cs[0] == xs[..n] && cs[1..] == Chunks(xs[n..], size);
      ChunksFlatten(xs[n..], size);
      assert xs == xs[..n] + xs[n..];
    }
  }

  /** Every batch is non-empty and at most `size` long; every batch but the
      last is exactly `size` long. */
  lemma {:induction false} ChunkSizes<T>(xs: seq<T>, size: nat)
    ensures forall i :: 0 <= i < |Chunks(xs, size)| ==> 0 < |Chunks(xs, size)[i]| <= size
    ensures forall i :: 0 <= i < |Chunks(xs, size)| - 1 ==> |Chunks(xs, size)[i]| == size
    decreases |xs|
  {
    if size > 0 && xs != [] {
      var n := Min(size, |xs|);
      ChunkSizes(xs[n..], size);
      var cs := Chunks(xs, size);
      assert cs[1..] == Chunks(xs[n..], size);
      assert |cs| > 1 ==> n == size;
      forall i | 1 <= i < |cs|
        ensures cs[i] == Chunks(xs[n..], size)[i - 1]
      {}
    }
  }

  /** The number of batches is the ceiling of `|xs| / size`: `c` batches
      hold more than `(c - 1) * size` and at most `c * size` elements; in
      particular an empty input yields none. */
  lemma {:induction false} ChunkCount<T>(xs: seq<T>, size: nat)
    requires size > 0
    ensures |xs| <= |Chunks(xs, size)| * size
    ensures |Chunks(xs, size)| > 0 ==> (|Chunks(xs, size)| - 1) * size < |xs|
    ensures xs == [] <==> Chunks(xs, size) == []
    decreases |xs|
  {
    if xs != [] {
      var n := Min(size, |xs|);
      var c := |Chunks(xs[n..], size)|;
      ChunkCount(xs[n..], size);
      assert |Chunks(xs, size)| == c + 1;
      assert (c + 1) * size == c * size + size;
      if c > 0 {
        assert n == size;
        assert c * size == (c - 1) * size + size;
      }
    }
  }
}
