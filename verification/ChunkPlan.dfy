/**
 * The partition of a byte range into chunks: computeChunks and the loop of
 * splitAcrossLinks that fills starts and ends.
 */
module ChunkPlan {
  import opened Prelude

  const CHUNK_TARGET_SIZE: int := 32 * 1024 * 1024
  const MAX_CHUNKS: int := 512

  function ComputeChunks(size: int): (n: int)
    requires size >= 1
    ensures 2 <= n <= MAX_CHUNKS
    ensures size >= 2 ==> n <= size
    ensures size <= MAX_CHUNKS * CHUNK_TARGET_SIZE ==> size <= n * CHUNK_TARGET_SIZE
  {
    var n := size / CHUNK_TARGET_SIZE;
    var n := if size % CHUNK_TARGET_SIZE != 0 then n + 1 else n;
    var n := if n < 2 then 2 else n;
    if n > MAX_CHUNKS then MAX_CHUNKS else n
  }

  /** No more chunks than are needed for 32 MB each, and no fewer than 512 where that is not enough. */
  lemma FewestChunks(size: int)
    requires size >= 1
    ensures ComputeChunks(size) > 2 ==> (ComputeChunks(size) - 1) * CHUNK_TARGET_SIZE < size
    ensures size > MAX_CHUNKS * CHUNK_TARGET_SIZE ==> ComputeChunks(size) == MAX_CHUNKS
  {
    assert size == size / CHUNK_TARGET_SIZE * CHUNK_TARGET_SIZE + size % CHUNK_TARGET_SIZE;
  }

  /** The byte range [effStart, effEnd] to be cut; both ends are included. */
  datatype Plan = Plan(effStart: int, effEnd: int) {
    predicate Valid() {
      0 <= effStart <= effEnd
    }

    function Size(): int {
      effEnd - effStart + 1
    }

    function Count(): (n: nat)
      requires Valid()
      ensures 2 <= n <= MAX_CHUNKS
    {
      ComputeChunks(Size())
    }

    function ChunkSize(): (c: nat)
      requires Valid()
    {
      Size() / Count()
    }

    function Start(i: nat): int
      requires Valid() && i < Count()
    {
      effStart + i * ChunkSize()
    }

    function End(i: nat): int
      requires Valid() && i < Count()
    {
      if i == Count() - 1 then effEnd else Start(i) + ChunkSize() - 1
    }

    /** How many bytes chunk i asks for. */
    function Len(i: nat): int
      requires Valid() && i < Count()
    {
      End(i) - Start(i) + 1
    }
  }

  lemma DivBounds(x: int, n: int)
    requires x >= 0 && n > 0
    ensures n * (x / n) <= x < n * (x / n) + n
    ensures 0 <= x / n
  {
    assert x == n * (x / n) + x % n;
  }

  /** Consecutive chunks touch; the first starts and the last ends the range; no length is negative. */
  lemma ChunksTile(p: Plan, i: nat)
    requires p.Valid() && i < p.Count()
    ensures p.Start(0) == p.effStart && p.End(p.Count() - 1) == p.effEnd
    ensures i + 1 < p.Count() ==> p.Start(i + 1) == p.End(i) + 1 && p.Len(i) == p.ChunkSize()
    ensures i == p.Count() - 1 ==> p.ChunkSize() <= p.Len(i) < p.ChunkSize() + p.Count()
    ensures p.Len(i) >= 0 && p.effStart <= p.Start(i) <= p.effEnd
  {
    var (n, c) := (p.Count(), p.ChunkSize());
    DivBounds(p.Size(), n);
    MulMonotone(i, n - 1, c);
    assert n * c == (n - 1) * c + c;
    assert (i + 1) * c == i * c + c;
    if c == 0 {
      assert i * c == 0;
    } else {
      assert (n - 1) * c < n * c;
    }
  }

  lemma ChunksTouch(p: Plan)
    requires p.Valid()
    ensures p.Start(0) == p.effStart && p.End(p.Count() - 1) == p.effEnd
    ensures forall i: nat :: i < p.Count() - 1 ==> p.Start(i + 1) == p.End(i) + 1
  {
    ChunksTile(p, 0);
    forall i: nat | i < p.Count() - 1 ensures p.Start(i + 1) == p.End(i) + 1 {
      ChunksTile(p, i);
    }
  }

  /** Every byte of the range is asked for by some chunk, and no chunk asks for another byte. */
  lemma ChunksCover(p: Plan, x: int)
    requires p.Valid()
    ensures p.effStart <= x <= p.effEnd <==> exists i: nat :: i < p.Count() && p.Start(i) <= x <= p.End(i)
  {
    if p.effStart <= x <= p.effEnd {
      var i := FindChunk(p, x, p.Count() - 1);
    }
    forall i: nat | i < p.Count() && p.Start(i) <= x <= p.End(i)
      ensures p.effStart <= x <= p.effEnd
    {
      ChunksOrdered(p, 0, i);
      ChunksOrdered(p, i, p.Count() - 1);
    }
  }

  /** Every byte of the range is asked for by exactly one chunk, and no chunk asks for another byte. */
  lemma ChunksPartition(p: Plan, x: int)
    requires p.Valid()
    ensures p.effStart <= x <= p.effEnd <==> exists i: nat :: i < p.Count() && p.Start(i) <= x <= p.End(i)
    ensures forall i: nat, j: nat :: (&& i < p.Count() && p.Start(i) <= x <= p.End(i)
                                      && j < p.Count() && p.Start(j) <= x <= p.End(j)) ==> i == j
  {
    ChunksCover(p, x);
    forall i: nat, j: nat | i < j < p.Count() ensures p.End(i) < p.Start(j) {
      ChunksOrdered(p, i, j);
    }
  }

  lemma {:induction false} ChunksOrdered(p: Plan, i: nat, j: nat)
    requires p.Valid() && i <= j < p.Count()
    ensures p.Start(i) <= p.Start(j) && p.End(i) <= p.End(j)
    ensures i < j ==> p.End(i) < p.Start(j)
    decreases j - i
  {
    ChunksTile(p, i);
    ChunksTile(p, j);
    if i < j {
      ChunksOrdered(p, i + 1, j);
      ChunksTile(p, i + 1);
    }
  }

  lemma {:induction false} FindChunk(p: Plan, x: int, hi: nat) returns (i: nat)
    requires p.Valid() && hi < p.Count()
    requires p.effStart <= x <= p.End(hi)
    ensures i <= hi && p.Start(i) <= x <= p.End(i)
  {
    ChunksTile(p, hi);
    if p.Start(hi) <= x {
      i := hi;
    } else {
      ChunksTile(p, hi - 1);
      i := FindChunk(p, x, hi - 1);
    }
  }

  /**
   * A chunk with no bytes would be asked for as "bytes=s-(s-1)", which is not
   * a range. Exactly the one-byte ranges produce such a chunk.
   */
  lemma AllRequestsNonEmpty(p: Plan)
    requires p.Valid()
    ensures (forall i: nat :: i < p.Count() ==> p.Start(i) <= p.End(i)) <==> p.Size() >= 2
  {
    DivBounds(p.Size(), p.Count());
    if p.Size() >= 2 {
      forall i: nat | i < p.Count() ensures p.Start(i) <= p.End(i) {
        ChunksTile(p, i);
      }
    } else {
      assert p.Count() == 2 && p.ChunkSize() == 0;
      assert p.End(0) == p.Start(0) - 1;
    }
  }

  /** Up to 512 chunks of 32 MB, no chunk but the last is larger than 32 MB. */
  lemma ChunkSizeBound(p: Plan)
    requires p.Valid() && p.Size() <= MAX_CHUNKS * CHUNK_TARGET_SIZE
    ensures p.ChunkSize() <= CHUNK_TARGET_SIZE
  {
    var (n, c) := (p.Count(), p.ChunkSize());
    DivBounds(p.Size(), n);
    if c > CHUNK_TARGET_SIZE {
      MulMonotone(CHUNK_TARGET_SIZE + 1, c, n);
    }
  }

  /** The loop of splitAcrossLinks that precomputes every chunk's byte range. */
  method Partition(p: Plan) returns (starts: array<int>, ends: array<int>)
    requires p.Valid()
    ensures fresh(starts) && fresh(ends) && starts.Length == ends.Length == p.Count()
    ensures starts[0] == p.effStart && ends[ends.Length - 1] == p.effEnd
    ensures forall i :: 0 <= i < starts.Length - 1 ==> starts[i + 1] == ends[i] + 1
    ensures forall i: nat :: i < starts.Length ==> starts[i] == p.Start(i) && ends[i] == p.End(i)
  {
    var rangeSize := p.effEnd - p.effStart + 1;
    var numChunks := ComputeChunks(rangeSize);
    var chunkSize := rangeSize / numChunks;
    starts, ends := new int[numChunks], new int[numChunks];
    for i := 0 to numChunks
      invariant forall k: nat :: k < i ==> starts[k] == p.Start(k) && ends[k] == p.End(k)
    {
      starts[i] := p.effStart + i * chunkSize;
      ends[i] := starts[i] + chunkSize - 1;
      if i == numChunks - 1 {
        ends[i] := p.effEnd;
      }
    }
    ChunksTouch(p);
  }
}
