/** The chunk table for prefills: _compute_chunk_metadata of
    sonar/v1/attention/backends/mamba_attn.py, which the Mamba-2 backend builds. The
    chunks of a row, or of each side of its checkpoint, have the shape that a
    scan cut at block boundaries relies on, and a forced checkpoint is the end of
    a chunk. */
module ChunkMetadata {
  import opened ChunkedScan
  import opened Products

  function CeilDiv(x: nat, size: nat): nat
    requires size > 0
  {
    (x + size - 1) / size
  }

  lemma CeilDivZero(x: nat, size: nat)
    requires size > 0
    ensures CeilDiv(x, size) == 0 <==> x == 0
  {
    hide Times;
    BlockBounds(size, x + size - 1);
    TimesStep(0, size);
    TimesMonotone(1, CeilDiv(x, size), size);
  }

  /** One chunk less. */
  lemma CeilDivStep(x: nat, size: nat)
    requires size > 0 && x > 0
    ensures CeilDiv(x, size) == CeilDiv(x - Min(size, x), size) + 1
  {
    hide Times;
    TimesStep(0, size);
    if x <= size {
      TimesStep(1, size);
      BlockOf(1, size, x + size - 1);
      CeilDivZero(0, size);
    } else {
      var q := CeilDiv(x - size, size);
      BlockBounds(size, x - size + size - 1);
      TimesStep(q, size);
      TimesStep(q + 1, size);
      BlockOf(q + 1, size, x + size - 1);
    }
  }

  /** Rounding up to the end of the current block. */
  lemma CeilDivUnaligned(x: nat, size: nat)
    requires size > 0
    ensures x % size == 0 ==> x == Times(x / size, size)
    ensures x % size != 0 ==> CeilDiv(x, size) == x / size + 1 && x < Times(x / size + 1, size)
  {
    DivTimes(x, size);
    BlockBounds(size, x);
    if x % size != 0 {
      hide Times;
      TimesStep(x / size, size);
      TimesStep(x / size + 1, size);
      BlockOf(x / size + 1, size, x + size - 1);
    }
  }

  /** A segment under construction: its chunks so far end block after block, and
      while tokens remain the last of them ends on a boundary. */
  ghost predicate Growing(ends: seq<nat>, first: nat, done: nat, tokens: nat, size: nat, computed: nat) {
    && size > 0 && first < |ends| && done <= tokens
    && ends[first] + done == ends[|ends| - 1]
    && (forall c :: first < c < |ends| - 1 ==> ends[c] - ends[first] + computed == Times(computed / size + (c - first), size))
    && (done < tokens ==> done + computed == Times(computed / size + (|ends| - 1 - first), size))
    && done + computed <= Times(computed / size + (|ends| - 1 - first), size) + (if |ends| - 1 == first then computed else 0)
    && (|ends| - 1 > first && tokens > 0 ==> ends[|ends| - 2] < ends[|ends| - 1])
  }

  /** One more chunk of at most one block. */
  lemma Grow(ends: seq<nat>, first: nat, done: nat, tokens: nat, size: nat, computed: nat)
    requires Growing(ends, first, done, tokens, size, computed) && done < tokens
    ensures var n := Min(size, tokens - done);
            Growing(ends + [ends[|ends| - 1] + n], first, done + n, tokens, size, computed)
  {
    hide Times;
    var block := computed / size;
    TimesStep(block + (|ends| - 1 - first), size);
    var n := Min(size, tokens - done);
    var ends' := ends + [ends[|ends| - 1] + n];
    forall c | first < c < |ends'| - 1
      ensures ends'[c] - ends'[first] + computed == Times(block + (c - first), size)
    {
      assert ends'[c] == ends[c];
    }
  }

  lemma Grown(ends: seq<nat>, first: nat, tokens: nat, size: nat, computed: nat)
    requires Growing(ends, first, tokens, tokens, size, computed) && |ends| - 1 > first && tokens > 0
    ensures Shape(ends, first, |ends| - 2, tokens, size, computed)
  {
  }

  lemma StartAligned(ends: seq<nat>, tokens: nat, size: nat, computed: nat)
    requires size > 0 && ends != [] && computed % size == 0
    ensures Growing(ends, |ends| - 1, 0, tokens, size, computed)
  {
    CeilDivUnaligned(computed, size);
  }

  /** The first chunk of an unaligned segment finishes the block begun. */
  lemma StartUnaligned(ends: seq<nat>, tokens: nat, size: nat, computed: nat)
    requires size > 0 && ends != [] && computed % size != 0
    ensures Times(CeilDiv(computed, size), size) > computed
    ensures var n := Min(Times(CeilDiv(computed, size), size) - computed, tokens);
            Growing(ends + [ends[|ends| - 1] + n], |ends| - 1, n, tokens, size, computed)
  {
    CeilDivUnaligned(computed, size);
  }

  /** The chunks of one sequence. `starts` and `pos` are the chunk starts and the
      position reached so far. */
  method AddSegment(size: nat, computed: nat, tokens: nat, starts: seq<nat>, pos: nat, req: nat, seqIdx: seq<nat>)
    returns (starts': seq<nat>, pos': nat, seqIdx': seq<nat>)
    requires size > 0 && |seqIdx| == |starts|
    ensures pos' == pos + tokens && starts + [pos] <= starts' + [pos']
    ensures |seqIdx'| == |starts'| && seqIdx <= seqIdx'
    ensures forall c :: |seqIdx| <= c < |seqIdx'| ==> seqIdx'[c] == req
    ensures tokens > 0 ==> |starts'| > |starts| && Shape(starts' + [pos'], |starts|, |starts'| - 1, tokens, size, computed)
  {
    hide Times, Growing, Shape, CeilDiv;
    starts', pos', seqIdx' := starts, pos, seqIdx;
    var remaining: nat := tokens;
    if computed % size != 0 {
      StartUnaligned(starts + [pos], tokens, size, computed);
      seqIdx' := seqIdx' + [req];
      starts' := starts' + [pos'];
      var n := Min(Times(CeilDiv(computed, size), size) - computed, remaining);
      pos', remaining := pos' + n, remaining - n;
    } else {
      StartAligned(starts + [pos], tokens, size, computed);
    }
    var n := CeilDiv(remaining, size);
    ghost var first := |starts|;
    for chunk := 0 to n
      invariant remaining <= tokens && pos' == pos + (tokens - remaining)
      invariant starts + [pos] <= starts' + [pos'] && |seqIdx'| == |starts'| && seqIdx <= seqIdx'
      invariant forall c :: |seqIdx| <= c < |seqIdx'| ==> seqIdx'[c] == req
      invariant n - chunk == CeilDiv(remaining, size)
      invariant remaining < tokens ==> |starts'| > first
      invariant Growing(starts' + [pos'], first, tokens - remaining, tokens, size, computed)
    {
      CeilDivZero(remaining, size);
      CeilDivStep(remaining, size);
      Grow(starts' + [pos'], first, tokens - remaining, tokens, size, computed);
      seqIdx' := seqIdx' + [req];
      starts' := starts' + [pos'];
      var len := Min(size, remaining);
      pos', remaining := pos' + len, remaining - len;
    }
    CeilDivZero(remaining, size);
    assert remaining == 0;
    if tokens > 0 {
      Grown(starts' + [pos'], first, tokens, size, computed);
    }
  }

  /** The chunks of one row: those of its tokens up to the checkpoint, if there is
      one, and those of the rest. `chunk` is the one that ends on the checkpoint. */
  method AddRow(size: nat, computed: nat, tokens: nat, checkpoint: nat, starts: seq<nat>, pos: nat, req: nat, seqIdx: seq<nat>)
    returns (starts': seq<nat>, pos': nat, seqIdx': seq<nat>, chunk: int)
    requires size > 0 && |seqIdx| == |starts| && checkpoint <= tokens
    ensures pos' == pos + tokens && starts + [pos] <= starts' + [pos']
    ensures |seqIdx'| == |starts'| && seqIdx <= seqIdx'
    ensures forall c :: |seqIdx| <= c < |seqIdx'| ==> seqIdx'[c] == req
    ensures RowOk(starts' + [pos'], |starts|, |starts'| - 1, chunk, tokens, checkpoint, size, computed)
  {
    hide Shape;
    starts', pos', seqIdx', chunk := starts, pos, seqIdx, -1;
    if checkpoint != 0 {
      starts', pos', seqIdx' := AddSegment(size, computed, checkpoint, starts', pos', req, seqIdx');
      chunk := |starts'| - 1;
    }
    ghost var middle := starts' + [pos'];
    starts', pos', seqIdx' := AddSegment(size, computed + checkpoint, tokens - checkpoint, starts', pos', req, seqIdx');
    if checkpoint != 0 {
      ShapeKept(middle, starts' + [pos'], |starts|, chunk, checkpoint, size, computed);
    }
  }

  /** A row's chunks first..last: one shape or, with a checkpoint, one up to the end
      of the chunk that ends on it and one from there on. */
  ghost predicate RowOk(ends: seq<nat>, first: int, last: int, chunk: int, tokens: nat, checkpoint: nat, size: nat, computed: nat) {
    && (chunk == -1 <==> checkpoint == 0)
    && (tokens > 0 && checkpoint == 0 ==> 0 <= first <= last && Shape(ends, first, last, tokens, size, computed))
    && (checkpoint > 0 ==>
          && 0 <= first <= chunk <= last && Shape(ends, first, chunk, checkpoint, size, computed)
          && (checkpoint < tokens ==> chunk < last && Shape(ends, chunk + 1, last, tokens - checkpoint, size, computed + checkpoint)))
  }

  /** With tokens on both sides of the checkpoint, the two shapes make one exactly
      when the checkpoint falls on a block boundary. */
  lemma OneShapeIff(ends: seq<nat>, first: nat, last: nat, chunk: nat, tokens: nat, checkpoint: nat, size: nat, computed: nat)
    requires RowOk(ends, first, last, chunk, tokens, checkpoint, size, computed) && 0 < checkpoint < tokens
    ensures Shape(ends, first, last, tokens, size, computed) <==> (computed + checkpoint) % size == 0
  {
    hide Times;
    var block, block' := computed / size, (computed + checkpoint) / size;
    LastBlock(ends, first, chunk, checkpoint, size, computed);
    DivTimes(computed + checkpoint, size);
    if Shape(ends, first, last, tokens, size, computed) {
      ShapeAscends(ends, first, last, tokens, size, computed, chunk + 1);
      TimesStep(block + (chunk + 1 - first), size);
      BlockOf(block + (chunk + 1 - first), size, computed + checkpoint);
    }
    if (computed + checkpoint) % size == 0 {
      NextBlock(size, computed + checkpoint);
      assert block' == block + (chunk + 1 - first);
    }
  }

  lemma NextBlock(size: nat, x: nat)
    requires size > 0 && x > 0 && x % size == 0
    ensures x / size == (x - 1) / size + 1
  {
    hide Times;
    DivTimes(x, size);
    TimesStep(0, size);
    TimesStep(x / size - 1, size);
    BlockOf(x / size - 1, size, x - 1);
  }

  lemma ShapeKept(ends: seq<nat>, ends': seq<nat>, first: nat, last: nat, tokens: nat, size: nat, computed: nat)
    requires Shape(ends, first, last, tokens, size, computed) && ends <= ends'
    ensures Shape(ends', first, last, tokens, size, computed)
  {
    hide Times;
  }

  /** Where row r's chunks begin, as the kernel finds it. */
  function FirstChunk(last: seq<int>, r: nat): int
    requires r <= |last|
  {
    if r == 0 then 0 else last[r - 1] + 1
  }

  ghost predicate RowShaped(t: Table, locs: seq<nat>, computed: seq<nat>, checkpoints: seq<nat>, size: nat, r: int)
    requires |t.last| <= |t.chunks|
  {
    && 0 <= r < |t.last| && r + 1 < |locs| && r < |computed| && r < |checkpoints| && locs[r] + checkpoints[r] <= locs[r + 1]
    && RowOk(t.ends, FirstChunk(t.last, r), t.last[r], t.chunks[r], locs[r + 1] - locs[r], checkpoints[r], size, computed[r])
    && OwnChunks(t.seqIdx, FirstChunk(t.last, r), t.last[r], r)
  }

  ghost predicate OwnChunks(seqIdx: seq<nat>, first: int, last: int, r: int) {
    0 <= first && last < |seqIdx| && forall c :: first <= c <= last ==> seqIdx[c] == r
  }

  /** Chunk boundaries, the row of each chunk, each row's last chunk, and the chunk
      that ends on each row's checkpoint, or -1. */
  datatype Table = Table(ends: seq<nat>, seqIdx: seq<nat>, last: seq<int>, chunks: seq<int>)

  /** For every batch, the chunks of every row that has tokens belong to that row
      alone and make one shape or, when a checkpoint lies inside the row, one on
      each side of it; a checkpoint is the end of the chunk named for it, and the
      table covers exactly the batch's tokens. */
  method ComputeChunkMetadata(size: nat, computed: seq<nat>, locs: seq<nat>, checkpoints: seq<nat>) returns (t: Table)
    requires size > 0 && |locs| == |computed| + 1 && |checkpoints| == |computed|
    requires forall r :: 0 <= r < |computed| ==> locs[r] + checkpoints[r] <= locs[r + 1]
    ensures |t.last| == |t.chunks| == |computed| && |t.ends| == |t.seqIdx| + 1 && t.ends[0] == 0
    ensures locs[0] + t.ends[|t.ends| - 1] == locs[|computed|]
    ensures forall r :: 0 <= r < |computed| ==> RowShaped(t, locs, computed, checkpoints, size, r)
  {
    var starts: seq<nat>, pos: nat := [], 0;
    t := Table([0], [], [], []);
    for r := 0 to |computed|
      invariant |t.last| == |t.chunks| == r && |t.seqIdx| == |starts| && t.ends == starts + [pos] && t.ends[0] == 0
      invariant locs[0] + pos == locs[r] && FirstChunk(t.last, r) == |starts|
      invariant forall q :: 0 <= q < r ==> RowShaped(t, locs, computed, checkpoints, size, q)
    {
      hide RowOk;
      ghost var before := t;
      var seqIdx, chunk;
      starts, pos, seqIdx, chunk := AddRow(size, computed[r], locs[r + 1] - locs[r], checkpoints[r], starts, pos, r, t.seqIdx);
      t := Table(starts + [pos], seqIdx, t.last + [|starts| - 1], t.chunks + [chunk]);
      forall q | 0 <= q < r ensures RowShaped(t, locs, computed, checkpoints, size, q) {
        RowKept(before, t, locs, computed, checkpoints, size, q);
      }
    }
  }

  lemma RowKept(t: Table, t': Table, locs: seq<nat>, computed: seq<nat>, checkpoints: seq<nat>, size: nat, r: nat)
    requires |t.last| == |t.chunks| && |t'.last| == |t'.chunks| && RowShaped(t, locs, computed, checkpoints, size, r)
    requires t.ends <= t'.ends && t.seqIdx <= t'.seqIdx && t.last <= t'.last && t.chunks <= t'.chunks
    ensures RowShaped(t', locs, computed, checkpoints, size, r)
  {
    hide Shape;
    RowOkKept(t.ends, t'.ends, FirstChunk(t.last, r), t.last[r], t.chunks[r], locs[r + 1] - locs[r], checkpoints[r], size, computed[r]);
    assert FirstChunk(t'.last, r) == FirstChunk(t.last, r) && t'.last[r] == t.last[r];
  }

  lemma RowOkKept(ends: seq<nat>, ends': seq<nat>, first: int, last: int, chunk: int, tokens: nat, checkpoint: nat, size: nat, computed: nat)
    requires RowOk(ends, first, last, chunk, tokens, checkpoint, size, computed) && ends <= ends'
    ensures RowOk(ends', first, last, chunk, tokens, checkpoint, size, computed)
  {
    hide Shape;
    if checkpoint > 0 {
      ShapeKept(ends, ends', first, chunk, checkpoint, size, computed);
      if checkpoint < tokens {
        ShapeKept(ends, ends', chunk + 1, last, tokens - checkpoint, size, computed + checkpoint);
      }
    } else if tokens > 0 {
      ShapeKept(ends, ends', first, last, tokens, size, computed);
    }
  }

  /** The checkpoint is where its chunk ends. */
  lemma CheckpointIsChunkEnd(t: Table, locs: seq<nat>, computed: seq<nat>, checkpoints: seq<nat>, size: nat, r: nat)
    requires |t.last| == |t.chunks| && RowShaped(t, locs, computed, checkpoints, size, r) && checkpoints[r] > 0
    ensures var first, chunk := FirstChunk(t.last, r), t.chunks[r];
            0 <= first <= chunk && chunk + 1 < |t.ends| && t.ends[chunk + 1] == t.ends[first] + checkpoints[r]
  {
    hide Times;
  }
}
