/** The chunked selective scan of sonar/_xpu_ops.py: one program instance, that
    is, one sequence and one channel.

    The recurrence over the tokens is cut into chunks; after each chunk the state
    is stored in the cache block that the chunk completes. Outputs overwrite the
    step sizes (`delta`) and gated outputs overwrite the gates (`z`). The token
    step itself is a parameter. */
module ChunkedScan {
  import opened Products

  /** One position: the channel input, the step size, and the B and C values. */
  datatype Token<V, W> = Token(u: V, delta: V, w: W)

  /** The arithmetic of one token: the state update, the output of a state, and
      the gate. */
  datatype Kernel<!S, !V, !W> = Kernel(zero: S, step: (S, Token<V, W>) -> S, emit: (S, Token<V, W>) -> V, gate: (V, V) -> V)

  // ---------- the unchunked scan ----------

  function Scan<S, V, W>(k: Kernel<S, V, W>, s: S, toks: seq<Token<V, W>>): S {
    if toks == [] then s else k.step(Scan(k, s, toks[..|toks| - 1]), toks[|toks| - 1])
  }

  function Output<S, V, W>(k: Kernel<S, V, W>, s: S, toks: seq<Token<V, W>>, i: nat): V
    requires i < |toks|
  {
    k.emit(Scan(k, s, toks[..i + 1]), toks[i])
  }

  /** Interrupting a scan and going on from its state is no interruption. */
  lemma {:induction false} ScanConcat<S, V, W>(k: Kernel<S, V, W>, s: S, xs: seq<Token<V, W>>, ys: seq<Token<V, W>>)
    ensures Scan(k, s, xs + ys) == Scan(k, Scan(k, s, xs), ys)
    decreases |ys|
  {
    if ys == [] {
      assert xs + ys == xs;
    } else {
      assert (xs + ys)[..|xs + ys| - 1] == xs + ys[..|ys| - 1];
      ScanConcat(k, s, xs, ys[..|ys| - 1]);
    }
  }

  lemma OutputConcat<S, V, W>(k: Kernel<S, V, W>, s: S, xs: seq<Token<V, W>>, ys: seq<Token<V, W>>, i: nat)
    requires i < |ys|
    ensures Output(k, s, xs + ys, |xs| + i) == Output(k, Scan(k, s, xs), ys, i)
  {
    assert (xs + ys)[..|xs| + i + 1] == xs + ys[..i + 1];
    ScanConcat(k, s, xs, ys[..i + 1]);
  }

  /** The states of a scan one by one: each token steps the state before it, and
      its output is emitted from the state after it. */
  ghost predicate Trajectory<S, V, W>(k: Kernel<S, V, W>, s: S, toks: seq<Token<V, W>>, ss: seq<S>) {
    && |ss| == |toks| + 1 && ss[0] == s
    && forall i :: 0 <= i < |toks| ==> ss[i + 1] == k.step(ss[i], toks[i])
  }

  lemma {:induction false} TrajectoryOf<S, V, W>(k: Kernel<S, V, W>, s: S, toks: seq<Token<V, W>>) returns (ss: seq<S>)
    ensures Trajectory(k, s, toks, ss) && Scan(k, s, toks) == ss[|toks|]
    ensures forall i :: 0 <= i < |toks| ==> Output(k, s, toks, i) == k.emit(ss[i + 1], toks[i])
    decreases |toks|
  {
    if toks == [] {
      ss := [s];
    } else {
      var n := |toks| - 1;
      ss := TrajectoryOf(k, s, toks[..n]);
      ss := ss + [k.step(ss[n], toks[n])];
      forall i | 0 <= i < |toks| ensures Output(k, s, toks, i) == k.emit(ss[i + 1], toks[i]) {
        if i < n {
          assert toks[..n][..i + 1] == toks[..i + 1] && toks[..n][i] == toks[i];
          assert Output(k, s, toks[..n], i) == k.emit(ss[i + 1], toks[..n][i]);
        } else {
          assert toks[..n + 1] == toks;
        }
      }
    }
  }

  ghost function Tokens<V, W>(u: seq<V>, delta: seq<V>, w: seq<W>, start: nat, len: nat): (toks: seq<Token<V, W>>)
    requires start + len <= |u| && start + len <= |delta| && start + len <= |w|
    ensures |toks| == len
    ensures forall i :: 0 <= i < len ==> toks[i] == Token(u[start + i], delta[start + i], w[start + i])
  {
    seq(len, i requires 0 <= i < len => Token(u[start + i], delta[start + i], w[start + i]))
  }

  // ---------- block boundaries and chunk shape ----------

  lemma BlockOf(block: nat, size: nat, x: nat)
    requires size > 0 && Times(block, size) <= x < Times(block + 1, size)
    ensures x / size == block
  {
    BlockBounds(size, x);
    TimesMonotone(x / size + 1, block, size);
    TimesMonotone(block + 1, x / size, size);
  }

  lemma BlockBounds(size: nat, x: nat)
    requires size > 0
    ensures Times(x / size, size) <= x < Times(x / size + 1, size)
  {
    hide Times;
    DivTimes(x, size);
    TimesStep(x / size, size);
  }

  /** Chunks first..last of a sequence whose first token has absolute position
      computed: together they hold len tokens, every chunk but the last ends on a
      block boundary, one block after the other, and the last one stays inside
      its block. `ends[c]` is where chunk c starts, `ends[c + 1]` where it ends. */
  ghost predicate Shape(ends: seq<nat>, first: nat, last: nat, len: nat, size: nat, computed: nat) {
    && size > 0 && first <= last && last + 1 < |ends|
    && ends[first] + len == ends[last + 1]
    && ends[last] < ends[last + 1]
    && (forall c :: first < c <= last ==> ends[c] - ends[first] + computed == Times(computed / size + (c - first), size))
    && len + computed <= Times(computed / size + (last - first) + 1, size)
  }

  /** The chunks of a shape ascend. */
  lemma ShapeAscends(ends: seq<nat>, first: nat, last: nat, len: nat, size: nat, computed: nat, c: nat)
    requires Shape(ends, first, last, len, size, computed) && first <= c <= last
    ensures ends[first] <= ends[c] < ends[c + 1] <= ends[last + 1]
    ensures c > first ==> ends[c] - ends[first] + computed == Times(computed / size + (c - first), size)
  {
    hide Times;
    BlockBounds(size, computed);
    var block := computed / size;
    TimesStep(block + (c - first), size);
    TimesMonotone(block + 1, block + (c - first), size);
    TimesMonotone(block + (c - first) + 1, block + (last - first), size);
  }

  /** The block of the last token is the one the last chunk lies in. */
  lemma LastBlock(ends: seq<nat>, first: nat, last: nat, len: nat, size: nat, computed: nat)
    requires Shape(ends, first, last, len, size, computed)
    ensures len > 0 && (computed + len - 1) / size == computed / size + (last - first)
  {
    ShapeAscends(ends, first, last, len, size, computed, last);
    BlockBounds(size, computed);
    BlockOf(computed / size + (last - first), size, computed + len - 1);
  }

  // ---------- the kernel ----------

  /** Where the states live: one slot for the whole call, or a row of cache
      blocks with the chunk table. */
  datatype Slots =
    | Direct(slot: int, indexed: bool)
    | Cached(row: seq<int>, blockFirst: nat, blockLast: nat, initBlock: nat,
             ends: seq<nat>, firstChunk: nat, lastChunk: nat, blockSize: nat)

  ghost predicate ValidSlot(states: int, slot: int) {
    0 <= slot < states
  }

  /** The slot arithmetic is in range, and the blocks written are distinct. */
  ghost predicate ValidSlots(slots: Slots, nstates: int, len: nat, computed: nat) {
    match slots
    case Direct(slot, _) => ValidSlot(nstates, slot)
    case Cached(row, blockFirst, blockLast, initBlock, ends, first, last, size) =>
      && Shape(ends, first, last, len, size, computed)
      && blockFirst == computed / size && blockLast == (computed + len - 1) / size
      && blockLast < |row| && initBlock < |row| && ValidSlot(nstates, row[initBlock])
      && (forall b :: blockFirst <= b <= blockLast ==> ValidSlot(nstates, row[b]))
      && (forall b, c :: blockFirst <= b < c <= blockLast ==> row[b] != row[c])
  }

  function LoadSlot(slots: Slots): int
    requires slots.Cached? ==> slots.initBlock < |slots.row|
  {
    match slots
    case Direct(slot, _) => slot
    case Cached(row, _, _, initBlock, _, _, _, _) => row[initBlock]
  }

  /** A call on the null block does nothing. */
  predicate Skipped(slots: Slots, nullBlock: int)
    requires slots.Cached? ==> slots.initBlock < |slots.row|
  {
    (slots.Cached? || slots.indexed) && LoadSlot(slots) == nullBlock
  }

  ghost predicate Written(slots: Slots, x: int) {
    match slots
    case Direct(slot, _) => x == slot
    case Cached(row, blockFirst, blockLast, _, _, _, _, _) =>
      exists b :: blockFirst <= b <= blockLast && b < |row| && row[b] == x
  }

  /** The buffers of a call as they were at its start. */
  datatype Before<!V> = Before(delta: seq<V>, z: seq<V>)

  ghost predicate Fits<V, W>(u: seq<V>, w: seq<W>, b: Before<V>, hasZ: bool, start: nat, len: nat) {
    && start + len <= |u| && start + len <= |w| && start + len <= |b.delta| && (hasZ ==> start + len <= |b.z|)
  }

  /** The gate at a position, as it was at the start. */
  ghost function GateAt<V>(b: Before<V>, start: nat, i: nat): V
    requires start + i < |b.z|
  {
    b.z[start + i]
  }

  /** The outputs have replaced the step sizes, and the gated outputs the gates,
      at the first n positions of the sequence; nothing else has changed. */
  ghost predicate Emitted<S, V, W>(k: Kernel<S, V, W>, s0: S, toks: seq<Token<V, W>>, hasZ: bool, start: nat, n: nat,
                                   b: Before<V>, delta: seq<V>, z: seq<V>)
  {
    && n <= |toks| && |delta| == |b.delta| && start + |toks| <= |delta|
    && |z| == |b.z| && (hasZ ==> start + |toks| <= |z|)
    && (forall i :: 0 <= i < n ==> delta[start + i] == Output(k, s0, toks, i))
    && (forall i :: 0 <= i < |delta| && !(start <= i < start + n) ==> delta[i] == b.delta[i])
    && (if hasZ then
          && (forall i :: 0 <= i < n ==> z[start + i] == k.gate(Output(k, s0, toks, i), GateAt(b, start, i)))
          && (forall i :: 0 <= i < |z| && !(start <= i < start + n) ==> z[i] == b.z[i])
        else z == b.z)
  }

  /** The tokens of one chunk: each position is read before it is overwritten. */
  method ScanTokens<S, V, W>(k: Kernel<S, V, W>, u: seq<V>, w: seq<W>, delta: array<V>, hasZ: bool, z: array<V>,
                             start: nat, from: nat, count: nat, state: S,
                             ghost s0: S, ghost len: nat, ghost b: Before<V>) returns (state': S)
    requires Fits(u, w, b, hasZ, start, len) && z != delta && from + count <= len
    requires var toks := Tokens(u, b.delta, w, start, len);
             Emitted(k, s0, toks, hasZ, start, from, b, delta[..], z[..]) && state == Scan(k, s0, toks[..from])
    modifies delta, z
    ensures var toks := Tokens(u, b.delta, w, start, len);
            && Emitted(k, s0, toks, hasZ, start, from + count, b, delta[..], z[..])
            && state' == Scan(k, s0, toks[..from + count])
  {
    hide Emitted, Scan, Tokens;
    ghost var toks := Tokens(u, b.delta, w, start, len);
    state' := state;
    var j := 0;
    while j < count
      invariant 0 <= j <= count && state' == Scan(k, s0, toks[..from + j])
      invariant Emitted(k, s0, toks, hasZ, start, from + j, b, delta[..], z[..])
    {
      var pos := from + j;
      ghost var delta1, z1 := delta[..], z[..];
      NotYetEmitted(k, s0, toks, hasZ, start, pos, b, delta1, z1);
      ScanStep(k, s0, toks, pos);
      var token := Token(u[start + pos], delta[start + pos], w[start + pos]);
      state' := k.step(state', token);
      var out := k.emit(state', token);
      delta[start + pos] := out;
      if hasZ {
        z[start + pos] := k.gate(out, z[start + pos]);
      }
      assert delta[..] == delta1[start + pos := out];
      assert z[..] == if hasZ then z1[start + pos := k.gate(out, z1[start + pos])] else z1;
      EmittedStep(k, s0, toks, hasZ, start, pos, b, delta1, z1, delta[..], z[..]);
      j := j + 1;
    }
  }

  lemma ScanStep<S, V, W>(k: Kernel<S, V, W>, s: S, toks: seq<Token<V, W>>, n: nat)
    requires n < |toks|
    ensures Scan(k, s, toks[..n + 1]) == k.step(Scan(k, s, toks[..n]), toks[n])
  {
    assert toks[..n + 1][..n] == toks[..n];
  }

  lemma NotYetEmitted<S, V, W>(k: Kernel<S, V, W>, s0: S, toks: seq<Token<V, W>>, hasZ: bool, start: nat, n: nat,
                               b: Before<V>, delta: seq<V>, z: seq<V>)
    requires Emitted(k, s0, toks, hasZ, start, n, b, delta, z) && n < |toks|
    ensures |delta| == |b.delta| && start + n < |delta| && delta[start + n] == b.delta[start + n]
    ensures hasZ ==> |z| == |b.z| && start + n < |z| && z[start + n] == b.z[start + n]
  {
  }

  lemma EmittedStep<S, V, W>(k: Kernel<S, V, W>, s0: S, toks: seq<Token<V, W>>, hasZ: bool, start: nat, n: nat,
                             b: Before<V>, delta: seq<V>, z: seq<V>, delta': seq<V>, z': seq<V>)
    requires Emitted(k, s0, toks, hasZ, start, n, b, delta, z) && n < |toks|
    requires delta' == delta[start + n := Output(k, s0, toks, n)]
    requires z' == if hasZ then z[start + n := k.gate(Output(k, s0, toks, n), GateAt(b, start, n))] else z
    ensures Emitted(k, s0, toks, hasZ, start, n + 1, b, delta', z')
  {
  }

  /** The state in a block's slot is the unchunked scan of all tokens up to that
      block's end. */
  ghost predicate BlockStored<S, V, W>(k: Kernel<S, V, W>, s0: S, toks: seq<Token<V, W>>, slots: Slots, computed: nat,
                                       states: seq<S>, b: int)
    requires slots.Cached?
  {
    && 0 <= b < |slots.row| && 0 <= slots.row[b] < |states|
    && computed <= Times(b + 1, slots.blockSize) <= computed + |toks|
    && states[slots.row[b]] == Scan(k, s0, toks[..Times(b + 1, slots.blockSize) - computed])
  }

  /** ... for the first n blocks. */
  ghost predicate Checkpointed<S, V, W>(k: Kernel<S, V, W>, s0: S, toks: seq<Token<V, W>>, slots: Slots, computed: nat,
                                        n: nat, states: seq<S>)
    requires slots.Cached?
  {
    forall b :: slots.blockFirst <= b < slots.blockFirst + n ==> BlockStored(k, s0, toks, slots, computed, states, b)
  }

  ghost predicate OthersKept<S>(slots: Slots, states0: seq<S>, states: seq<S>) {
    |states| == |states0| && forall x :: 0 <= x < |states| && !Written(slots, x) ==> states[x] == states0[x]
  }

  ghost predicate StatesStored<S, V, W>(k: Kernel<S, V, W>, s0: S, toks: seq<Token<V, W>>, slots: Slots, computed: nat,
                                        states0: seq<S>, states: seq<S>)
  {
    && OthersKept(slots, states0, states)
    && match slots
       case Direct(slot, _) => 0 <= slot < |states| && states[slot] == Scan(k, s0, toks)
       case Cached(row, blockFirst, blockLast, _, _, _, _, _) =>
         && blockFirst <= blockLast < |row| && 0 <= row[blockLast] < |states|
         && states[row[blockLast]] == Scan(k, s0, toks)
         && Checkpointed(k, s0, toks, slots, computed, blockLast - blockFirst, states)
  }

  /** The slot arithmetic for a chunk that reaches the absolute position reach:
      the block index it gives is c blocks on, and that block ends at reach. */
  ghost predicate Completes(slots: Slots, c: nat, reach: nat)
    requires slots.Cached? && slots.blockSize > 0
  {
    && reach > 0 && (reach - 1) / slots.blockSize == slots.blockFirst + c
    && Times(slots.blockFirst + c + 1, slots.blockSize) == reach
  }

  /** Every chunk but the last completes a block. */
  lemma ChunkCompletes(slots: Slots, len: nat, computed: nat, c: nat, reach: nat)
    requires slots.Cached? && Shape(slots.ends, slots.firstChunk, slots.lastChunk, len, slots.blockSize, computed)
    requires slots.blockFirst == computed / slots.blockSize
    requires slots.firstChunk + c < slots.lastChunk
    requires reach + slots.ends[slots.firstChunk] == computed + slots.ends[slots.firstChunk + c + 1]
    ensures Completes(slots, c, reach) && computed <= reach <= computed + len
  {
    hide Times;
    var b := slots.blockFirst + c;
    ShapeAscends(slots.ends, slots.firstChunk, slots.lastChunk, len, slots.blockSize, computed, slots.firstChunk + c + 1);
    TimesStep(b, slots.blockSize);
    BlockBounds(slots.blockSize, computed);
    TimesMonotone(slots.blockFirst + 1, b + 1, slots.blockSize);
    BlockOf(b, slots.blockSize, reach - 1);
  }

  lemma CheckpointStep<S, V, W>(k: Kernel<S, V, W>, s0: S, toks: seq<Token<V, W>>, slots: Slots, computed: nat,
                                n: nat, states: seq<S>, states': seq<S>)
    requires slots.Cached? && ValidSlots(slots, |states|, |toks|, computed)
    requires slots.blockFirst + n <= slots.blockLast && Checkpointed(k, s0, toks, slots, computed, n, states)
    requires computed <= Times(slots.blockFirst + n + 1, slots.blockSize) <= computed + |toks|
    requires states' == states[slots.row[slots.blockFirst + n] :=
                               Scan(k, s0, toks[..Times(slots.blockFirst + n + 1, slots.blockSize) - computed])]
    ensures Checkpointed(k, s0, toks, slots, computed, n + 1, states')
  {
    hide Times, Scan, Shape;
    var last := slots.blockFirst + n;
    assert ValidSlot(|states|, slots.row[last]);
    forall b | slots.blockFirst <= b < slots.blockFirst + (n + 1)
      ensures BlockStored(k, s0, toks, slots, computed, states', b)
    {
      if b < last {
        assert BlockStored(k, s0, toks, slots, computed, states, b);
        assert slots.row[b] != slots.row[last];
      }
    }
  }

  /** Every write goes to a block of the row, and keeps the slots outside. */
  lemma BlockWritten<S>(slots: Slots, states0: seq<S>, states: seq<S>, b: nat, s: S)
    requires slots.Cached? && slots.blockFirst <= b <= slots.blockLast < |slots.row|
    requires OthersKept(slots, states0, states) && 0 <= slots.row[b] < |states|
    ensures OthersKept(slots, states0, states[slots.row[b] := s])
  {
    assert Written(slots, slots.row[b]);
  }

  /** The last write, to the block of the last token, spares the checkpoints. */
  lemma LastWrite<S, V, W>(k: Kernel<S, V, W>, s0: S, toks: seq<Token<V, W>>, slots: Slots, computed: nat, states: seq<S>, s: S)
    requires slots.Cached? && ValidSlots(slots, |states|, |toks|, computed) && slots.blockFirst <= slots.blockLast
    requires Checkpointed(k, s0, toks, slots, computed, slots.blockLast - slots.blockFirst, states)
    ensures Checkpointed(k, s0, toks, slots, computed, slots.blockLast - slots.blockFirst,
                         states[slots.row[slots.blockLast] := s])
  {
    hide Times, Scan, Shape;
    var states' := states[slots.row[slots.blockLast] := s];
    forall b | slots.blockFirst <= b < slots.blockFirst + (slots.blockLast - slots.blockFirst)
      ensures BlockStored(k, s0, toks, slots, computed, states', b)
    {
      assert BlockStored(k, s0, toks, slots, computed, states, b);
      assert slots.row[b] != slots.row[slots.blockLast];
    }
  }

  /** Store the state after chunk c: in the block it completes or, after the last
      chunk, in the block of the last token. */
  method StoreState<S, V, W>(k: Kernel<S, V, W>, states: array<S>, slots: Slots, c: nat, reach: nat, state: S,
                             ghost s0: S, ghost toks: seq<Token<V, W>>, ghost computed: nat, ghost states0: seq<S>)
    requires slots.Cached? && ValidSlots(slots, states.Length, |toks|, computed)
    requires slots.blockSize > 0 && c <= slots.lastChunk - slots.firstChunk == slots.blockLast - slots.blockFirst
    requires OthersKept(slots, states0, states[..]) && Checkpointed(k, s0, toks, slots, computed, c, states[..])
    requires c < slots.lastChunk - slots.firstChunk ==>
               && Completes(slots, c, reach) && computed <= reach <= computed + |toks|
               && state == Scan(k, s0, toks[..reach - computed])
    modifies states
    ensures OthersKept(slots, states0, states[..])
    ensures c < slots.lastChunk - slots.firstChunk ==> Checkpointed(k, s0, toks, slots, computed, c + 1, states[..])
    ensures c == slots.lastChunk - slots.firstChunk ==>
              Checkpointed(k, s0, toks, slots, computed, c, states[..]) && states[slots.row[slots.blockLast]] == state
  {
    hide Scan, Times, Checkpointed, OthersKept, Shape;
    ghost var stored := states[..];
    if c == slots.lastChunk - slots.firstChunk {
      BlockWritten(slots, states0, stored, slots.blockLast, state);
      LastWrite(k, s0, toks, slots, computed, stored, state);
      states[slots.row[slots.blockLast]] := state;
      assert states[..] == stored[slots.row[slots.blockLast] := state];
    } else {
      var blockDone := (reach - 1) / slots.blockSize;
      BlockWritten(slots, states0, stored, blockDone, state);
      states[slots.row[blockDone]] := state;
      assert states[..] == stored[slots.row[blockDone] := state];
      CheckpointStep(k, s0, toks, slots, computed, c, stored, states[..]);
    }
  }

  /** The chunk loop with block checkpoints. */
  method ScanCached<S, V, W>(k: Kernel<S, V, W>, u: seq<V>, w: seq<W>, delta: array<V>, hasZ: bool, z: array<V>, states: array<S>,
                             start: nat, slots: Slots, state0: S, ghost len: nat, ghost computed: nat)
    requires slots.Cached? && ValidSlots(slots, states.Length, len, computed)
    requires Fits(u, w, Before(delta[..], z[..]), hasZ, start, len)
    requires z != delta && (states as object) != delta && (states as object) != z
    modifies delta, z, states
    ensures var b := Before(old(delta[..]), old(z[..]));
            var toks := Tokens(u, b.delta, w, start, len);
            && Emitted(k, state0, toks, hasZ, start, len, b, delta[..], z[..])
            && StatesStored(k, state0, toks, slots, computed, old(states[..]), states[..])
  {
    hide Emitted, Scan, Tokens, Times, Checkpointed, OthersKept, ValidSlots, Shape;
    ghost var b := Before(delta[..], z[..]);
    ghost var toks := Tokens(u, b.delta, w, start, len);
    var Cached(row, blockFirst, blockLast, _, ends, first, last, size) := slots;
    CachedBasics(slots, states.Length, len, computed);
    NothingYet(k, state0, toks, slots, computed, hasZ, start, b, states[..]);
    var n := last - first + 1;
    ShapeAscends(ends, first, last, len, size, computed, first);
    var firstTokens: nat := ends[first + 1] - ends[first];
    var offset: nat := if n > 1 && firstTokens < size then size - firstTokens else 0;
    var position: nat := Times(blockFirst, size) + offset;
    FirstPosition(slots, len, computed);
    var state := state0;
    var done: nat, c: nat := 0, 0;
    while c < n
      invariant c <= n && done <= len && ends[first] + done == ends[first + c]
      invariant n > 1 ==> position == computed + done
      invariant state == Scan(k, state0, toks[..done])
      invariant Emitted(k, state0, toks, hasZ, start, done, b, delta[..], z[..])
      invariant OthersKept(slots, old(states[..]), states[..])
      invariant Checkpointed(k, state0, toks, slots, computed, if c < n then c else n - 1, states[..])
      invariant c == n ==> states[row[blockLast]] == state
    {
      ShapeAscends(ends, first, last, len, size, computed, first + c);
      var chunkTokens: nat := ends[first + c + 1] - ends[first + c];
      state := ScanTokens(k, u, w, delta, hasZ, z, start, done, chunkTokens, state, state0, len, b);
      done := done + chunkTokens;
      if c + 1 < n {
        ChunkCompletes(slots, len, computed, c, position + chunkTokens);
      }
      StoreState(k, states, slots, c, position + chunkTokens, state, state0, toks, computed, old(states[..]));
      position := position + chunkTokens;
      c := c + 1;
    }
    assert toks[..len] == toks;
  }

  lemma CachedBasics(slots: Slots, nstates: nat, len: nat, computed: nat)
    requires slots.Cached? && ValidSlots(slots, nstates, len, computed)
    ensures Shape(slots.ends, slots.firstChunk, slots.lastChunk, len, slots.blockSize, computed)
    ensures slots.blockSize > 0 && slots.firstChunk <= slots.lastChunk && slots.lastChunk + 1 < |slots.ends|
    ensures slots.blockFirst == computed / slots.blockSize
    ensures slots.lastChunk - slots.firstChunk == slots.blockLast - slots.blockFirst
    ensures slots.ends[slots.firstChunk] + len == slots.ends[slots.lastChunk + 1]
    ensures slots.blockLast < |slots.row| && 0 <= slots.row[slots.blockLast] < nstates
  {
    LastBlock(slots.ends, slots.firstChunk, slots.lastChunk, len, slots.blockSize, computed);
    assert ValidSlot(nstates, slots.row[slots.blockLast]);
  }

  lemma NothingYet<S, V, W>(k: Kernel<S, V, W>, s0: S, toks: seq<Token<V, W>>, slots: Slots, computed: nat, hasZ: bool, start: nat,
                            b: Before<V>, states: seq<S>)
    requires start + |toks| <= |b.delta| && (hasZ ==> start + |toks| <= |b.z|)
    ensures Emitted(k, s0, toks, hasZ, start, 0, b, b.delta, b.z) && Scan(k, s0, toks[..0]) == s0
    ensures OthersKept(slots, states, states)
    ensures slots.Cached? ==> Checkpointed(k, s0, toks, slots, computed, 0, states)
  {
  }

  /** When more chunks follow, the starting position is chosen so that the first
      chunk ends where its block ends. */
  lemma FirstPosition(slots: Slots, len: nat, computed: nat)
    requires slots.Cached? && Shape(slots.ends, slots.firstChunk, slots.lastChunk, len, slots.blockSize, computed)
    requires slots.blockFirst == computed / slots.blockSize
    ensures slots.firstChunk < slots.lastChunk ==>
              var tokens := slots.ends[slots.firstChunk + 1] - slots.ends[slots.firstChunk];
              && tokens <= slots.blockSize
              && Times(slots.blockFirst, slots.blockSize) + slots.blockSize == tokens + computed
  {
    hide Times;
    if slots.firstChunk < slots.lastChunk {
      ShapeAscends(slots.ends, slots.firstChunk, slots.lastChunk, len, slots.blockSize, computed, slots.firstChunk + 1);
      TimesStep(slots.blockFirst, slots.blockSize);
      BlockBounds(slots.blockSize, computed);
    }
  }

  /** The slot the call is for is the null block: the one of a call without the
      block cache, or the one its row names for the initial state. */
  ghost predicate OnNullBlock(slots: Slots, nullBlock: int) {
    match slots
    case Direct(slot, indexed) => indexed && slot == nullBlock
    case Cached(row, _, _, initBlock, _, _, _, _) => initBlock < |row| && row[initBlock] == nullBlock
  }

  /** The slot is the call's own, or the one its row names for the initial state. */
  ghost predicate ResumesAt(slots: Slots, slot: int) {
    match slots
    case Direct(own, _) => slot == own
    case Cached(row, _, _, initBlock, _, _, _, _) => initBlock < |row| && slot == row[initBlock]
  }

  /** One program instance of the kernel. */
  method SelectiveScan<S, V, W>(k: Kernel<S, V, W>, u: seq<V>, w: seq<W>, delta: array<V>, hasZ: bool, z: array<V>, states: array<S>,
                                start: nat, len: nat, hasInitialState: bool, slots: Slots, nullBlock: int, ghost computed: nat)
    returns (ghost ss: seq<S>)
    requires ValidSlots(slots, states.Length, len, computed)
    requires Fits(u, w, Before(delta[..], z[..]), hasZ, start, len)
    requires z != delta && (states as object) != delta && (states as object) != z
    modifies delta, z, states
    ensures OnNullBlock(slots, nullBlock) ==> delta[..] == old(delta[..]) && z[..] == old(z[..]) && states[..] == old(states[..])
    ensures !OnNullBlock(slots, nullBlock) ==>
              var b := Before(old(delta[..]), old(z[..]));
              var toks := Tokens(u, b.delta, w, start, len);
              && |ss| == len + 1 && Trajectory(k, ss[0], toks, ss)
              && (hasInitialState ==> forall x :: ResumesAt(slots, x) ==> 0 <= x < states.Length && ss[0] == old(states[..])[x])
              && (!hasInitialState ==> ss[0] == k.zero)
              && Emitted(k, ss[0], toks, hasZ, start, len, b, delta[..], z[..])
              && StatesStored(k, ss[0], toks, slots, computed, old(states[..]), states[..])
              && (slots.Direct? ==> states[slots.slot] == ss[len])
              && forall i :: 0 <= i < len ==> delta[start + i] == k.emit(ss[i + 1], toks[i])
  {
    hide Emitted, Scan, Tokens, Times, Checkpointed, OthersKept, Shape, Trajectory, Output;
    ss := [];
    if Skipped(slots, nullBlock) {
      return;
    }
    var state := k.zero;
    if hasInitialState {
      state := states[LoadSlot(slots)];
    }
    ss := TrajectoryOf(k, state, Tokens(u, delta[..], w, start, len));
    if slots.Cached? {
      ScanCached(k, u, w, delta, hasZ, z, states, start, slots, state, len, computed);
    } else {
      ghost var b := Before(delta[..], z[..]);
      ghost var toks := Tokens(u, b.delta, w, start, len);
      NothingYet(k, state, toks, slots, computed, hasZ, start, b, states[..]);
      var state' := ScanTokens(k, u, w, delta, hasZ, z, start, 0, len, state, state, len, b);
      assert toks[..len] == toks;
      SlotWritten(slots, old(states[..]), state');
      states[slots.slot] := state';
      assert states[..] == old(states[..])[slots.slot := state'];
    }
    EmittedAt(k, state, Tokens(u, old(delta[..]), w, start, len), hasZ, start, Before(old(delta[..]), old(z[..])), delta[..], z[..], ss);
  }

  /** The outputs are emitted from the states after their tokens. */
  lemma EmittedAt<S, V, W>(k: Kernel<S, V, W>, s0: S, toks: seq<Token<V, W>>, hasZ: bool, start: nat,
                           b: Before<V>, delta: seq<V>, z: seq<V>, ss: seq<S>)
    requires Emitted(k, s0, toks, hasZ, start, |toks|, b, delta, z) && Trajectory(k, s0, toks, ss)
    requires forall i :: 0 <= i < |toks| ==> Output(k, s0, toks, i) == k.emit(ss[i + 1], toks[i])
    ensures ss[0] == s0 && |ss| == |toks| + 1 && start + |toks| <= |delta|
    ensures forall i :: 0 <= i < |toks| ==> delta[start + i] == k.emit(ss[i + 1], toks[i])
  {
    hide Output;
    forall i | 0 <= i < |toks| ensures delta[start + i] == k.emit(ss[i + 1], toks[i]) {
      assert delta[start + i] == Output(k, s0, toks, i);
    }
  }

  lemma SlotWritten<S>(slots: Slots, states: seq<S>, s: S)
    requires slots.Direct? && 0 <= slots.slot < |states|
    ensures OthersKept(slots, states, states[slots.slot := s])
  {
  }

  // ---------- over the whole history of a sequence ----------

  /** The slot of block b holds the scan of the whole history up to the end of
      that block, from the zero state. */
  ghost predicate BlockHolds<S, V, W>(k: Kernel<S, V, W>, history: seq<Token<V, W>>, row: seq<int>, size: nat, states: seq<S>, b: int) {
    && 0 <= b < |row| && 0 <= row[b] < |states| && Times(b + 1, size) <= |history|
    && states[row[b]] == Scan(k, k.zero, history[..Times(b + 1, size)])
  }

  /** A call that starts from the state of all tokens before it leaves, in the
      slot of every block it completes, the state of the whole history up to that
      block's end; and in the last slot the state of the whole history so far. */
  lemma BlocksHoldHistory<S, V, W>(k: Kernel<S, V, W>, history: seq<Token<V, W>>, computed: nat, s0: S, slots: Slots,
                                   states0: seq<S>, states: seq<S>, b: nat)
    requires slots.Cached? && computed <= |history| && s0 == Scan(k, k.zero, history[..computed])
    requires ValidSlots(slots, |states|, |history| - computed, computed)
    requires StatesStored(k, s0, history[computed..], slots, computed, states0, states)
    requires slots.blockFirst <= b <= slots.blockLast && Times(b + 1, slots.blockSize) <= |history|
    ensures BlockHolds(k, history, slots.row, slots.blockSize, states, b)
  {
    hide Scan, Shape, OthersKept;
    var toks := history[computed..];
    assert history[..computed] + toks == history;
    ScanConcat(k, k.zero, history[..computed], toks);
    assert ValidSlot(|states|, slots.row[b]);
    var end := Times(b + 1, slots.blockSize);
    if b < slots.blockLast {
      assert BlockStored(k, s0, toks, slots, computed, states, b);
      assert history[..computed] + toks[..end - computed] == history[..end];
      ScanConcat(k, k.zero, history[..computed], toks[..end - computed]);
    } else {
      LastBlockFull(slots, |states|, |toks|, computed);
      assert history[..end] == history;
    }
  }

  lemma LastHoldsHistory<S, V, W>(k: Kernel<S, V, W>, history: seq<Token<V, W>>, computed: nat, s0: S, slots: Slots,
                                  states0: seq<S>, states: seq<S>)
    requires slots.Cached? && computed <= |history| && s0 == Scan(k, k.zero, history[..computed])
    requires StatesStored(k, s0, history[computed..], slots, computed, states0, states)
    ensures states[slots.row[slots.blockLast]] == Scan(k, k.zero, history)
  {
    hide Scan, OthersKept;
    assert history[..computed] + history[computed..] == history;
    ScanConcat(k, k.zero, history[..computed], history[computed..]);
  }

  lemma LastBlockFull(slots: Slots, nstates: nat, len: nat, computed: nat)
    requires slots.Cached? && ValidSlots(slots, nstates, len, computed)
    ensures computed + len <= Times(slots.blockLast + 1, slots.blockSize)
  {
    CachedBasics(slots, nstates, len, computed);
  }

  /** A call keeps the checkpoints of the blocks before its own, provided the
      row gives them slots of their own. */
  lemma EarlierBlocksKept<S, V, W>(k: Kernel<S, V, W>, history: seq<Token<V, W>>, history': seq<Token<V, W>>, slots: Slots,
                                   states0: seq<S>, states: seq<S>, b: nat)
    requires slots.Cached? && OthersKept(slots, states0, states)
    requires b < slots.blockFirst && slots.blockLast < |slots.row|
    requires forall c :: slots.blockFirst <= c <= slots.blockLast ==> slots.row[c] != slots.row[b]
    requires BlockHolds(k, history, slots.row, slots.blockSize, states0, b)
    requires Times(b + 1, slots.blockSize) <= |history'|
    requires history'[..Times(b + 1, slots.blockSize)] == history[..Times(b + 1, slots.blockSize)]
    ensures BlockHolds(k, history', slots.row, slots.blockSize, states, b)
  {
    hide Scan, Times;
    assert !Written(slots, slots.row[b]);
  }

  /** Resuming from any checkpoint continues as if never interrupted: states and
      outputs are those of one scan of the whole history. */
  lemma ResumeFromBlock<S, V, W>(k: Kernel<S, V, W>, history: seq<Token<V, W>>, row: seq<int>, size: nat, states: seq<S>, b: nat, i: nat)
    requires BlockHolds(k, history, row, size, states, b)
    requires Times(b + 1, size) <= i < |history|
    ensures var from := Times(b + 1, size);
            var s := states[row[b]];
            && Scan(k, s, history[from..]) == Scan(k, k.zero, history)
            && Output(k, s, history[from..], i - from) == Output(k, k.zero, history, i)
  {
    hide Scan, Times, Output;
    var from := Times(b + 1, size);
    assert history[..from] + history[from..] == history;
    ScanConcat(k, k.zero, history[..from], history[from..]);
    OutputConcat(k, k.zero, history[..from], history[from..], i - from);
  }

  // ---------- any run of calls on one sequence ----------

  /** A call that resumes after the first `computed` tokens. */
  datatype Call<V, W> = Call(computed: nat, toks: seq<Token<V, W>>, slots: Slots)

  /** The call uses the sequence's row of blocks, and resumes from the end of the
      history or from the end of any block of it, loading the slot of the block
      of the last token before. */
  ghost predicate Lawful<V, W>(row: seq<int>, size: nat, history: seq<Token<V, W>>, nstates: nat, call: Call<V, W>) {
    && size > 0 && call.slots.Cached? && call.slots.row == row && call.slots.blockSize == size
    && ValidSlots(call.slots, nstates, |call.toks|, call.computed)
    && call.computed <= |history| && (call.computed == |history| || call.computed % size == 0)
    && (call.computed > 0 ==> call.slots.initBlock == (call.computed - 1) / size)
    && (forall b, c :: 0 <= b < c <= call.slots.blockLast ==> row[b] != row[c])
  }

  ghost function Resumed<S, V, W>(k: Kernel<S, V, W>, states: seq<S>, call: Call<V, W>): S
    requires call.slots.Cached? && call.slots.initBlock < |call.slots.row|
    requires 0 <= call.slots.row[call.slots.initBlock] < |states|
  {
    if call.computed == 0 then k.zero else states[call.slots.row[call.slots.initBlock]]
  }

  /** What SelectiveScan promises of the states. */
  ghost predicate Called<S, V, W>(k: Kernel<S, V, W>, row: seq<int>, size: nat, history: seq<Token<V, W>>, states: seq<S>,
                                  call: Call<V, W>, states': seq<S>)
  {
    && |states'| == |states| && Lawful(row, size, history, |states|, call)
    && StatesStored(k, Resumed(k, states, call), call.toks, call.slots, call.computed, states, states')
  }

  ghost function HistoryAfter<V, W>(history: seq<Token<V, W>>, call: Call<V, W>): seq<Token<V, W>>
    requires call.computed <= |history|
  {
    history[..call.computed] + call.toks
  }

  /** Every completed block holds the state at its end, and the block of the last
      token the state of the whole history. */
  ghost predicate Faithful<S, V, W>(k: Kernel<S, V, W>, row: seq<int>, size: nat, history: seq<Token<V, W>>, states: seq<S>) {
    && size > 0
    && (forall b {:trigger BlockHolds(k, history, row, size, states, b)} ::
          0 <= b && Times(b + 1, size) <= |history| ==> BlockHolds(k, history, row, size, states, b))
    && (history != [] ==>
          var b := (|history| - 1) / size;
          b < |row| && 0 <= row[b] < |states| && states[row[b]] == Scan(k, k.zero, history))
  }

  /** The outputs of a call are those of one scan of the whole history. */
  ghost predicate OutputsFaithful<S, V, W>(k: Kernel<S, V, W>, states: seq<S>, call: Call<V, W>, history: seq<Token<V, W>>) {
    && call.slots.Cached? && call.slots.initBlock < |call.slots.row| && 0 <= call.slots.row[call.slots.initBlock] < |states|
    && call.computed + |call.toks| == |history|
    && forall i :: 0 <= i < |call.toks| ==>
         Output(k, Resumed(k, states, call), call.toks, i) == Output(k, k.zero, history, call.computed + i)
  }

  /** Whatever the slot a call resumes from, it starts with the state of all the
      tokens before it. */
  lemma ResumesFaithfully<S, V, W>(k: Kernel<S, V, W>, row: seq<int>, size: nat, history: seq<Token<V, W>>, states: seq<S>, call: Call<V, W>)
    requires Faithful(k, row, size, history, states) && Lawful(row, size, history, |states|, call)
    ensures Resumed(k, states, call) == Scan(k, k.zero, history[..call.computed])
  {
    hide Shape, Times;
    if call.computed == |history| {
      assert history[..call.computed] == history;
    } else if call.computed > 0 {
      var b := (call.computed - 1) / size;
      LastOfBlock(call.computed, size);
      assert BlockHolds(k, history, row, size, states, b);
    }
  }

  /** The last token before a boundary is in the block that ends there. */
  lemma LastOfBlock(n: nat, size: nat)
    requires size > 0 && n > 0 && n % size == 0
    ensures Times((n - 1) / size + 1, size) == n
  {
    hide Times;
    DivTimes(n, size);
    TimesStep(0, size);
    TimesStep(n / size - 1, size);
    BlockOf(n / size - 1, size, n - 1);
  }

  lemma BlockKept<S, V, W>(k: Kernel<S, V, W>, row: seq<int>, size: nat, history: seq<Token<V, W>>, states: seq<S>,
                           call: Call<V, W>, states': seq<S>, b: nat)
    requires Faithful(k, row, size, history, states) && Called(k, row, size, history, states, call, states')
    requires Times(b + 1, size) <= call.computed + |call.toks|
    ensures BlockHolds(k, HistoryAfter(history, call), row, size, states', b)
  {
    hide Shape, Times, Scan, Checkpointed, OthersKept;
    var history' := HistoryAfter(history, call);
    var end := Times(b + 1, size);
    BlockIsReached(call.computed, |call.toks|, size, call.slots, |states|, b);
    if b < call.slots.blockFirst {
      assert BlockHolds(k, history, row, size, states, b);
      assert history'[..end] == history[..end];
      EarlierBlocksKept(k, history, history', call.slots, states, states', b);
    } else {
      ResumesFaithfully(k, row, size, history, states, call);
      assert history'[..call.computed] == history[..call.computed] && history'[call.computed..] == call.toks;
      BlocksHoldHistory(k, history', call.computed, Resumed(k, states, call), call.slots, states, states', b);
    }
  }

  /** A block that ends within the tokens so far is before the call's blocks, and
      then ends within the tokens before the call, or is one of them. */
  lemma BlockIsReached(computed: nat, len: nat, size: nat, slots: Slots, nstates: nat, b: nat)
    requires slots.Cached? && slots.blockSize == size && ValidSlots(slots, nstates, len, computed)
    requires Times(b + 1, size) <= computed + len
    ensures b <= slots.blockLast && (b < slots.blockFirst ==> Times(b + 1, size) <= computed)
  {
    hide Times;
    CachedBasics(slots, nstates, len, computed);
    LastBlock(slots.ends, slots.firstChunk, slots.lastChunk, len, size, computed);
    BlockBounds(size, computed);
    TimesMonotone(b + 1, slots.blockFirst, size);
    BlockBounds(size, computed + len - 1);
    TimesStep(b, size);
    TimesMonotone(slots.blockLast + 1, b, size);
  }

  /** A call keeps the history faithful, and its outputs are those of one
      uninterrupted scan. */
  lemma CallIsFaithful<S, V, W>(k: Kernel<S, V, W>, row: seq<int>, size: nat, history: seq<Token<V, W>>, states: seq<S>,
                                call: Call<V, W>, states': seq<S>)
    requires Faithful(k, row, size, history, states) && Called(k, row, size, history, states, call, states')
    ensures Faithful(k, row, size, HistoryAfter(history, call), states')
    ensures OutputsFaithful(k, states, call, HistoryAfter(history, call))
  {
    hide Shape, Times, Scan, Checkpointed, OthersKept, Output, BlockHolds;
    var history' := HistoryAfter(history, call);
    forall b {:trigger BlockHolds(k, history', row, size, states', b)} | 0 <= b && Times(b + 1, size) <= |history'|
      ensures BlockHolds(k, history', row, size, states', b)
    {
      BlockKept(k, row, size, history, states, call, states', b);
    }
    ResumesFaithfully(k, row, size, history, states, call);
    assert history'[..call.computed] == history[..call.computed] && history'[call.computed..] == call.toks;
    LastHoldsHistory(k, history', call.computed, Resumed(k, states, call), call.slots, states, states');
    forall i | 0 <= i < |call.toks|
      ensures Output(k, Resumed(k, states, call), call.toks, i) == Output(k, k.zero, history', call.computed + i)
    {
      OutputConcat(k, k.zero, history[..call.computed], call.toks, i);
    }
  }

  /** A run of calls: states[j] before call j, and the history it then has. */
  ghost predicate ScanRun<S, V, W>(k: Kernel<S, V, W>, row: seq<int>, size: nat, calls: seq<Call<V, W>>, states: seq<seq<S>>,
                                   histories: seq<seq<Token<V, W>>>)
  {
    && |states| == |histories| == |calls| + 1 && size > 0 && histories[0] == []
    && forall j :: 0 <= j < |calls| ==>
         && Called(k, row, size, histories[j], states[j], calls[j], states[j + 1])
         && histories[j + 1] == HistoryAfter(histories[j], calls[j])
  }

  /** Over every run of calls on one sequence, each resuming from the end or from
      any completed block: the states stay faithful to the history, and every
      output is that of one uninterrupted scan. */
  lemma {:induction false} RunIsFaithful<S, V, W>(k: Kernel<S, V, W>, row: seq<int>, size: nat, calls: seq<Call<V, W>>,
                                                  states: seq<seq<S>>, histories: seq<seq<Token<V, W>>>, n: nat)
    requires ScanRun(k, row, size, calls, states, histories) && n <= |calls|
    ensures Faithful(k, row, size, histories[n], states[n])
    ensures n < |calls| ==> OutputsFaithful(k, states[n], calls[n], histories[n + 1])
  {
    hide Called, Faithful, OutputsFaithful;
    if n == 0 {
      NoHistory(k, row, size, states[0]);
    } else {
      RunIsFaithful(k, row, size, calls, states, histories, n - 1);
      CallIsFaithful(k, row, size, histories[n - 1], states[n - 1], calls[n - 1], states[n]);
    }
    if n < |calls| {
      CallIsFaithful(k, row, size, histories[n], states[n], calls[n], states[n + 1]);
    }
  }

  lemma NoHistory<S, V, W>(k: Kernel<S, V, W>, row: seq<int>, size: nat, states: seq<S>)
    requires size > 0
    ensures Faithful<S, V, W>(k, row, size, [], states)
  {
    hide Times;
    var history: seq<Token<V, W>> := [];
    forall b {:trigger BlockHolds(k, history, row, size, states, b)} | 0 <= b
      ensures Times(b + 1, size) <= 0 ==> BlockHolds(k, history, row, size, states, b)
    {
      TimesStep(b, size);
    }
  }

  // ---------- any run of calls on several sequences, without the block cache ----------

  /** New tokens of sequence q: inputs, step sizes, B and C values, and gates. */
  datatype Batch<V, W> = Batch(q: nat, u: seq<V>, delta: seq<V>, w: seq<W>, z: seq<V>)

  ghost predicate BatchOk<V, W>(batch: Batch<V, W>, sequences: nat, hasZ: bool) {
    && batch.q < sequences && |batch.u| == |batch.delta| == |batch.w|
    && (hasZ ==> |batch.z| == |batch.u|)
  }

  ghost function BatchTokens<V, W>(batch: Batch<V, W>): (toks: seq<Token<V, W>>)
    ensures |batch.u| == |batch.delta| == |batch.w| ==> |toks| == |batch.u|
  {
    if |batch.u| == |batch.delta| == |batch.w| then Tokens(batch.u, batch.delta, batch.w, 0, |batch.u|) else []
  }

  /** All tokens of sequence q so far. */
  ghost function HistoryOf<V, W>(batches: seq<Batch<V, W>>, q: nat): seq<Token<V, W>> {
    if batches == [] then []
    else
      var last := batches[|batches| - 1];
      HistoryOf(batches[..|batches| - 1], q) + if last.q == q then BatchTokens(last) else []
  }

  lemma HistoryGrows<V, W>(batches: seq<Batch<V, W>>, j: nat, q: nat)
    requires j < |batches|
    ensures HistoryOf(batches[..j + 1], q) == HistoryOf(batches[..j], q) + if batches[j].q == q then BatchTokens(batches[j]) else []
  {
    assert batches[..j + 1][..j] == batches[..j];
  }

  /** The outputs of a batch are those of one uninterrupted scan of its sequence,
      and the gated outputs go with them. */
  ghost predicate OutputsOf<S, V, W>(k: Kernel<S, V, W>, history: seq<Token<V, W>>, batch: Batch<V, W>, hasZ: bool,
                                     out: seq<V>, gated: seq<V>)
  {
    && |out| == |batch.u| <= |history| && (hasZ ==> |gated| == |out| == |batch.z|)
    && (forall i :: 0 <= i < |out| ==> out[i] == Output(k, k.zero, history, |history| - |out| + i))
    && (hasZ ==> forall i :: 0 <= i < |out| ==> gated[i] == k.gate(out[i], batch.z[i]))
  }

  ghost predicate SlotsApart(slots: seq<int>, nstates: nat) {
    && (forall q :: 0 <= q < |slots| ==> ValidSlot(nstates, slots[q]))
    && (forall p, q :: 0 <= p < q < |slots| ==> slots[p] != slots[q])
  }

  /** Slot q holds the scan of all the tokens of sequence q. */
  ghost predicate SlotHolds<S, V, W>(k: Kernel<S, V, W>, slots: seq<int>, states: seq<S>, history: seq<Token<V, W>>, q: nat) {
    q < |slots| && ValidSlot(|states|, slots[q]) && (history != [] ==> states[slots[q]] == Scan(k, k.zero, history))
  }

  /** One batch, scanned in buffers of its own. */
  method ScanBatch<S, V, W>(k: Kernel<S, V, W>, batch: Batch<V, W>, hasZ: bool, states: array<S>, slots: seq<int>, indexed: bool,
                            nullBlock: int, resume: bool, ghost history: seq<Token<V, W>>)
    returns (out: seq<V>, gated: seq<V>)
    requires BatchOk(batch, |slots|, hasZ) && SlotsApart(slots, states.Length)
    requires indexed ==> nullBlock !in slots
    requires SlotHolds(k, slots, states[..], history, batch.q) && (resume <==> history != [])
    modifies states
    ensures var history' := history + BatchTokens(batch);
            && SlotHolds(k, slots, states[..], history', batch.q)
            && OutputsOf(k, history', batch, hasZ, out, gated)
    ensures forall x :: 0 <= x < states.Length && x != slots[batch.q] ==> states[x] == old(states[x])
  {
    hide Scan, Output, Tokens, Emitted, Trajectory;
    var n := |batch.u|;
    var delta := new V[n](i requires 0 <= i < n => batch.delta[i]);
    var z := new V[|batch.z|](i requires 0 <= i < |batch.z| => batch.z[i]);
    assert delta[..] == batch.delta && z[..] == batch.z;
    ghost var toks := BatchTokens(batch);
    ghost var ss := SelectiveScan(k, batch.u, batch.w, delta, hasZ, z, states, 0, n, resume, Direct(slots[batch.q], indexed), nullBlock, 0);
    assert ResumesAt(Direct(slots[batch.q], indexed), slots[batch.q]);
    assert ss[0] == Scan(k, k.zero, history) by {
      NoTokens(k);
    }
    ScanConcat(k, k.zero, history, toks);
    EmittedOutputs(k, ss[0], toks, hasZ, Before(batch.delta, batch.z), delta[..], z[..]);
    out, gated := delta[..], z[..];
    forall i | 0 <= i < n ensures out[i] == Output(k, k.zero, history + toks, |history| + i) {
      OutputConcat(k, k.zero, history, toks, i);
    }
  }

  lemma NothingScanned<V, W>(batches: seq<Batch<V, W>>)
    ensures forall q: nat :: HistoryOf(batches[..0], q) == []
  {
  }

  lemma NoTokens<S, V, W>(k: Kernel<S, V, W>)
    ensures Scan<S, V, W>(k, k.zero, []) == k.zero
  {
  }

  lemma EmittedOutputs<S, V, W>(k: Kernel<S, V, W>, s0: S, toks: seq<Token<V, W>>, hasZ: bool, b: Before<V>, delta: seq<V>, z: seq<V>)
    requires Emitted(k, s0, toks, hasZ, 0, |toks|, b, delta, z)
    ensures |delta| == |b.delta| && |z| == |b.z| && |toks| <= |delta| && (hasZ ==> |toks| <= |z|)
    ensures forall i :: 0 <= i < |toks| ==> delta[i] == Output(k, s0, toks, i)
    ensures hasZ ==> forall i :: 0 <= i < |toks| ==> z[i] == k.gate(delta[i], b.z[i])
  {
    hide Output;
    forall i | 0 <= i < |toks|
      ensures delta[i] == Output(k, s0, toks, i) && (hasZ ==> z[i] == k.gate(delta[i], b.z[i]))
    {
      assert delta[0 + i] == Output(k, s0, toks, i);
      assert hasZ ==> z[0 + i] == k.gate(Output(k, s0, toks, i), GateAt(b, 0, i));
    }
  }

  /** Over every run of batches on several sequences with slots of their own, each
      resuming from its slot once the sequence has tokens: every slot holds the
      scan of its sequence's whole history, every output is that of one
      uninterrupted scan, and no other slot changes. */
  method ScanBatches<S, V, W>(k: Kernel<S, V, W>, batches: seq<Batch<V, W>>, hasZ: bool, states: array<S>, slots: seq<int>,
                              indexed: bool, nullBlock: int)
    returns (outs: seq<seq<V>>, gateds: seq<seq<V>>)
    requires forall j :: 0 <= j < |batches| ==> BatchOk(batches[j], |slots|, hasZ)
    requires SlotsApart(slots, states.Length) && (indexed ==> nullBlock !in slots)
    modifies states
    ensures forall q :: 0 <= q < |slots| ==> SlotHolds(k, slots, states[..], HistoryOf(batches, q), q)
    ensures |outs| == |gateds| == |batches|
    ensures forall j :: 0 <= j < |batches| ==>
              OutputsOf(k, HistoryOf(batches[..j + 1], batches[j].q), batches[j], hasZ, outs[j], gateds[j])
    ensures forall x :: 0 <= x < states.Length && x !in slots ==> states[x] == old(states[x])
  {
    hide Scan, OutputsOf, BatchTokens, HistoryOf;
    outs, gateds := [], [];
    var counts := seq(|slots|, _ => 0);
    NothingScanned(batches);
    for j := 0 to |batches|
      invariant |outs| == |gateds| == j && |counts| == |slots|
      invariant forall q :: 0 <= q < |slots| ==> counts[q] == |HistoryOf(batches[..j], q)|
      invariant forall q :: 0 <= q < |slots| ==> SlotHolds(k, slots, states[..], HistoryOf(batches[..j], q), q)
      invariant forall i :: 0 <= i < j ==>
                  OutputsOf(k, HistoryOf(batches[..i + 1], batches[i].q), batches[i], hasZ, outs[i], gateds[i])
      invariant forall x :: 0 <= x < states.Length && x !in slots ==> states[x] == old(states[x])
    {
      var batch := batches[j];
      ghost var before, seen, next := states[..], batches[..j], batches[..j + 1];
      var out, gated := ScanBatch(k, batch, hasZ, states, slots, indexed, nullBlock, counts[batch.q] > 0,
                                  HistoryOf(seen, batch.q));
      ghost var after := states[..];
      forall q | 0 <= q < |slots|
        ensures SlotHolds(k, slots, after, HistoryOf(next, q), q)
        ensures |HistoryOf(next, q)| == |HistoryOf(seen, q)| + if q == batch.q then |batch.u| else 0
      {
        HistoryGrows(batches, j, q);
        assert SlotHolds(k, slots, before, HistoryOf(seen, q), q);
        assert q != batch.q ==> slots[q] != slots[batch.q] && HistoryOf(next, q) == HistoryOf(seen, q);
      }
      HistoryGrows(batches, j, batch.q);
      outs, gateds := outs + [out], gateds + [gated];
      counts := counts[batch.q := counts[batch.q] + |batch.u|];
    }
    assert batches[..|batches|] == batches;
  }
}
