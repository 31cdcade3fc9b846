/** The flat logprob container of sonar/logprobs.py: six parallel lists that
    stand in for a list of dictionaries. */
module FlatLogprobs {
  import opened Options

  datatype Logprob = Logprob(logprob: real, rank: Option<int>, decodedToken: Option<string>)

  /** The logprobs of one position, by token id. */
  type Position = map<int, Logprob>

  // ---------- what the lists mean ----------

  /** Entries in insertion order; of two entries for a token the later wins. */
  function Dict(entries: seq<(int, Logprob)>): Position {
    if entries == [] then map[]
    else Dict(entries[..|entries| - 1])[entries[|entries| - 1].0 := entries[|entries| - 1].1]
  }

  lemma DictOneMore(entries: seq<(int, Logprob)>, e: (int, Logprob))
    ensures Dict(entries + [e]) == Dict(entries)[e.0 := e.1]
  {
    assert (entries + [e])[..|entries|] == entries;
  }

  /** A token is in the dictionary just when some entry names it, and then
      holds what the last such entry says. */
  lemma {:induction false} DictIsLastWriteWins(entries: seq<(int, Logprob)>, token: int)
    ensures token in Dict(entries) <==> exists i :: 0 <= i < |entries| && entries[i].0 == token
    ensures forall i :: 0 <= i < |entries| && entries[i].0 == token
              && (forall j :: i < j < |entries| ==> entries[j].0 != token)
              ==> token in Dict(entries) && Dict(entries)[token] == entries[i].1
  {
    if entries != [] {
      var n := |entries| - 1;
      var before := entries[..n];
      DictIsLastWriteWins(before, token);
      assert Dict(entries) == Dict(before)[entries[n].0 := entries[n].1];
      hide Dict;
      assert forall i :: 0 <= i < n ==> entries[i] == before[i];
      if token in Dict(before) {
        var i :| 0 <= i < n && before[i].0 == token;
        assert entries[i].0 == token;
      }
      forall i | 0 <= i < |entries| && entries[i].0 == token && (forall j :: i < j < |entries| ==> entries[j].0 != token)
        ensures token in Dict(entries) && Dict(entries)[token] == entries[i].1
      {
        if i < n {
          assert before[i].0 == token && entries[n].0 != token;
        }
      }
    }
  }

  function Min4(a: nat, b: nat, c: nat, d: nat): (m: nat)
    ensures m <= a && m <= b && m <= c && m <= d && (m == a || m == b || m == c || m == d)
  {
    var x := if a < b then a else b;
    var y := if c < d then c else d;
    if x < y then x else y
  }

  /** Four lists read side by side, as far as the shortest goes. */
  function Zip(tokenIds: seq<int>, logprobs: seq<real>, ranks: seq<Option<int>>, decoded: seq<Option<string>>): (z: seq<(int, Logprob)>)
    ensures |z| == Min4(|tokenIds|, |logprobs|, |ranks|, |decoded|)
  {
    var n := Min4(|tokenIds|, |logprobs|, |ranks|, |decoded|);
    seq(n, i requires 0 <= i < n => (tokenIds[i], Logprob(logprobs[i], ranks[i], decoded[i])))
  }

  lemma ZipAt(tokenIds: seq<int>, logprobs: seq<real>, ranks: seq<Option<int>>, decoded: seq<Option<string>>, i: int)
    requires 0 <= i < Min4(|tokenIds|, |logprobs|, |ranks|, |decoded|)
    ensures Zip(tokenIds, logprobs, ranks, decoded)[i] == (tokenIds[i], Logprob(logprobs[i], ranks[i], decoded[i]))
  {
  }

  /** The ranges of the positions lie one after the other inside the entries. */
  ghost predicate Ranges(starts: seq<int>, ends: seq<int>, n: nat) {
    && |starts| == |ends|
    && (forall i :: 0 <= i < |starts| ==> 0 <= starts[i] <= ends[i] <= n)
    && (forall i, j :: 0 <= i < j < |starts| ==> ends[i] <= starts[j])
  }

  ghost function ViewOf(starts: seq<int>, ends: seq<int>, entries: seq<(int, Logprob)>): (v: seq<Position>)
    requires Ranges(starts, ends, |entries|)
    ensures |v| == |starts|
    ensures forall i :: 0 <= i < |v| ==> v[i] == Dict(entries[starts[i]..ends[i]])
  {
    seq(|starts|, i requires 0 <= i < |starts| => Dict(entries[starts[i]..ends[i]]))
  }

  /** A new position at the end leaves the others as they were. */
  lemma ViewExtended(starts: seq<int>, ends: seq<int>, entries: seq<(int, Logprob)>, more: seq<(int, Logprob)>)
    requires Ranges(starts, ends, |entries|)
    ensures var starts', ends' := starts + [|entries|], ends + [|entries + more|];
            && Ranges(starts', ends', |entries + more|)
            && ViewOf(starts', ends', entries + more) == ViewOf(starts, ends, entries) + [Dict(more)]
  {
    var starts', ends' := starts + [|entries|], ends + [|entries + more|];
    forall i | 0 <= i < |starts'|
      ensures Dict((entries + more)[starts'[i]..ends'[i]]) == (ViewOf(starts, ends, entries) + [Dict(more)])[i]
    {
      if i < |starts| {
        assert (entries + more)[starts[i]..ends[i]] == entries[starts[i]..ends[i]];
      } else {
        assert (entries + more)[|entries|..|entries + more|] == more;
      }
    }
  }

  // ---------- slices ----------

  function Clamp(x: int, n: nat): nat {
    if x < 0 then (if x + n < 0 then 0 else x + n) else if x < n then x else n
  }

  /** The same for a slice that runs backwards: -1 is before the first. */
  function ClampBack(x: int, n: nat): int {
    if x < 0 then (if x + n < 0 then -1 else x + n) else if x < n then x else n - 1
  }

  /** Indices lo, lo + step, ... below hi. */
  function Every(lo: nat, hi: nat, step: nat): (idx: seq<nat>)
    requires step > 0
    ensures forall k :: 0 <= k < |idx| ==> lo <= idx[k] < hi
    ensures forall j, k :: 0 <= j < k < |idx| ==> idx[j] < idx[k]
    decreases hi - lo
  {
    if lo >= hi then [] else [lo] + Every(lo + step, hi, step)
  }

  lemma StepBack(x: nat, step: nat)
    requires 0 < step <= x
    ensures (x - step) % step == x % step
  {
    var q := x / step;
    assert x == q * step + x % step;
    assert x - step == (q - 1) * step + x % step;
    SameRemainder(x - step, q - 1, x % step, step);
  }

  lemma SameRemainder(x: nat, q: int, r: nat, step: nat)
    requires r < step && x == q * step + r
    ensures x % step == r
  {
    var d := x / step - q;
    assert d * step == r - x % step;
  }

  /** Exactly the indices a whole number of steps after the first. */
  lemma {:induction false} EveryIsEveryStep(lo: nat, hi: nat, step: nat, i: nat)
    requires step > 0
    ensures i in Every(lo, hi, step) <==> lo <= i < hi && (i - lo) % step == 0
    decreases hi - lo
  {
    if lo < hi {
      EveryIsEveryStep(lo + step, hi, step, i);
      if lo + step <= i {
        StepBack(i - lo, step);
      } else if lo <= i {
        SameRemainder(i - lo, 0, i - lo, step);
      }
    }
  }

  /** Indices lo, lo - step, ... above hi. */
  function EveryBack(lo: int, hi: int, step: nat): (idx: seq<nat>)
    requires step > 0 && hi >= -1
    ensures forall k :: 0 <= k < |idx| ==> hi < idx[k] <= lo
    ensures forall j, k :: 0 <= j < k < |idx| ==> idx[k] < idx[j]
    decreases lo - hi
  {
    if lo <= hi then [] else [lo] + EveryBack(lo - step, hi, step)
  }

  lemma {:induction false} EveryBackIsEveryStep(lo: int, hi: int, step: nat, i: nat)
    requires step > 0 && hi >= -1
    ensures i in EveryBack(lo, hi, step) <==> hi < i <= lo && (lo - i) % step == 0
    decreases lo - hi
  {
    if lo > hi {
      EveryBackIsEveryStep(lo - step, hi, step, i);
      if i <= lo - step {
        StepBack(lo - i, step);
      } else if i <= lo {
        SameRemainder(lo - i, 0, lo - i, step);
      }
    }
  }

  /** The indices that a slice selects from a list of length n. */
  function SliceIndices(n: nat, start: Option<int>, stop: Option<int>, step: int): (idx: seq<nat>)
    requires step != 0
    ensures forall k :: 0 <= k < |idx| ==> idx[k] < n
    ensures forall j, k :: 0 <= j < k < |idx| ==> if step > 0 then idx[j] < idx[k] else idx[k] < idx[j]
  {
    if step > 0 then
      Every(if start.None? then 0 else Clamp(start.value, n), if stop.None? then n else Clamp(stop.value, n), step)
    else
      EveryBack(if start.None? then n - 1 else ClampBack(start.value, n), if stop.None? then -1 else ClampBack(stop.value, n), -step)
  }

  /** A bound given by a position, or by its distance from the end. */
  ghost predicate FromOn(bound: Option<int>, n: nat, i: nat) {
    match bound
    case None => true
    case Some(x) => if x >= 0 then x <= i else n <= i + -x
  }

  ghost predicate UpTo(bound: Option<int>, n: nat, i: nat) {
    match bound
    case None => true
    case Some(x) => if x >= 0 then i <= x else i + -x <= n
  }

  /** What a slice selects, forwards and backwards, a negative bound counting the
      positions that remain. */
  lemma SliceSelects(n: nat, start: Option<int>, stop: Option<int>, i: nat)
    ensures i in SliceIndices(n, start, stop, 1) <==> i < n && FromOn(start, n, i) && (stop.Some? ==> !FromOn(stop, n, i))
    ensures i in SliceIndices(n, start, stop, -1) <==> i < n && UpTo(start, n, i) && (stop.Some? ==> !UpTo(stop, n, i))
  {
    hide Every, EveryBack;
    EveryIsEveryStep(if start.None? then 0 else Clamp(start.value, n), if stop.None? then n else Clamp(stop.value, n), 1, i);
    EveryBackIsEveryStep(if start.None? then n - 1 else ClampBack(start.value, n),
                         if stop.None? then -1 else ClampBack(stop.value, n), 1, i);
  }

  lemma {:induction false} EveryOne(lo: nat, hi: nat)
    ensures |Every(lo, hi, 1)| == if lo < hi then hi - lo else 0
    ensures forall k :: 0 <= k < |Every(lo, hi, 1)| ==> Every(lo, hi, 1)[k] == lo + k
    decreases hi - lo
  {
    if lo < hi {
      EveryOne(lo + 1, hi);
    }
  }

  /** The last k positions, and all but the last k. */
  lemma SliceFromEnd<T>(s: seq<T>, k: int)
    requires k > 0
    ensures var from := if k <= |s| then |s| - k else 0;
            && Pick(s, SliceIndices(|s|, Some(-k), None, 1)) == s[from..]
            && Pick(s, SliceIndices(|s|, None, Some(-k), 1)) == s[..from]
  {
    hide Every;
    var from := if k <= |s| then |s| - k else 0;
    EveryOne(from, |s|);
    EveryOne(0, from);
  }

  function Pick<T>(s: seq<T>, idx: seq<nat>): (r: seq<T>)
    requires forall k :: 0 <= k < |idx| ==> idx[k] < |s|
    ensures |r| == |idx| && forall k :: 0 <= k < |idx| ==> r[k] == s[idx[k]]
  {
    seq(|idx|, k requires 0 <= k < |idx| => s[idx[k]])
  }

  function Shift(s: seq<int>, by': int): (r: seq<int>)
    ensures |r| == |s| && forall k :: 0 <= k < |s| ==> r[k] == s[k] - by'
  {
    seq(|s|, k requires 0 <= k < |s| => s[k] - by')
  }

  lemma SliceOfSlice<T>(s: seq<T>, lo: int, hi: int, a: int, b: int)
    requires 0 <= lo <= a <= b <= hi <= |s|
    ensures s[lo..hi][a - lo..b - lo] == s[a..b]
  {
    forall k | 0 <= k < b - a ensures s[lo..hi][a - lo..b - lo][k] == s[a..b][k] {
      assert s[lo..hi][a - lo + k] == s[a + k];
    }
  }

  lemma ZipSliced(tokenIds: seq<int>, logprobs: seq<real>, ranks: seq<Option<int>>, decoded: seq<Option<string>>, lo: int, hi: int)
    requires |tokenIds| == |logprobs| == |ranks| == |decoded| && 0 <= lo <= hi <= |tokenIds|
    ensures Zip(tokenIds[lo..hi], logprobs[lo..hi], ranks[lo..hi], decoded[lo..hi])
         == Zip(tokenIds, logprobs, ranks, decoded)[lo..hi]
  {
  }

  /** Cutting the entries down to the selected span and shifting the ranges
      reads as the selected positions; skipped positions leave gaps. */
  lemma ViewSliced(starts: seq<int>, ends: seq<int>, entries: seq<(int, Logprob)>, idx: seq<nat>)
    requires Ranges(starts, ends, |entries|) && idx != []
    requires forall k :: 0 <= k < |idx| ==> idx[k] < |starts|
    requires forall j, k :: 0 <= j < k < |idx| ==> idx[j] < idx[k]
    ensures var lo, hi := Pick(starts, idx)[0], Pick(ends, idx)[|idx| - 1];
            var starts', ends' := Shift(Pick(starts, idx), lo), Shift(Pick(ends, idx), lo);
            && 0 <= lo <= hi <= |entries| && Ranges(starts', ends', hi - lo)
            && ViewOf(starts', ends', entries[lo..hi]) == Pick(ViewOf(starts, ends, entries), idx)
  {
    var lo, hi := starts[idx[0]], ends[idx[|idx| - 1]];
    var starts', ends' := Shift(Pick(starts, idx), lo), Shift(Pick(ends, idx), lo);
    forall k | 0 <= k < |idx| ensures lo <= starts[idx[k]] <= ends[idx[k]] <= hi {
      if k > 0 { assert ends[idx[0]] <= starts[idx[k]]; }
      if k < |idx| - 1 { assert ends[idx[k]] <= starts[idx[|idx| - 1]]; }
    }
    forall k | 0 <= k < |idx|
      ensures entries[lo..hi][starts'[k]..ends'[k]] == entries[starts[idx[k]]..ends[idx[k]]]
    {
      SliceOfSlice(entries, lo, hi, starts[idx[k]], ends[idx[k]]);
    }
  }

  // ---------- reading ----------

  predicate Indexable(i: int, n: nat) {
    0 <= i + n && i < n
  }

  /** A negative index counts from the end. */
  function Normal(i: int, n: nat): (j: nat)
    requires Indexable(i, n)
    ensures j < n
  {
    if i < 0 then i + n else i
  }

  /** What reading so many entries of the lists gives, None if an index is out of bounds. */
  ghost function ReadFrom(entries: seq<(int, Logprob)>, from: int, count: nat): Option<Position> {
    if count == 0 then Some(map[])
    else
      var before := ReadFrom(entries, from, count - 1);
      var last := from + count - 1;
      if before.None? || !Indexable(last, |entries|) then None
      else
        var e := entries[Normal(last, |entries|)];
        Some(before.value[e.0 := e.1])
  }

  ghost function ReadRange(entries: seq<(int, Logprob)>, from: int, to: int): Option<Position> {
    ReadFrom(entries, from, if from < to then to - from else 0)
  }

  lemma {:induction false} ReadInside(entries: seq<(int, Logprob)>, from: nat, count: nat)
    requires from + count <= |entries|
    ensures ReadFrom(entries, from, count) == Some(Dict(entries[from..from + count]))
  {
    if count > 0 {
      var last := from + count - 1;
      ReadInside(entries, from, count - 1);
      DictOneMore(entries[from..last], entries[last]);
      assert entries[from..last] + [entries[last]] == entries[from..last + 1];
    }
  }

  lemma {:induction false} UnreadableStays(entries: seq<(int, Logprob)>, from: int, count: nat, more: nat)
    requires count <= more && ReadFrom(entries, from, count).None?
    ensures ReadFrom(entries, from, more).None?
  {
    if count < more {
      UnreadableStays(entries, from, count, more - 1);
    }
  }

  lemma DictIsEmpty(entries: seq<(int, Logprob)>)
    ensures Dict(entries) == map[] <==> entries == []
  {
    if entries != [] {
      assert entries[|entries| - 1].0 in Dict(entries);
    }
  }

  /** Backwards, the entries cut out are none, so a selected position reads as
      it should exactly when it is empty. */
  lemma BackwardsSlice(starts: seq<int>, ends: seq<int>, entries: seq<(int, Logprob)>, idx: seq<nat>)
    requires Ranges(starts, ends, |entries|) && |idx| > 1
    requires forall k :: 0 <= k < |idx| ==> idx[k] < |starts|
    requires forall j, k :: 0 <= j < k < |idx| ==> idx[k] < idx[j]
    ensures 0 <= ends[idx[|idx| - 1]] <= starts[idx[0]] <= |entries|
    ensures forall k :: 0 <= k < |idx| ==>
              ReadRange([], starts[idx[k]] - starts[idx[0]], ends[idx[k]] - starts[idx[0]]) ==
              if ViewOf(starts, ends, entries)[idx[k]] == map[] then Some(map[]) else None
  {
    forall k | 0 <= k < |idx|
      ensures ReadRange([], starts[idx[k]] - starts[idx[0]], ends[idx[k]] - starts[idx[0]]) ==
              if ViewOf(starts, ends, entries)[idx[k]] == map[] then Some(map[]) else None
    {
      DictIsEmpty(entries[starts[idx[k]]..ends[idx[k]]]);
    }
  }

  // ---------- the container ----------

  class Container {
    var startIndices: seq<int>
    var endIndices: seq<int>
    var tokenIds: seq<int>
    var logprobs: seq<real>
    var ranks: seq<Option<int>>
    var decodedTokens: seq<Option<string>>

    ghost predicate Parallel()
      reads this
    {
      |tokenIds| == |logprobs| == |ranks| == |decodedTokens| && |startIndices| == |endIndices|
    }

    ghost predicate Valid()
      reads this
    {
      && Parallel()
      && Ranges(startIndices, endIndices, |tokenIds|)
    }

    /** The list of dictionaries that the container stands for. */
    ghost function View(): (v: seq<Position>)
      requires Valid()
      reads this
      ensures |v| == |startIndices|
    {
      ViewOf(startIndices, endIndices, Zip(tokenIds, logprobs, ranks, decodedTokens))
    }

    constructor ()
      ensures Valid() && View() == []
    {
      startIndices, endIndices, tokenIds, logprobs, ranks, decodedTokens := [], [], [], [], [], [];
    }

    constructor Of(startIndices: seq<int>, endIndices: seq<int>, tokenIds: seq<int>, logprobs: seq<real>,
                   ranks: seq<Option<int>>, decodedTokens: seq<Option<string>>)
      ensures this.startIndices == startIndices && this.endIndices == endIndices && this.tokenIds == tokenIds
      ensures this.logprobs == logprobs && this.ranks == ranks && this.decodedTokens == decodedTokens
    {
      this.startIndices, this.endIndices, this.tokenIds := startIndices, endIndices, tokenIds;
      this.logprobs, this.ranks, this.decodedTokens := logprobs, ranks, decodedTokens;
    }

    /** Push one entry onto the four lists. */
    method Push(token: int, entry: Logprob)
      requires |tokenIds| == |logprobs| == |ranks| == |decodedTokens|
      modifies this`tokenIds, this`logprobs, this`ranks, this`decodedTokens
      ensures |tokenIds| == |logprobs| == |ranks| == |decodedTokens| == old(|tokenIds|) + 1
      ensures Zip(tokenIds, logprobs, ranks, decodedTokens)
           == old(Zip(tokenIds, logprobs, ranks, decodedTokens)) + [(token, entry)]
    {
      tokenIds := tokenIds + [token];
      logprobs := logprobs + [entry.logprob];
      ranks := ranks + [entry.rank];
      decodedTokens := decodedTokens + [entry.decodedToken];
    }

    /** Append a position, given as a dictionary's items in their order or as None. */
    method Append(position: Option<seq<(int, Logprob)>>)
      requires Valid()
      modifies this
      ensures Valid()
      ensures View() == old(View()) + [if position.None? then map[] else Dict(position.value)]
    {
      hide Zip;
      ghost var before := Zip(tokenIds, logprobs, ranks, decodedTokens);
      var items := if position.None? then [] else position.value;
      startIndices := startIndices + [|logprobs|];
      for i := 0 to |items|
        invariant |tokenIds| == |logprobs| == |ranks| == |decodedTokens|
        invariant startIndices == old(startIndices) + [|before|] && endIndices == old(endIndices)
        invariant Zip(tokenIds, logprobs, ranks, decodedTokens) == before + items[..i]
      {
        Push(items[i].0, items[i].1);
        assert before + items[..i] + [items[i]] == before + items[..i + 1];
      }
      endIndices := endIndices + [|logprobs|];
      assert items[..|items|] == items;
      ViewExtended(old(startIndices), old(endIndices), before, items);
    }

    /** Append a position given as parallel lists, without a dictionary. */
    method AppendFast(ids: seq<int>, probs: seq<real>, rankList: seq<Option<int>>, decoded: seq<Option<string>>)
      requires Valid()
      modifies this
      ensures Valid()
      ensures View() == old(View()) + [Dict(Zip(ids, probs, rankList, decoded))]
    {
      ghost var before := Zip(tokenIds, logprobs, ranks, decodedTokens);
      ghost var more := Zip(ids, probs, rankList, decoded);
      startIndices := startIndices + [|logprobs|];
      var n := Min4(|ids|, |probs|, |rankList|, |decoded|);
      for i := 0 to n
        invariant |tokenIds| == |logprobs| == |ranks| == |decodedTokens|
        invariant startIndices == old(startIndices) + [|before|] && endIndices == old(endIndices)
        invariant Zip(tokenIds, logprobs, ranks, decodedTokens) == before + more[..i]
      {
        Push(ids[i], Logprob(probs[i], rankList[i], decoded[i]));
        assert before + more[..i] + [more[i]] == before + more[..i + 1];
      }
      endIndices := endIndices + [|logprobs|];
      assert more[..n] == more;
      ViewExtended(old(startIndices), old(endIndices), before, more);
    }

    method Extend(positions: seq<Option<seq<(int, Logprob)>>>)
      requires Valid()
      modifies this
      ensures Valid()
      ensures View() == old(View()) + Plain(positions)
    {
      for i := 0 to |positions|
        invariant Valid() && View() == old(View()) + Plain(positions[..i])
      {
        Append(positions[i]);
        assert Plain(positions[..i + 1]) == Plain(positions[..i]) + [if positions[i].None? then map[] else Dict(positions[i].value)];
      }
      assert positions[..|positions|] == positions;
    }

    /** What reading a position gives; every index may be out of bounds. */
    ghost function ReadAt(index: int): Option<Position>
      requires Parallel()
      reads this
    {
      if !Indexable(index, |startIndices|) then None
      else
        var i := Normal(index, |startIndices|);
        ReadRange(Zip(tokenIds, logprobs, ranks, decodedTokens), startIndices[i], endIndices[i])
    }

    /** The container reads position by position as the list. */
    ghost predicate ReadsAs(list: seq<Position>)
      requires Parallel()
      reads this
    {
      |startIndices| == |list| && forall k :: 0 <= k < |list| ==> ReadAt(k) == Some(list[k])
    }

    /** A valid container reads as the list it stands for. */
    lemma ValidReads(index: int)
      requires Valid()
      ensures ReadAt(index) == if Indexable(index, |View()|) then Some(View()[Normal(index, |View()|)]) else None
    {
      hide Zip;
      if Indexable(index, |startIndices|) {
        var i := Normal(index, |startIndices|);
        ReadInside(Zip(tokenIds, logprobs, ranks, decodedTokens), startIndices[i], endIndices[i] - startIndices[i]);
      }
    }

    /** Read one position. */
    method Get(index: int) returns (r: Option<Position>)
      requires Parallel()
      ensures r == ReadAt(index)
      ensures Valid() ==> r == if Indexable(index, |View()|) then Some(View()[Normal(index, |View()|)]) else None
      ensures Valid() && 0 <= index < |View()| ==> r == Some(View()[index])
      ensures Valid() && 1 <= -index <= |View()| ==> r == Some(View()[|View()| - -index])
    {
      hide Zip;
      if Valid() { ValidReads(index); }
      if !Indexable(index, |startIndices|) {
        return None;
      }
      var i := Normal(index, |startIndices|);
      ghost var entries := Zip(tokenIds, logprobs, ranks, decodedTokens);
      var position: Position := map[];
      var k := startIndices[i];
      while k < endIndices[i]
        invariant k == startIndices[i] || startIndices[i] < k <= endIndices[i]
        invariant ReadFrom(entries, startIndices[i], k - startIndices[i]) == Some(position)
      {
        if !Indexable(k, |tokenIds|) {
          UnreadableStays(entries, startIndices[i], k + 1 - startIndices[i], endIndices[i] - startIndices[i]);
          return None;
        }
        var at := Normal(k, |tokenIds|);
        ZipAt(tokenIds, logprobs, ranks, decodedTokens, at);
        position := position[tokenIds[at] := Logprob(logprobs[at], ranks[at], decodedTokens[at])];
        k := k + 1;
      }
      return Some(position);
    }

    /** Read every position in order. */
    method Positions() returns (r: seq<Position>)
      requires Valid()
      ensures r == View()
    {
      r := [];
      for i := 0 to |startIndices|
        invariant r == View()[..i]
      {
        var position := Get(i);
        r := r + [position.value];
      }
    }

    /** A slice, as a container of its own. With a positive step it stands for
        the list's slice. With a negative one, the first selected start is taken
        for the smallest although it is the largest; the result reads as the
        list's slice exactly when at most one position is selected or all
        selected positions are empty. */
    method Slice(start: Option<int>, stop: Option<int>, step: int) returns (r: Option<Container>)
      requires Valid()
      ensures r.None? <==> step == 0
      ensures step != 0 ==> fresh(r.value) && r.value.Parallel()
      ensures step > 0 ==> r.value.Valid() && r.value.View() == Pick(View(), SliceIndices(|View()|, start, stop, step))
      // c[-k:] is the last k positions, c[:-k] all but those
      ensures step == 1 && start.Some? && stop.None? && 1 <= -start.value <= |View()| ==>
                r.value.View() == View()[|View()| - -start.value..]
      ensures step == 1 && start.None? && stop.Some? && 1 <= -stop.value <= |View()| ==>
                r.value.View() == View()[..|View()| - -stop.value]
      ensures step < 0 ==>
                var idx := SliceIndices(|View()|, start, stop, step);
                r.value.ReadsAs(Pick(View(), idx)) <==> |idx| <= 1 || forall k :: 0 <= k < |idx| ==> View()[idx[k]] == map[]
      ensures step < 0 ==>
                var idx := SliceIndices(|View()|, start, stop, step);
                |idx| > 1 ==> forall k :: 0 <= k < |idx| ==>
                  r.value.ReadAt(k) == if View()[idx[k]] == map[] then Some(map[]) else None
    {
      hide SliceIndices, Pick, Ranges, View, ReadsAs, CutFrom;
      if step == 0 {
        return None;
      }
      var idx := SliceIndices(|startIndices|, start, stop, step);
      var c := CutOut(idx);
      r := Some(c);
      if start.Some? && start.value < 0 { SliceFromEnd(View(), -start.value); }
      if stop.Some? && stop.value < 0 { SliceFromEnd(View(), -stop.value); }
      if step > 0 || |idx| <= 1 {
        ForwardReads(c, idx);
        c.ValidReadsAll();
      } else {
        BackwardReads(c, idx);
      }
    }

    /** The six lists of c are cut out of this container for the selected positions. */
    ghost predicate CutFrom(c: Container, idx: seq<nat>)
      requires Valid() && forall k :: 0 <= k < |idx| ==> idx[k] < |startIndices|
      reads this, c
    {
      if idx == [] then c.Valid() && c.View() == []
      else
        var lo, hi := startIndices[idx[0]], endIndices[idx[|idx| - 1]];
        && c.startIndices == Shift(Pick(startIndices, idx), lo) && c.endIndices == Shift(Pick(endIndices, idx), lo)
        && c.tokenIds == Cut(tokenIds, lo, hi) && c.logprobs == Cut(logprobs, lo, hi)
        && c.ranks == Cut(ranks, lo, hi) && c.decodedTokens == Cut(decodedTokens, lo, hi)
    }

    method CutOut(idx: seq<nat>) returns (c: Container)
      requires Valid() && forall k :: 0 <= k < |idx| ==> idx[k] < |startIndices|
      ensures fresh(c) && CutFrom(c, idx)
    {
      hide Zip, ViewOf, Shift, Cut;
      var starts, ends := Pick(startIndices, idx), Pick(endIndices, idx);
      if |starts| == 0 {
        c := new Container();
        return;
      }
      var lo, hi := starts[0], ends[|ends| - 1];
      c := new Container.Of(Shift(starts, lo), Shift(ends, lo), Cut(tokenIds, lo, hi), Cut(logprobs, lo, hi),
                            Cut(ranks, lo, hi), Cut(decodedTokens, lo, hi));
    }

    lemma ForwardReads(c: Container, idx: seq<nat>)
      requires Valid() && forall k :: 0 <= k < |idx| ==> idx[k] < |startIndices|
      requires CutFrom(c, idx) && forall j, k :: 0 <= j < k < |idx| ==> idx[j] < idx[k]
      ensures c.Valid() && c.View() == Pick(View(), idx)
    {
      hide Zip, Shift, ViewOf, Pick;
      if idx != [] {
        var lo, hi := startIndices[idx[0]], endIndices[idx[|idx| - 1]];
        ViewSliced(startIndices, endIndices, Zip(tokenIds, logprobs, ranks, decodedTokens), idx);
        ZipSliced(tokenIds, logprobs, ranks, decodedTokens, lo, hi);
      }
    }

    lemma BackwardReads(c: Container, idx: seq<nat>)
      requires Valid() && forall k :: 0 <= k < |idx| ==> idx[k] < |startIndices|
      requires CutFrom(c, idx) && |idx| > 1 && forall j, k :: 0 <= j < k < |idx| ==> idx[k] < idx[j]
      ensures c.Parallel() && forall k :: 0 <= k < |idx| ==> c.ReadAt(k) == if View()[idx[k]] == map[] then Some(map[]) else None
      ensures c.ReadsAs(Pick(View(), idx)) <==> forall k :: 0 <= k < |idx| ==> View()[idx[k]] == map[]
    {
      hide Zip, Shift, ViewOf, Pick, ReadRange;
      BackwardsSlice(startIndices, endIndices, Zip(tokenIds, logprobs, ranks, decodedTokens), idx);
      assert Zip(c.tokenIds, c.logprobs, c.ranks, c.decodedTokens) == [];
      forall k | 0 <= k < |idx| ensures c.ReadAt(k) == if View()[idx[k]] == map[] then Some(map[]) else None {
      }
    }

    lemma ValidReadsAll()
      requires Valid()
      ensures ReadsAs(View())
    {
      hide View;
      forall k | 0 <= k < |View()| ensures ReadAt(k) == Some(View()[k]) {
        ValidReads(k);
      }
    }
  }

  /** A Python slice of a list between two positions of it. */
  function Cut<T>(s: seq<T>, lo: int, hi: int): seq<T>
    requires 0 <= lo <= |s| && 0 <= hi <= |s|
  {
    if lo <= hi then s[lo..hi] else []
  }

  /** The list that a plain list of dictionaries would be, None read as empty. */
  function Plain(positions: seq<Option<seq<(int, Logprob)>>>): (r: seq<Position>)
    ensures |r| == |positions|
  {
    seq(|positions|, i requires 0 <= i < |positions| => if positions[i].None? then map[] else Dict(positions[i].value))
  }

  // ---------- append_logprobs_for_next_position ----------

  /** The sampled token's rank, then 1, 2, ... for the top logprobs. */
  function RankList(rank: int, numLogprobs: int, probs: seq<real>): seq<Option<int>> {
    var n := if numLogprobs == -1 then |probs| else if numLogprobs < 0 then 0 else numLogprobs;
    [Some(rank)] + seq(n, i => Some(i + 1))
  }

  /** The branch for a plain list. */
  function AppendToList(list: seq<Position>, ids: seq<int>, probs: seq<real>, decoded: seq<Option<string>>,
                        rank: int, numLogprobs: int): seq<Position> {
    list + [Dict(Zip(ids, probs, RankList(rank, numLogprobs, probs), decoded))]
  }

  /** How many entries the new position is made from: as many as the shortest of
      the lists has, the ranks being one more than the top logprobs asked for, or
      than all logprobs for -1. */
  ghost predicate EntryCount(ids: seq<int>, probs: seq<real>, decoded: seq<Option<string>>, numLogprobs: int, n: nat) {
    var ranks := 1 + if numLogprobs == -1 then |probs| else if numLogprobs < 0 then 0 else numLogprobs;
    && n <= |ids| && n <= |probs| && n <= |decoded| && n <= ranks
    && (n == |ids| || n == |probs| || n == |decoded| || n == ranks)
  }

  /** The new position: the ids name its tokens, and the last entry of a token has
      its logprob and text, ranked as sampled if it is the first and else by place. */
  ghost predicate NextPosition(p: Position, ids: seq<int>, probs: seq<real>, decoded: seq<Option<string>>, rank: int, n: nat) {
    && n <= |ids| && n <= |probs| && n <= |decoded|
    && (forall token :: token in p <==> token in ids[..n])
    && (forall j :: 0 <= j < n && (forall i :: j < i < n ==> ids[i] != ids[j]) ==>
          ids[j] in p && p[ids[j]] == Logprob(probs[j], if j == 0 then Some(rank) else Some(j), decoded[j]))
  }

  lemma NextIs(ids: seq<int>, probs: seq<real>, decoded: seq<Option<string>>, rank: int, numLogprobs: int, n: nat)
    requires EntryCount(ids, probs, decoded, numLogprobs, n)
    ensures NextPosition(Dict(Zip(ids, probs, RankList(rank, numLogprobs, probs), decoded)), ids, probs, decoded, rank, n)
  {
    hide Dict, Zip;
    var ranks := RankList(rank, numLogprobs, probs);
    var entries := Zip(ids, probs, ranks, decoded);
    assert |entries| == n;
    forall j | 0 <= j < n
      ensures entries[j] == (ids[j], Logprob(probs[j], if j == 0 then Some(rank) else Some(j), decoded[j]))
    {
      ZipAt(ids, probs, ranks, decoded, j);
    }
    forall token ensures token in Dict(entries) <==> token in ids[..n] {
      DictIsLastWriteWins(entries, token);
      assert token in ids[..n] <==> exists j :: 0 <= j < n && ids[j] == token;
      assert forall j :: 0 <= j < n ==> entries[j].0 == ids[j];
    }
    forall j | 0 <= j < n && (forall i :: j < i < n ==> ids[i] != ids[j])
      ensures ids[j] in Dict(entries) && Dict(entries)[ids[j]] == entries[j].1
    {
      DictIsLastWriteWins(entries, ids[j]);
    }
  }

  /** The branch for the container: it reads as the list branch would, and the new
      position is told by the arguments. */
  method AppendForNextPosition(c: Container, ids: seq<int>, probs: seq<real>, decoded: seq<Option<string>>, rank: int, numLogprobs: int)
    requires c.Valid()
    modifies c
    ensures c.Valid()
    ensures c.View() == AppendToList(old(c.View()), ids, probs, decoded, rank, numLogprobs)
    ensures |c.View()| == |old(c.View())| + 1 && c.View()[..|old(c.View())|] == old(c.View())
    ensures exists n :: EntryCount(ids, probs, decoded, numLogprobs, n)
    ensures forall n :: EntryCount(ids, probs, decoded, numLogprobs, n) ==>
              NextPosition(c.View()[|old(c.View())|], ids, probs, decoded, rank, n)
  {
    hide Dict, Zip, ViewOf, EntryCount, NextPosition;
    ghost var count := CountOf(ids, probs, decoded, numLogprobs);
    forall n | EntryCount(ids, probs, decoded, numLogprobs, n)
      ensures NextPosition(Dict(Zip(ids, probs, RankList(rank, numLogprobs, probs), decoded)), ids, probs, decoded, rank, n)
    {
      NextIs(ids, probs, decoded, rank, numLogprobs, n);
    }
    c.AppendFast(ids, probs, RankList(rank, numLogprobs, probs), decoded);
  }

  lemma CountOf(ids: seq<int>, probs: seq<real>, decoded: seq<Option<string>>, numLogprobs: int) returns (n: nat)
    ensures EntryCount(ids, probs, decoded, numLogprobs, n)
  {
    n := Min4(|ids|, |probs|, |decoded|, 1 + if numLogprobs == -1 then |probs| else if numLogprobs < 0 then 0 else numLogprobs);
  }

  // ---------- whole runs ----------

  datatype Operation =
    | Append(position: Option<seq<(int, Logprob)>>)
    | AppendFast(ids: seq<int>, probs: seq<real>, rankList: seq<Option<int>>, decoded: seq<Option<string>>)
    | Extend(positions: seq<Option<seq<(int, Logprob)>>>)
    | AppendNext(ids: seq<int>, probs: seq<real>, decoded: seq<Option<string>>, rank: int, numLogprobs: int)
    | Slice(start: Option<int>, stop: Option<int>, step: int)

  predicate PositiveStep(op: Operation) {
    op.Slice? ==> op.step > 0
  }

  /** The same operation on a plain list of dictionaries. */
  function OnList(list: seq<Position>, op: Operation): seq<Position>
    requires PositiveStep(op)
  {
    match op
    case Append(position) => list + Plain([position])
    case AppendFast(ids, probs, rankList, decoded) => list + [Dict(Zip(ids, probs, rankList, decoded))]
    case Extend(positions) => list + Plain(positions)
    case AppendNext(ids, probs, decoded, rank, numLogprobs) => AppendToList(list, ids, probs, decoded, rank, numLogprobs)
    case Slice(start, stop, step) => Pick(list, SliceIndices(|list|, start, stop, step))
  }

  function ListRun(list: seq<Position>, ops: seq<Operation>): seq<Position>
    requires forall i :: 0 <= i < |ops| ==> PositiveStep(ops[i])
  {
    if ops == [] then list
    else OnList(ListRun(list, ops[..|ops| - 1]), ops[|ops| - 1])
  }

  /** One operation, on the container. */
  method Apply(c: Container, op: Operation) returns (r: Container)
    requires c.Valid() && PositiveStep(op)
    modifies c
    ensures r.Valid() && (r == c || fresh(r))
    ensures r.View() == OnList(old(c.View()), op)
  {
    hide Dict, Zip, ViewOf;
    r := c;
    match op
    case Append(position) => c.Append(position);
    case AppendFast(ids, probs, rankList, decoded) => c.AppendFast(ids, probs, rankList, decoded);
    case Extend(positions) => c.Extend(positions);
    case AppendNext(ids, probs, decoded, rank, numLogprobs) =>
      AppendForNextPosition(c, ids, probs, decoded, rank, numLogprobs);
    case Slice(start, stop, step) =>
      var slice := c.Slice(start, stop, step);
      r := slice.value;
  }

  /** Any run of appends and positive-step slices, going on with the slice each
      time, reads position by position as the plain list would. */
  method Run(c: Container, ops: seq<Operation>) returns (r: Container, read: seq<Position>)
    requires c.Valid() && forall i :: 0 <= i < |ops| ==> PositiveStep(ops[i])
    modifies c
    ensures r.Valid() && read == ListRun(old(c.View()), ops)
  {
    hide Dict, Zip, ViewOf;
    r := c;
    for i := 0 to |ops|
      invariant r.Valid() && (r == c || fresh(r))
      invariant r.View() == ListRun(old(c.View()), ops[..i])
    {
      r := Apply(r, ops[i]);
      assert ops[..i + 1][..i] == ops[..i];
    }
    assert ops[..|ops|] == ops;
    read := r.Positions();
  }

  lemma DictOfOne(e: (int, Logprob))
    ensures Dict([e]) == map[e.0 := e.1] != map[]
  {
    DictOneMore([], e);
    assert [] + [e] == [e];
    assert e.0 in map[e.0 := e.1];
  }

  lemma ReverseOfTwo()
    ensures SliceIndices(2, None, None, -1) == [1, 0]
  {
    assert EveryBack(0, -1, 1) == [0];
  }

  /** Reversing any two positions of one entry each: the list's slice has both,
      but reading the container's slice is out of bounds at every position. */
  method ReversedSliceFails(p: (int, Logprob), q: (int, Logprob)) returns (c: Container, r: Option<Position>, r': Option<Position>)
    ensures c.Valid() && c.View() == [map[p.0 := p.1], map[q.0 := q.1]]
    ensures Pick(c.View(), SliceIndices(2, None, None, -1)) == [map[q.0 := q.1], map[p.0 := p.1]]
    ensures r.None? && r'.None?
  {
    hide Dict, SliceIndices, Container.View, Container.Valid, Container.ReadAt, Container.ReadsAs;
    DictOfOne(p);
    DictOfOne(q);
    ReverseOfTwo();
    c := new Container();
    c.Append(Some([p]));
    c.Append(Some([q]));
    var slice := c.Slice(None, None, -1);
    r := slice.value.Get(0);
    r' := slice.value.Get(1);
  }
}
