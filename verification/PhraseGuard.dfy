/** The token journal of sonar/v1/phrase_guard/matcher.py.

    Generated tokens wait in a journal while their bytes are scanned for banned
    phrases. Tokens leave the journal only when released; a match discards the
    journal from the token where the phrase begins and rewinds. The promise: the
    published text never contains a banned phrase, on any run. */
module PhraseGuard {
  import opened Options
  import opened Words
  import opened PhraseMatcher

  const MAX_ZERO_WIDTH_TOKENS := 256

  datatype Decision = Decision(ready: seq<int>, rewindTo: Option<nat>, blocked: Option<int>)

  datatype RecordResult = Recorded(first: Option<int>, depth: nat) | LimitHit

  datatype FeedResult = Decided(decision: Decision) | LimitExceeded

  // ---------- byte offsets of the pending tokens ----------

  /** ends[k] is the number of pending bytes up to and including token k. */
  ghost predicate EndsOf(ends: seq<nat>, data: seq<Word>) {
    && |ends| == |data|
    && forall k :: 0 <= k < |ends| ==> ends[k] == |Flatten(data[..k + 1])|
  }

  function EndOf(ends: seq<nat>, n: nat): nat
    requires n <= |ends|
  {
    if n == 0 then 0 else ends[n - 1]
  }

  lemma EndOfIsLength(ends: seq<nat>, data: seq<Word>, n: nat)
    requires EndsOf(ends, data) && n <= |ends|
    ensures EndOf(ends, n) == |Flatten(data[..n])|
  {
  }

  lemma FlattenSplit(data: seq<Word>, n: nat, m: nat)
    requires n <= m <= |data|
    ensures Flatten(data[..m]) == Flatten(data[..n]) + Flatten(data[n..][..m - n])
  {
    hide Flatten;
    assert data[..m] == data[..n] + data[n..][..m - n];
    FlattenConcat(data[..n], data[n..][..m - n]);
  }

  lemma FlattenTake(data: seq<Word>, n: nat)
    requires n <= |data|
    ensures Flatten(data) == Flatten(data[..n]) + Flatten(data[n..])
  {
    hide Flatten;
    assert data == data[..n] + data[n..];
    FlattenConcat(data[..n], data[n..]);
  }

  lemma EndsAreMonotone(ends: seq<nat>, data: seq<Word>, i: nat, j: nat)
    requires EndsOf(ends, data) && i <= j < |ends|
    ensures ends[i] <= ends[j]
  {
    FlattenSplit(data, i + 1, j + 1);
  }

  /** The offsets of the tokens that remain once the first n are gone. */
  function Rebased(ends: seq<nat>, n: nat): seq<nat>
    requires n <= |ends| && forall k :: n <= k < |ends| ==> EndOf(ends, n) <= ends[k]
  {
    seq(|ends| - n, k requires 0 <= k < |ends| - n => ends[n + k] - EndOf(ends, n))
  }

  lemma RebasedEnds(ends: seq<nat>, data: seq<Word>, n: nat)
    requires EndsOf(ends, data) && n <= |ends|
    ensures forall k :: n <= k < |ends| ==> EndOf(ends, n) <= ends[k]
    ensures EndsOf(Rebased(ends, n), data[n..])
  {
    EndOfIsLength(ends, data, n);
    forall k | n <= k < |ends|
      ensures EndOf(ends, n) <= ends[k] && ends[k] - EndOf(ends, n) == |Flatten(data[n..][..k - n + 1])|
    {
      FlattenSplit(data, n, k + 1);
    }
    var ends' := Rebased(ends, n);
    forall k | 0 <= k < |ends'| ensures ends'[k] == |Flatten(data[n..][..k + 1])| {
      assert ends'[k] == ends[n + k] - EndOf(ends, n);
    }
  }

  /** The journal is cut so that no token before the cut reaches past the
      offset, every later token that does not is zero-width, and the cut is
      never placed after a zero-width token. */
  ghost predicate IsCut(ends: seq<nat>, offset: int, cut: nat) {
    && cut <= |ends|
    && (cut > 0 ==> EndOf(ends, cut - 1) < ends[cut - 1] <= offset)
    && (forall k :: cut <= k < |ends| && ends[k] <= offset ==> ends[k] == EndOf(ends, cut))
  }

  method TokenAt(ends: seq<nat>, offset: int, ghost data: seq<Word>) returns (start: nat)
    requires EndsOf(ends, data)
    ensures IsCut(ends, offset, start)
    ensures forall k :: 0 <= k < |ends| && ends[k] > offset ==> start <= k
  {
    start := 0;
    var i := 0;
    while i < |ends|
      invariant start <= i <= |ends|
      invariant start > 0 ==> EndOf(ends, start - 1) < ends[start - 1] <= offset
      invariant forall k :: start <= k < i ==> ends[k] == EndOf(ends, start)
      invariant forall k :: 0 <= k < i ==> ends[k] <= offset
    {
      if ends[i] > offset {
        forall k | i <= k < |ends| ensures ends[k] > offset {
          EndsAreMonotone(ends, data, i, k);
        }
        return;
      }
      if ends[i] > (if i > 0 then ends[i - 1] else 0) {
        start := i + 1;
      } else if i > 0 {
        EndsAreMonotone(ends, data, i - 1, i);
      }
      i := i + 1;
    }
  }

  // ---------- the journal ----------

  /** The states recorded after each pending token. */
  ghost predicate StatesOf(a: Automaton, states: seq<nat>, out: Word, data: seq<Word>)
    reads a
  {
    && |states| == |data|
    && forall k :: 0 <= k < |states| ==> a.At(states[k], out + Flatten(data[..k + 1]))
  }

  lemma StatesAfterRelease(a: Automaton, states: seq<nat>, out: Word, data: seq<Word>, n: nat)
    requires StatesOf(a, states, out, data) && n <= |states|
    ensures StatesOf(a, states[n..], out + Flatten(data[..n]), data[n..])
    ensures n > 0 ==> a.At(states[n - 1], out + Flatten(data[..n]))
    ensures out + Flatten(data[..n]) + Flatten(data[n..]) == out + Flatten(data)
  {
    hide Flatten, Automaton.At;
    forall k | 0 <= k < |states[n..]|
      ensures a.At(states[n..][k], out + Flatten(data[..n]) + Flatten(data[n..][..k + 1]))
    {
      FlattenSplit(data, n, n + k + 1);
      assert data[n..][..n + k + 1 - n] == data[n..][..k + 1];
      Associate(out, Flatten(data[..n]), Flatten(data[n..][..k + 1]));
    }
    FlattenTake(data, n);
    Associate(out, Flatten(data[..n]), Flatten(data[n..]));
  }

  lemma Associate(u: Word, v: Word, w: Word)
    ensures u + v + w == u + (v + w)
  {
  }

  /** A phrase as bytes, as given and case-folded. */
  datatype Phrase = Phrase(raw: Word, folded: Word)

  /** The longest encoding of any phrase, folded or not. */
  function LongestPhrase(phrases: seq<Phrase>): (n: nat)
    ensures forall i :: 0 <= i < |phrases| ==> |phrases[i].raw| <= n && |phrases[i].folded| <= n
    ensures phrases != [] ==> exists i :: 0 <= i < |phrases| && (n == |phrases[i].raw| || n == |phrases[i].folded|)
  {
    if phrases == [] then 0
    else
      var k := |phrases| - 1;
      var before := LongestPhrase(phrases[..k]);
      assert forall i :: 0 <= i < k ==> phrases[..k][i] == phrases[i];
      Max(before, Max(|phrases[k].raw|, |phrases[k].folded|))
  }

  function Max(a: nat, b: nat): nat { if a < b then b else a }

  /** The last n of the texts are empty. */
  ghost predicate EndEmpty(fed: seq<Word>, n: nat) {
    n <= |fed| && forall i :: |fed| - n <= i < |fed| ==> fed[i] == []
  }

  /** ... and no more than that. */
  ghost predicate EmptyTail(fed: seq<Word>, n: nat) {
    EndEmpty(fed, n) && (n < |fed| ==> fed[|fed| - 1 - n] != [])
  }

  lemma TailGrows(fed: seq<Word>, n: nat, bytes: Word)
    requires EmptyTail(fed, n)
    ensures EmptyTail(fed + [bytes], if bytes == [] then n + 1 else 0)
  {
    var fed' := fed + [bytes];
    assert forall i :: 0 <= i < |fed| ==> fed'[i] == fed[i];
  }

  /** So many empty texts in a row at the end are what the count is there to find. */
  lemma TailReaches(fed: seq<Word>, n: nat, m: nat)
    requires EmptyTail(fed, n)
    ensures EndEmpty(fed, m) <==> m <= n
  {
    if n < m <= |fed| {
      assert |fed| - m <= |fed| - 1 - n < |fed| && fed[|fed| - 1 - n] != [];
    }
  }

  lemma TextEndsTail(fed: seq<Word>, bytes: Word, n: nat)
    requires bytes != [] && n > 0
    ensures !EndEmpty(fed + [bytes], n)
  {
    assert (fed + [bytes])[|fed|] == bytes;
  }

  lemma NoTail()
    ensures EmptyTail([], 0)
  {
  }

  class PendingText {
    const pattern: Automaton
    const maxPendingTokens: nat
    var zeroWidthTokens: nat
    var state: nat
    var tokens: seq<int>
    var ends: seq<nat>
    var states: seq<nat>
    var publishedState: nat
    var numBytes: nat
    var published: nat

    /** The bytes and tokens that have left the journal, and the bytes of each
        token still in it. */
    ghost var out: Word
    ghost var outTokens: seq<int>
    ghost var data: seq<Word>

    /** The bytes of every token fed since the start or the last rewind. */
    ghost var fed: seq<Word>

    ghost predicate Journal()
      reads this, pattern
    {
      && pattern.Ready() && published == |outTokens|
      && |tokens| == |ends| == |states| == |data|
      && EndsOf(ends, data) && numBytes == |Flatten(data)|
      && StatesOf(pattern, states, out, data)
      && pattern.At(publishedState, out)
    }

    ghost predicate Valid()
      reads this, pattern
    {
      && Journal()
      && pattern.At(state, out + Flatten(data))
      && Free(pattern.patterns, out + Flatten(data))
      && EmptyTail(fed, zeroWidthTokens)
    }

    /** The automaton is the one compiled from the phrases. Every pattern fits in
        the pending limit, which depends on the phrases alone. */
    constructor (phrases: seq<Phrase>, caseSensitive: bool, pattern: Automaton)
      requires pattern.Ready() && phrases != []
      requires pattern.patterns == set i | 0 <= i < |phrases| :: if caseSensitive then phrases[i].raw else phrases[i].folded
      ensures Valid() && this.pattern == pattern && out == [] && outTokens == [] && data == []
      ensures tokens == [] && fed == [] && zeroWidthTokens == 0
      ensures maxPendingTokens == MAX_ZERO_WIDTH_TOKENS + LongestPhrase(phrases)
      ensures forall p :: p in pattern.patterns ==> MAX_ZERO_WIDTH_TOKENS + |p| <= maxPendingTokens
    {
      this.pattern := pattern;
      maxPendingTokens := MAX_ZERO_WIDTH_TOKENS + LongestPhrase(phrases);
      zeroWidthTokens, state, tokens, ends, states := 0, 0, [], [], [];
      publishedState, numBytes, published := 0, 0, 0;
      out, outTokens, data, fed := [], [], [], [];
      new;
      assert pattern.words[0] == [] && [] in WordSet(pattern.words);
    }

    /** Publish the first count pending tokens. */
    method Release(count: nat) returns (ready: seq<int>)
      requires Journal() && count <= |tokens|
      modifies this`tokens, this`ends, this`states, this`publishedState, this`numBytes, this`published
      modifies this`out, this`outTokens, this`data
      ensures Journal()
      ensures ready == old(tokens[..count]) && tokens == old(tokens[count..]) && data == old(data[count..])
      ensures outTokens == old(outTokens) + ready && out == old(out) + Flatten(old(data)[..count])
      ensures out + Flatten(data) == old(out + Flatten(data))
      ensures numBytes == old(numBytes) - EndOf(old(ends), count)
    {
      hide Flatten, EndsOf, StatesOf, Automaton.At, Automaton.Ready;
      StatesAfterRelease(pattern, states, out, data, count);
      RebasedEnds(ends, data, count);
      EndOfIsLength(ends, data, count);
      if count == 0 {
        NothingReleased(out, data);
        return [];
      }
      ready := tokens[..count];
      var releasedBytes := ends[count - 1];
      tokens := tokens[count..];
      ends := Rebased(ends, count);
      publishedState := states[count - 1];
      states := states[count..];
      numBytes := numBytes - releasedBytes;
      published := published + count;
      out, outTokens, data := out + Flatten(data[..count]), outTokens + ready, data[count..];
    }

    /** How many bytes of a text's end the automaton remembers. */
    ghost function Remembered(text: Word): nat
      reads pattern
    {
      if [] in WordSet(pattern.words) then |Longest(WordSet(pattern.words), text)| else 0
    }

    /** No byte already published can take part in a match to come: what the
        automaton still remembers fits in the pending bytes. */
    ghost predicate HeldBack()
      reads this, pattern
    {
      Remembered(out + Flatten(data)) <= |Flatten(data)|
    }

    /** Journal the token and check the limits. */
    method Note(token: int, bytes: Word) returns (limitHit: bool)
      requires EmptyTail(fed, zeroWidthTokens)
      modifies this`tokens, this`ends, this`numBytes, this`zeroWidthTokens, this`fed
      ensures tokens == old(tokens) + [token] && numBytes == old(numBytes) + |bytes| && ends == old(ends) + [numBytes]
      ensures fed == old(fed) + [bytes] && EmptyTail(fed, zeroWidthTokens)
      ensures limitHit <==> |tokens| > maxPendingTokens || EndEmpty(fed, MAX_ZERO_WIDTH_TOKENS + 1)
    {
      hide EmptyTail, EndEmpty;
      TailGrows(fed, zeroWidthTokens, bytes);
      fed := fed + [bytes];
      tokens := tokens + [token];
      numBytes := numBytes + |bytes|;
      ends := ends + [numBytes];
      zeroWidthTokens := if bytes == [] then zeroWidthTokens + 1 else 0;
      limitHit := |tokens| > maxPendingTokens || zeroWidthTokens > MAX_ZERO_WIDTH_TOKENS;
      TailReaches(fed, zeroWidthTokens, MAX_ZERO_WIDTH_TOKENS + 1);
    }

    /** The first half of feed: journal the token, check the limits, scan. */
    method Record(token: int, bytes: Word) returns (r: RecordResult)
      requires Valid()
      modifies this`tokens, this`ends, this`numBytes, this`zeroWidthTokens, this`state, this`states, this`data, this`fed
      ensures tokens == old(tokens) + [token] && numBytes == old(numBytes) + |bytes|
      ensures fed == old(fed) + [bytes] && EmptyTail(fed, zeroWidthTokens)
      ensures r.LimitHit? <==> |tokens| > maxPendingTokens || EndEmpty(fed, MAX_ZERO_WIDTH_TOKENS + 1)
      ensures r.Recorded? ==> Journal() && data == old(data) + [bytes]
      ensures r.Recorded? ==> out + Flatten(data) == old(out + Flatten(data)) + bytes
      ensures r.Recorded? ==> |Flatten(data)| == |old(Flatten(data))| + |bytes|
      ensures r.Recorded? ==> ends == old(ends) + [numBytes]
      ensures r.Recorded? ==> pattern.At(state, out + Flatten(data))
      ensures r.Recorded? ==> r.depth == Remembered(out + Flatten(data)) <= Remembered(old(out + Flatten(data))) + |bytes|
      ensures r.Recorded? ==> FirstMatch(pattern.patterns, old(out + Flatten(data)), bytes, r.first)
    {
      hide Flatten, Free, FirstMatch, EndsOf, StatesOf, Remembered, Automaton.At, Automaton.Ready, EmptyTail, EndEmpty;
      ghost var history := out + Flatten(data);
      var limitHit := Note(token, bytes);
      if limitHit {
        return LimitHit;
      }
      StateInRange(pattern, state, history);
      RememberedIs(this, state, history);
      var scan, _ := pattern.Scan(state, bytes, history);
      Appended(pattern, old(ends), states, out, data, bytes, scan.state);
      StateInRange(pattern, scan.state, history + bytes);
      RememberedIs(this, scan.state, history + bytes);
      state, states, data := scan.state, states + [scan.state], data + [bytes];
      return Recorded(scan.first, scan.depth);
    }

    /** The match branch of feed: publish the tokens before the cut, name the
        next one as blocked, and discard the rest. */
    method Rewind(start: int, ghost before: seq<Word>, ghost bytes: Word) returns (decision: Decision)
      requires Journal() && data == before + [bytes] && numBytes > start
      requires Free(pattern.patterns, out + Flatten(before))
      requires ends[|ends| - 1] == numBytes
      modifies this
      ensures Valid() && tokens == [] && data == [] && fed == []
      ensures outTokens == old(outTokens) + decision.ready
      ensures decision.rewindTo == Some(published)
      // the cut is at the token where the byte at the start begins
      ensures |decision.ready| < old(|tokens|) && IsCut(old(ends), start, |decision.ready|)
      ensures decision.ready == old(tokens)[..|decision.ready|] && decision.blocked == Some(old(tokens)[|decision.ready|])
      ensures out == old(out) + Flatten(before[..|decision.ready|]) <= old(out) + Flatten(before)
    {
      hide Flatten, Free, EndsOf, StatesOf, Automaton.At, Automaton.Ready, IsCut, EmptyTail;
      var boundary := TokenAt(ends, start, data);
      assert boundary < |tokens|;
      ReleasedPrefix(pattern.patterns, out, before, bytes, boundary);
      var ready := Release(boundary);
      var blocked := tokens[0];
      Discard();
      decision := Decision(ready, Some(published), Some(blocked));
    }

    /** Drop the journal and go back to the state of the published text. */
    method Discard()
      requires Journal() && Free(pattern.patterns, out)
      modifies this`tokens, this`ends, this`states, this`data, this`fed, this`numBytes, this`zeroWidthTokens, this`state
      ensures Valid() && tokens == [] && data == [] && fed == []
    {
      hide Flatten, Free, EndsOf, StatesOf, Automaton.At, Automaton.Ready, EmptyTail;
      NoTail();
      EmptyJournal(pattern, out);
      tokens, ends, states, data, fed := [], [], [], [], [];
      numBytes, zeroWidthTokens := 0, 0;
      state := publishedState;
    }

    /** The first pending byte that a decision must keep: what the automaton
        remembers and, if a phrase is complete, the phrase that starts first. */
    ghost function CutOffset(text: Word, pending: nat, bytes: Word): int
      reads pattern
    {
      var keepFrom := pending + |bytes| - Remembered(text + bytes);
      if exists m: int :: FirstMatch(pattern.patterns, text, bytes, Some(m)) then
        var m: int :| FirstMatch(pattern.patterns, text, bytes, Some(m));
        if pending + m < keepFrom then pending + m else keepFrom
      else keepFrom
    }

    /** The ends once the bytes are journalled too. */
    ghost function EndsWith(bytes: Word): seq<nat>
      reads this
    {
      ends + [numBytes + |bytes|]
    }

    /** Take one generated token and the bytes it decodes to. */
    method Feed(token: int, bytes: Word) returns (r: FeedResult)
      requires Valid()
      modifies this
      // too many tokens wait, or too many in a row had no text
      ensures r.LimitExceeded? <==>
                old(|tokens|) + 1 > maxPendingTokens || EndEmpty(old(fed) + [bytes], MAX_ZERO_WIDTH_TOKENS + 1)
      ensures r.Decided? ==> fed == if r.decision.rewindTo.Some? then [] else old(fed) + [bytes]
      ensures r.LimitExceeded? ==> out == old(out) && outTokens == old(outTokens)
      ensures r.Decided? ==> Valid()
      ensures r.Decided? ==> outTokens == old(outTokens) + r.decision.ready
      // a rewind happens exactly when the token completes a banned phrase
      ensures r.Decided? ==> (r.decision.rewindTo.Some? <==> !Free(pattern.patterns, old(out + Flatten(data)) + bytes))
      ensures r.Decided? ==> (r.decision.rewindTo.Some? <==> r.decision.blocked.Some?)
      // the journal is cut, to the token, at the byte that must be kept
      ensures r.Decided? ==>
                IsCut(old(EndsWith(bytes)), CutOffset(old(out + Flatten(data)), old(numBytes), bytes), |r.decision.ready|)
      ensures r.Decided? ==> r.decision.ready <= old(tokens) + [token]
      // otherwise nothing is lost, and what is released can be released safely
      ensures r.Decided? && r.decision.rewindTo.None? ==>
                && outTokens + tokens == old(outTokens + tokens) + [token]
                && out + Flatten(data) == old(out + Flatten(data)) + bytes
                && |r.decision.ready| <= old(|data|) + 1
                && data == (old(data) + [bytes])[|r.decision.ready|..]
                && out == old(out) + Flatten((old(data) + [bytes])[..|r.decision.ready|])
                && (old(HeldBack()) || r.decision.ready != [] ==> HeldBack())
      // a rewind keeps a prefix of what was fed before, and names the token after it
      ensures r.Decided? && r.decision.rewindTo.Some? ==>
                && r.decision.rewindTo == Some(published) && tokens == [] && data == []
                && |r.decision.ready| <= old(|tokens|) && |r.decision.ready| <= old(|data|)
                && r.decision.blocked == Some((old(tokens) + [token])[|r.decision.ready|])
                && out == old(out) + Flatten(old(data)[..|r.decision.ready|]) <= old(out + Flatten(data))
    {
      hide Flatten, Free, FirstMatch, EndsOf, StatesOf, Automaton.At, Automaton.Ready, IsCut, Remembered, CutOffset, EmptyTail, EndEmpty;
      ghost var history, before := out + Flatten(data), data;
      var offset := numBytes;
      var recorded := Record(token, bytes);
      if recorded.LimitHit? {
        return LimitExceeded;
      }
      MatchMeansNotFree(pattern.patterns, history, bytes, recorded.first);
      CutOffsetIs(this, history, offset, bytes, recorded.first);
      var keepFrom := numBytes - recorded.depth;
      if recorded.first.Some? {
        var from := offset + recorded.first.value;
        var decision := Rewind(if from <= keepFrom then from else keepFrom, before, bytes);
        return Decided(decision);
      }
      var cut := TokenAt(ends, keepFrom, data);
      CutIsBefore(ends, keepFrom, cut);
      var ready := Release(cut);
      return Decided(Decision(ready, None, None));
    }

    /** At the end of the stream the incomplete prefix is published too. */
    method Finish() returns (ready: seq<int>)
      requires Valid()
      modifies this
      ensures outTokens == old(outTokens + tokens) && ready == old(tokens) && fed == old(fed)
      ensures out == old(out + Flatten(data)) && Free(pattern.patterns, out)
    {
      hide Flatten, Free, EndsOf, StatesOf, Automaton.At, Automaton.Ready;
      assert data[..|data|] == data && tokens[..|tokens|] == tokens;
      ready := Release(|tokens|);
    }

    /** While held back, every later match starts in the pending bytes. */
    lemma MatchesStartInJournal(more: Word, s: int, e: int)
      requires Valid() && HeldBack()
      requires Occurs(pattern.patterns, out + Flatten(data) + more, s, e)
      ensures |out| <= s
    {
      var text := out + Flatten(data);
      if e <= |text| {
        OccursInPrefix(pattern.patterns, text, more, s, e);
      }
      RememberedIs(this, state, text);
      DepthIsHoldBack(pattern, state, text);
      DepthOfNode(pattern.nodes, pattern.words, state);
    }

    /** The continuation completes a phrase that starts in text already published. */
    ghost predicate CompletesPublished(more: Word, s: int, e: int)
      reads this, pattern
    {
      Occurs(pattern.patterns, out + Flatten(data) + more, s, e) && s < |out|
    }

    /** ... and only then: without it, some continuation completes a phrase that
        starts in text already published. */
    lemma HeldBackIff()
      requires Valid()
      ensures HeldBack() <==> forall more, s, e :: !CompletesPublished(more, s, e)
    {
      hide Free, Flatten, Trie, Covers, AllFinal, EndsOf, StatesOf, Automaton.At, Longest;
      var text := out + Flatten(data);
      if HeldBack() {
        forall more, s, e ensures !CompletesPublished(more, s, e) {
          if Occurs(pattern.patterns, text + more, s, e) {
            MatchesStartInJournal(more, s, e);
          }
        }
      } else {
        StateInRange(pattern, state, text);
        RememberedIs(this, state, text);
        DepthIsHoldBack(pattern, state, text);
        DepthOfNode(pattern.nodes, pattern.words, state);
        var more, s, e :| s == |text| - pattern.nodes[state].depth && Occurs(pattern.patterns, text + more, s, e);
        assert CompletesPublished(more, s, e);
      }
    }

    /** The published text contains no banned phrase. */
    lemma PublishedIsFree()
      requires Valid()
      ensures Free(pattern.patterns, out)
    {
      FreePrefix(pattern.patterns, out + Flatten(data), out);
    }
  }

  lemma RememberedIs(g: PendingText, state: nat, text: Word)
    requires g.pattern.Ready() && g.pattern.At(state, text)
    ensures state < |g.pattern.words| && g.Remembered(text) == |g.pattern.words[state]|
  {
    hide Automaton.Ready, Longest, WordSet;
  }

  lemma StateInRange(a: Automaton, state: nat, text: Word)
    requires a.Ready() && a.At(state, text)
    ensures state < |a.nodes| == |a.words|
  {
  }

  lemma Appended(a: Automaton, ends: seq<nat>, states: seq<nat>, out: Word, data: seq<Word>, bytes: Word, next: nat)
    requires EndsOf(ends, data) && StatesOf(a, states, out, data)
    requires a.At(next, out + Flatten(data) + bytes)
    ensures Flatten(data + [bytes]) == Flatten(data) + bytes
    ensures out + Flatten(data + [bytes]) == out + Flatten(data) + bytes
    ensures EndsOf(ends + [|Flatten(data)| + |bytes|], data + [bytes])
    ensures StatesOf(a, states + [next], out, data + [bytes])
  {
    hide Flatten, EndsOf, StatesOf, Automaton.At;
    FlattenOneMore(data, bytes);
    assert out + Flatten(data + [bytes]) == out + Flatten(data) + bytes;
    EndAppended(ends, data, bytes);
    StateAppended(a, states, out, data, bytes, next);
  }

  lemma EndAppended(ends: seq<nat>, data: seq<Word>, bytes: Word)
    requires EndsOf(ends, data)
    ensures EndsOf(ends + [|Flatten(data)| + |bytes|], data + [bytes])
  {
    hide Flatten;
    FlattenOneMore(data, bytes);
    var data', ends' := data + [bytes], ends + [|Flatten(data)| + |bytes|];
    forall k | 0 <= k < |data'| ensures ends'[k] == |Flatten(data'[..k + 1])| {
      assert data'[..k + 1] == if k < |data| then data[..k + 1] else data';
    }
  }

  lemma StateAppended(a: Automaton, states: seq<nat>, out: Word, data: seq<Word>, bytes: Word, next: nat)
    requires StatesOf(a, states, out, data) && a.At(next, out + Flatten(data + [bytes]))
    ensures StatesOf(a, states + [next], out, data + [bytes])
  {
    hide Flatten, Automaton.At;
    var data', states' := data + [bytes], states + [next];
    forall k | 0 <= k < |data'| ensures a.At(states'[k], out + Flatten(data'[..k + 1])) {
      assert data'[..k + 1] == if k < |data| then data[..k + 1] else data';
    }
  }

  lemma MatchMeansNotFree(P: set<Word>, history: Word, bytes: Word, m: Option<int>)
    requires Free(P, history) && FirstMatch(P, history, bytes, m)
    ensures m.None? <==> Free(P, history + bytes)
    ensures m.Some? ==> -|history| <= m.value < |bytes|
  {
    if m.None? {
      forall s, e ensures !Occurs(P, history + bytes, s, e) {
        if e <= |history| {
          OccursInPrefix(P, history, bytes, s, e);
        }
      }
    }
  }

  /** Releasing pending tokens other than the last publishes a prefix of the
      text as it was before the last. */
  lemma ReleasedPrefix(P: set<Word>, out: Word, data: seq<Word>, bytes: Word, n: nat)
    requires Free(P, out + Flatten(data)) && n <= |data|
    ensures (data + [bytes])[..n] == data[..n] && out + Flatten(data[..n]) <= out + Flatten(data)
    ensures Free(P, out + Flatten((data + [bytes])[..n]))
  {
    hide Flatten, Free;
    assert (data + [bytes])[..n] == data[..n];
    FlattenTake(data, n);
    assert out + Flatten(data[..n]) <= out + Flatten(data);
    FreePrefix(P, out + Flatten(data), out + Flatten(data[..n]));
  }

  /** The verdict of a scan decides the cut. */
  lemma CutOffsetIs(g: PendingText, text: Word, pending: nat, bytes: Word, first: Option<int>)
    requires FirstMatch(g.pattern.patterns, text, bytes, first)
    ensures var keepFrom := pending + |bytes| - g.Remembered(text + bytes);
            g.CutOffset(text, pending, bytes) ==
            if first.Some? && pending + first.value < keepFrom then pending + first.value else keepFrom
  {
    hide FirstMatch, PendingText.Remembered;
    forall m: int | FirstMatch(g.pattern.patterns, text, bytes, Some(m)) ensures first == Some(m) {
      FirstMatchUnique(g.pattern.patterns, text, bytes, first, Some(m));
    }
  }

  lemma EmptyJournal(a: Automaton, out: Word)
    ensures out + Flatten([]) == out && EndsOf([], []) && StatesOf(a, [], out, []) && |Flatten([])| == 0
  {
  }

  lemma CutIsBefore(ends: seq<nat>, offset: int, cut: nat)
    requires IsCut(ends, offset, cut)
    ensures cut <= |ends| && (cut > 0 ==> EndOf(ends, cut) <= offset)
  {
  }

  lemma NothingReleased(out: Word, data: seq<Word>)
    ensures out + Flatten(data[..0]) == out && data[0..] == data
  {
  }

  // ---------- an input on which published text is reactivated ----------

  const A: Byte := 97
  const B: Byte := 98
  const C: Byte := 99
  const X: Byte := 120
  const ABC: Word := [A, B, C]
  const BX: Word := [B, X]

  /** With the phrases "abc" and "bx", feed "a" and then "bx". The second token is
      blocked and "a" is published, although "bc" would complete "abc" from it. */
  method RewindReactivates() returns (g: PendingText)
    ensures g.Valid() && g.pattern.patterns == {ABC, BX} && g.out == [A] && g.data == []
    ensures g.CompletesPublished([B, C], 0, 3) && !g.HeldBack()
  {
    hide Flatten, PendingText.Valid, PendingText.HeldBack, Automaton.Ready, WithinLimits, LongestPhrase;
    ExampleFits();
    var compiled := Compile([ABC, BX]);
    var phrases := [Phrase(ABC, ABC), Phrase(BX, BX)];
    assert phrases[0].raw == ABC && phrases[1].raw == BX;
    g := new PendingText(phrases, true, compiled.automaton);
    FeedA(g);
    FeedBX(g);
    assert g.CompletesPublished([B, C], 0, 3) by {
      EmptyJournal(g.pattern, g.out);
      assert [A] + [B, C] == ABC && ABC[0..3] == ABC;
    }
    g.HeldBackIff();
  }

  method FeedA(g: PendingText)
    requires g.Valid() && g.pattern.patterns == {ABC, BX} && g.maxPendingTokens >= MAX_ZERO_WIDTH_TOKENS
    requires g.out == [] && g.data == []
    modifies g
    ensures g.Valid() && g.out == [] && g.data == [[A]]
  {
    hide Flatten, Free, FirstMatch, IsCut, PendingText.CutOffset, PendingText.Remembered, Automaton.Ready, Automaton.At;
    EmptyJournal(g.pattern, g.out);
    assert [] + [A] == [A];
    ExampleMatches();
    ExampleMemory(g);
    CutOffsetIs(g, [], 0, [A], None);
    assert g.EndsWith([A]) == [1];
    TextEndsTail(g.fed, [A], MAX_ZERO_WIDTH_TOKENS + 1);
    var r := g.Feed(0, [A]);
    FirstCut(|r.decision.ready|);
    assert [[A]][0..] == [[A]] && [[A]][..0] == [];
    EmptyJournal(g.pattern, []);
  }

  method FeedBX(g: PendingText)
    requires g.Valid() && g.pattern.patterns == {ABC, BX} && g.maxPendingTokens >= MAX_ZERO_WIDTH_TOKENS
    requires g.out == [] && g.data == [[A]]
    modifies g
    ensures g.Valid() && g.out == [A] && g.data == []
  {
    hide Flatten, Free, FirstMatch, IsCut, PendingText.CutOffset, PendingText.Remembered, Automaton.Ready, Automaton.At;
    EmptyJournal(g.pattern, []);
    FlattenOneMore([], [A]);
    assert [] + [[A]] == [[A]] && [] + [A] == [A] && [A] + BX == [A, B, X];
    ExampleMatches();
    ExampleMemory(g);
    CutOffsetIs(g, [A], 1, BX, Some(0));
    EndOfIsLength(g.ends, g.data, 1);
    assert g.data[..1] == g.data;
    assert g.EndsWith(BX) == [1, 3];
    TextEndsTail(g.fed, BX, MAX_ZERO_WIDTH_TOKENS + 1);
    var r := g.Feed(1, BX);
    SecondCut(|r.decision.ready|);
  }

  lemma ExampleFits()
    ensures WithinLimits([ABC, BX])
  {
    FlattenOneMore([], ABC);
    FlattenOneMore([ABC], BX);
    assert [] + [ABC] == [ABC] && [ABC] + [BX] == [ABC, BX];
  }

  lemma ExampleMatches()
    ensures FirstMatch({ABC, BX}, [], [A], None) && Free({ABC, BX}, [A])
    ensures FirstMatch({ABC, BX}, [A], BX, Some(0)) && !Free({ABC, BX}, [A, B, X])
  {
    var P := {ABC, BX};
    assert [] + [A] == [A] && [A] + BX == [A, B, X];
    forall s, e ensures !Occurs(P, [A], s, e) {
    }
    assert Occurs(P, [A, B, X], 1, 3) by {
      assert [A, B, X][1..3] == BX;
    }
    forall e | 0 < e <= 3 ensures !Occurs(P, [A, B, X], 0, e) {
      assert |[A, B, X][0..e]| == e && [A, B, X][0..e][0] == A;
      if e == 3 { assert [A, B, X][0..e][2] == X; }
    }
  }

  lemma ExampleMemory(g: PendingText)
    requires g.pattern.Ready() && g.pattern.patterns == {ABC, BX}
    ensures g.Remembered([A]) == 1 && g.Remembered([A, B, X]) <= 2
  {
    hide Trie, Covers, AllFinal, WordSet, Longest, PrefixClosed;
    TrieBasics(g.pattern.nodes, g.pattern.words);
    TrieIsPrefixClosed(g.pattern.nodes, g.pattern.words);
    RemembersA(g.pattern.words);
    ForgetsABX(g.pattern.words);
  }

  lemma RemembersA(words: seq<Word>)
    requires PrefixClosed(WordSet(words)) && Covers(words, {ABC, BX})
    ensures [] in WordSet(words) && |Longest(WordSet(words), [A])| == 1
  {
    hide WordSet, Longest, PrefixClosed;
    var W := WordSet(words);
    assert ABC in {ABC, BX};
    PrefixIn(W, ABC, 0);
    PrefixIn(W, ABC, 1);
    assert ABC[..0] == [] && ABC[..1] == [A];
    LongestIsMaximal(W, [A], [A]);
  }

  lemma ForgetsABX(words: seq<Word>)
    requires [] in WordSet(words) && Covers(words, {ABC, BX})
    ensures |Longest(WordSet(words), [A, B, X])| <= 2
  {
    hide WordSet, Longest;
    var W, text: Word := WordSet(words), [A, B, X];
    assert text[2] == X && ABC[2] == C;
    assert text !in W;
    LongestSkips(W, text);
  }

  lemma FirstCut(cut: nat)
    requires IsCut([1], 0, cut)
    ensures cut == 0
  {
  }

  lemma SecondCut(cut: nat)
    requires IsCut([1, 3], 1, cut)
    ensures cut == 1
  {
    var ends: seq<nat> := [1, 3];
    assert ends[0] == 1 && ends[1] == 3;
  }
}
