/** Byte strings: suffixes, the longest suffix in a prefix-closed set of words,
    and occurrences of patterns. This is the reference vocabulary against which
    the phrase automaton and the phrase guard are proved. */
module Words {
  import opened Options

  type Byte = b: int | 0 <= b < 256
  type Word = seq<Byte>

  ghost predicate Suffix(s: Word, t: Word) {
    |s| <= |t| && t[|t| - |s|..] == s
  }

  ghost predicate PrefixClosed(W: set<Word>) {
    && [] in W
    && forall w :: w in W && |w| > 0 ==> w[..|w| - 1] in W
  }

  // ---------- the longest suffix that belongs to a set ----------

  ghost function Longest(W: set<Word>, t: Word): (r: Word)
    requires [] in W
    ensures r in W && Suffix(r, t)
    decreases |t|
  {
    if t in W then t else Longest(W, t[1..])
  }

  lemma LongestSkips(W: set<Word>, t: Word)
    requires [] in W && t !in W
    ensures |t| > 0 && Longest(W, t) == Longest(W, t[1..])
  {
  }

  lemma {:induction false} LongestIsMaximal(W: set<Word>, t: Word, v: Word)
    requires [] in W && v in W && Suffix(v, t)
    ensures Suffix(v, Longest(W, t))
    decreases |t|
  {
    if t !in W {
      assert t != v;
      assert t[1..][|t[1..]| - |v|..] == v;
      LongestIsMaximal(W, t[1..], v);
    }
  }

  /** Reading one more byte only needs the longest suffix so far. */
  lemma {:induction false} LongestStep(W: set<Word>, t: Word, b: Byte)
    requires PrefixClosed(W)
    ensures Longest(W, t + [b]) == Longest(W, Longest(W, t) + [b])
    decreases |t|
  {
    if t !in W {
      assert (t + [b])[..|t + [b]| - 1] == t;
      assert (t + [b])[1..] == t[1..] + [b];
      LongestStep(W, t[1..], b);
    }
  }

  lemma {:induction false} PrefixIn(W: set<Word>, w: Word, n: nat)
    requires PrefixClosed(W) && w in W && n <= |w|
    ensures w[..n] in W
    decreases |w| - n
  {
    if n == |w| {
      assert w[..n] == w;
    } else {
      PrefixIn(W, w, n + 1);
      assert w[..n + 1][..n] == w[..n];
    }
  }

  // ---------- the longest pattern that ends a text ----------

  ghost function LongestPattern(P: set<Word>, t: Word): (r: nat)
    ensures r <= |t| && (r > 0 ==> t[|t| - r..] in P)
    decreases |t|
  {
    if t == [] then 0 else if t in P then |t| else LongestPattern(P, t[1..])
  }

  lemma {:induction false} LongestPatternIsMaximal(P: set<Word>, t: Word, k: nat)
    requires k <= |t| && t[|t| - k..] in P
    ensures k <= LongestPattern(P, t)
    decreases |t|
  {
    if 0 < |t| && t !in P {
      assert t[1..][|t[1..]| - k..] == t[|t| - k..];
      LongestPatternIsMaximal(P, t[1..], k);
    }
  }

  /** Patterns ending a text are found on its longest trie suffix. */
  lemma {:induction false} PatternOnLongest(W: set<Word>, P: set<Word>, t: Word)
    requires [] in W && P <= W
    ensures LongestPattern(P, t) == LongestPattern(P, Longest(W, t))
    decreases |t|
  {
    if t !in W {
      PatternOnLongest(W, P, t[1..]);
    }
  }

  // ---------- occurrences ----------

  ghost predicate Occurs(P: set<Word>, t: Word, s: int, e: int) {
    0 <= s < e <= |t| && t[s..e] in P
  }

  /** No nonempty word of P occurs anywhere in t. */
  ghost predicate Free(P: set<Word>, t: Word) {
    forall s, e :: !Occurs(P, t, s, e)
  }

  lemma FreePrefix(P: set<Word>, t: Word, u: Word)
    requires Free(P, t) && u <= t
    ensures Free(P, u)
  {
    assert t == u + t[|u|..];
    forall s, e ensures !Occurs(P, u, s, e) {
      if e <= |u| {
        OccursInPrefix(P, u, t[|u|..], s, e);
      }
    }
  }

  /** m is the verdict of a naive search for the occurrences that end inside
      data, when data follows history: the smallest start, relative to the
      beginning of data, or None. */
  ghost predicate FirstMatch(P: set<Word>, history: Word, data: Word, m: Option<int>) {
    match m
    case None =>
      forall s, e :: e > |history| ==> !Occurs(P, history + data, s, e)
    case Some(x) =>
      && (exists s, e :: s == |history| + x && e > |history| && Occurs(P, history + data, s, e))
      && (forall s, e :: e > |history| && Occurs(P, history + data, s, e) ==> |history| + x <= s)
  }

  lemma FirstMatchUnique(P: set<Word>, history: Word, data: Word, m: Option<int>, n: Option<int>)
    requires FirstMatch(P, history, data, m) && FirstMatch(P, history, data, n)
    ensures m == n
  {
  }

  function Earlier(m: Option<int>, n: Option<int>): Option<int> {
    if m.None? then n
    else if n.None? || m.value <= n.value then m
    else n
  }

  function Shift(m: Option<int>, n: int): Option<int> {
    match m
    case None => None
    case Some(x) => Some(x + n)
  }

  /** Occurrences of the longer text are those of its prefix plus the later ones. */
  lemma OccursInPrefix(P: set<Word>, t: Word, u: Word, s: int, e: int)
    requires e <= |t|
    ensures Occurs(P, t + u, s, e) == Occurs(P, t, s, e)
  {
    if 0 <= s < e {
      assert (t + u)[s..e] == t[s..e];
    }
  }

  lemma FirstMatchConcat(P: set<Word>, history: Word, d1: Word, m1: Option<int>, d2: Word, m2: Option<int>)
    requires FirstMatch(P, history, d1, m1)
    requires FirstMatch(P, history + d1, d2, m2)
    ensures FirstMatch(P, history, d1 + d2, Earlier(m1, Shift(m2, |d1|)))
  {
    var t := history + d1 + d2;
    assert t == history + (d1 + d2);
    assert forall s, e :: e <= |history + d1| ==> Occurs(P, t, s, e) == Occurs(P, history + d1, s, e) by {
      forall s, e | e <= |history + d1| ensures Occurs(P, t, s, e) == Occurs(P, history + d1, s, e) {
        OccursInPrefix(P, history + d1, d2, s, e);
      }
    }
    if m1.Some? {
      var s, e :| s == |history| + m1.value && e > |history| && Occurs(P, history + d1, s, e);
      assert Occurs(P, t, s, e);
    }
    if m2.Some? {
      var s, e :| s == |history + d1| + m2.value && e > |history + d1| && Occurs(P, t, s, e);
      assert s == |history| + (m2.value + |d1|);
    }
  }

  /** One more byte: the earliest start among the occurrences ending there is
      given by the longest pattern that ends there. */
  lemma FirstMatchOfByte(P: set<Word>, history: Word, b: Byte)
    ensures var k: int := LongestPattern(P, history + [b]);
            FirstMatch(P, history, [b], if k > 0 then Some(1 - k) else None)
  {
    hide LongestPattern;
    var t := history + [b];
    var k: int := LongestPattern(P, t);
    forall s, e | e > |history| && Occurs(P, t, s, e)
      ensures k > 0 && |t| - k <= s
    {
      assert e == |t| && t[s..e] == t[s..];
      LongestPatternIsMaximal(P, t, |t| - s);
    }
    if k > 0 {
      assert t[|t| - k..|t|] == t[|t| - k..];
      assert Occurs(P, t, |t| - k, |t|);
    }
  }

  // ---------- concatenations ----------

  function Flatten(ws: seq<Word>): Word {
    if ws == [] then [] else Flatten(ws[..|ws| - 1]) + ws[|ws| - 1]
  }

  lemma FlattenOneMore(ws: seq<Word>, w: Word)
    ensures Flatten(ws + [w]) == Flatten(ws) + w
  {
    assert (ws + [w])[..|ws|] == ws;
  }

  lemma {:induction false} FlattenConcat(us: seq<Word>, vs: seq<Word>)
    ensures Flatten(us + vs) == Flatten(us) + Flatten(vs)
    decreases |vs|
  {
    if vs == [] {
      assert us + vs == us;
    } else {
      assert (us + vs)[..|us + vs| - 1] == us + vs[..|vs| - 1];
      FlattenConcat(us, vs[..|vs| - 1]);
    }
  }

  /** Search is independent of how the data is cut: the verdicts of the pieces,
      each shifted by the bytes before it, combine to the verdict of the whole. */
  ghost function Combined(chunks: seq<Word>, ms: seq<Option<int>>): Option<int>
    requires |chunks| == |ms|
    decreases |chunks|
  {
    if chunks == [] then None
    else
      var n := |chunks| - 1;
      Earlier(Combined(chunks[..n], ms[..n]), Shift(ms[n], |Flatten(chunks[..n])|))
  }

  lemma {:induction false} FirstMatchOfChunks(P: set<Word>, history: Word, chunks: seq<Word>, ms: seq<Option<int>>)
    requires |chunks| == |ms|
    requires forall k :: 0 <= k < |chunks| ==> FirstMatch(P, history + Flatten(chunks[..k]), chunks[k], ms[k])
    ensures FirstMatch(P, history, Flatten(chunks), Combined(chunks, ms))
    decreases |chunks|
  {
    if chunks == [] {
      assert history + Flatten(chunks) == history;
    } else {
      var n := |chunks| - 1;
      forall k | 0 <= k < n
        ensures FirstMatch(P, history + Flatten(chunks[..n][..k]), chunks[..n][k], ms[..n][k])
      {
        assert chunks[..n][..k] == chunks[..k];
      }
      FirstMatchOfChunks(P, history, chunks[..n], ms[..n]);
      FirstMatchConcat(P, history, Flatten(chunks[..n]), Combined(chunks[..n], ms[..n]), chunks[n], ms[n]);
    }
  }

  // ---------- hold-back ----------

  /** An occurrence that straddles the end of t starts inside the longest
      suffix of t that is a prefix of some pattern. */
  lemma HoldBack(W: set<Word>, P: set<Word>, t: Word, more: Word, s: int, e: int)
    requires PrefixClosed(W) && P <= W
    requires Occurs(P, t + more, s, e) && s < |t| <= e
    ensures |t| - |Longest(W, t)| <= s
  {
    var p := (t + more)[s..e];
    PrefixIn(W, p, |t| - s);
    assert p[..|t| - s] == t[s..];
    assert Suffix(t[s..], t);
    LongestIsMaximal(W, t, t[s..]);
  }

  lemma CompletesPattern(P: set<Word>, t: Word, w: Word, p: Word)
    requires p in P && w <= p && w != [] && Suffix(w, t)
    ensures Occurs(P, t + p[|w|..], |t| - |w|, |t| + |p| - |w|)
  {
    var u := t + p[|w|..];
    assert |u| == |t| + |p| - |w|;
    assert u[|t| - |w|..] == t[|t| - |w|..] + p[|w|..] == p;
    assert u[|t| - |w|..|u|] == u[|t| - |w|..];
  }

  /** The hold-back is least: some continuation completes an occurrence that
      starts exactly at its first byte. */
  lemma HoldBackIsLeast(W: set<Word>, P: set<Word>, t: Word) returns (more: Word, e: int)
    requires [] in W && (forall w :: w in W && w != [] ==> exists p :: p in P && w <= p)
    requires Longest(W, t) != []
    ensures e >= |t| && Occurs(P, t + more, |t| - |Longest(W, t)|, e)
  {
    var w := Longest(W, t);
    hide Longest;
    var p :| p in P && w <= p;
    CompletesPattern(P, t, w, p);
    more, e := p[|w|..], |t| + |p| - |w|;
  }
}
