/** The streaming multi-pattern matcher of csrc/phrase_matcher.cpp.

    A trie of byte patterns is built in place, failure links and inherited
    terminals are computed breadth first, and byte chunks are scanned with the
    state carried from call to call. Every node stands for a word (a prefix of
    some pattern), recorded in a ghost field; all results are stated in terms of
    those words and of naive search. */
module PhraseMatcher {
  import opened Options
  import opened Words

  datatype Node = Node(edges: map<Byte, nat>, failure: nat, depth: nat, terminal: nat)

  datatype ScanResult = InvalidState | Scanned(state: nat, first: Option<int>, depth: nat)

  const MAX_PATTERNS := 2048
  const MAX_BYTES := 262144

  ghost function WordSet(words: seq<Word>): set<Word> {
    set i | 0 <= i < |words| :: words[i]
  }

  // ---------- the trie ----------

  ghost predicate Edge(nodes: seq<Node>, i: int, b: Byte, j: int) {
    0 <= i < |nodes| && b in nodes[i].edges && nodes[i].edges[b] == j
  }

  ghost predicate HasParent(nodes: seq<Node>, j: int) {
    exists i, b :: 0 <= i < j && Edge(nodes, i, b, j)
  }

  ghost predicate Trie(nodes: seq<Node>, words: seq<Word>) {
    && |nodes| == |words| > 0
    && words[0] == []
    && (forall i, j :: 0 <= i < j < |words| ==> words[i] != words[j])
    && (forall i :: 0 <= i < |words| ==> nodes[i].depth == |words[i]|)
    && (forall i, b, j :: Edge(nodes, i, b, j) ==> 0 <= j < |words| && words[j] == words[i] + [b])
    && (forall j :: 0 < j < |words| ==> HasParent(nodes, j))
  }

  /** An edge is present exactly when the longer word is in the trie. */
  lemma EdgeIff(nodes: seq<Node>, words: seq<Word>, i: nat, b: Byte)
    requires Trie(nodes, words) && i < |words|
    ensures b in nodes[i].edges <==> words[i] + [b] in WordSet(words)
  {
    if b in nodes[i].edges {
      assert Edge(nodes, i, b, nodes[i].edges[b]);
    }
    if words[i] + [b] in WordSet(words) {
      var j :| 0 <= j < |words| && words[j] == words[i] + [b];
      assert HasParent(nodes, j);
      var i', b' :| 0 <= i' < j && Edge(nodes, i', b', j);
      assert words[i'] + [b'] == words[i] + [b];
      assert words[i'] == (words[i] + [b])[..|words[i]|] == words[i];
      assert b' == (words[i] + [b])[|words[i]|] == b;
    }
  }

  lemma TrieIsPrefixClosed(nodes: seq<Node>, words: seq<Word>)
    requires Trie(nodes, words)
    ensures PrefixClosed(WordSet(words))
  {
    forall w | w in WordSet(words) && |w| > 0
      ensures w[..|w| - 1] in WordSet(words)
    {
      var j :| 0 <= j < |words| && words[j] == w;
      assert HasParent(nodes, j);
      var i, b :| 0 <= i < j && Edge(nodes, i, b, j);
      assert w[..|w| - 1] == words[i];
    }
    assert words[0] in WordSet(words);
  }

  function Grown(nodes: seq<Node>, i: nat, b: Byte): seq<Node>
    requires i < |nodes|
  {
    nodes[i := nodes[i].(edges := nodes[i].edges[b := |nodes|])]
    + [Node(map[], 0, nodes[i].depth + 1, 0)]
  }

  lemma GrownIsTrie(nodes: seq<Node>, words: seq<Word>, i: nat, b: Byte)
    requires Trie(nodes, words) && i < |words| && b !in nodes[i].edges
    ensures Trie(Grown(nodes, i, b), words + [words[i] + [b]])
    ensures words[i] + [b] !in WordSet(words)
  {
    EdgeIff(nodes, words, i, b);
    var nodes' := Grown(nodes, i, b);
    var words' := words + [words[i] + [b]];
    forall k, c, j | Edge(nodes', k, c, j)
      ensures 0 <= j < |words'| && words'[j] == words'[k] + [c]
    {
      if !(k == i && c == b) {
        assert Edge(nodes, k, c, j);
      }
    }
    forall j | 0 < j < |words'|
      ensures HasParent(nodes', j)
    {
      if j < |words| {
        assert HasParent(nodes, j);
        var k, c :| 0 <= k < j && Edge(nodes, k, c, j);
        assert Edge(nodes', k, c, j);
      } else {
        assert Edge(nodes', i, b, j);
      }
    }
  }

  // ---------- what building and finishing promise of each node ----------

  ghost function Own(P: set<Word>, w: Word): nat {
    if w in P then |w| else 0
  }

  ghost predicate Raw(nodes: seq<Node>, words: seq<Word>, P: set<Word>, i: int) {
    && 0 <= i < |nodes| == |words|
    && nodes[i].failure == 0 && nodes[i].terminal == Own(P, words[i])
  }

  /** The failure link leads to the longest proper suffix in the trie. */
  ghost predicate LinkRight(nodes: seq<Node>, words: seq<Word>, i: int) {
    && 0 <= i < |nodes| == |words|
    && [] in WordSet(words)
    && nodes[i].failure < |words|
    && words[nodes[i].failure] == if words[i] == [] then [] else Longest(WordSet(words), words[i][1..])
  }

  ghost predicate Final(nodes: seq<Node>, words: seq<Word>, P: set<Word>, i: int) {
    LinkRight(nodes, words, i) && nodes[i].terminal == LongestPattern(P, words[i])
  }

  ghost predicate AllRaw(nodes: seq<Node>, words: seq<Word>, P: set<Word>) {
    forall i :: 0 <= i < |words| ==> Raw(nodes, words, P, i)
  }

  ghost predicate AllFinal(nodes: seq<Node>, words: seq<Word>, P: set<Word>) {
    forall i :: 0 <= i < |words| ==> Final(nodes, words, P, i)
  }

  /** The words of the trie are exactly the prefixes of the patterns. */
  ghost predicate Covers(words: seq<Word>, P: set<Word>) {
    && P <= WordSet(words)
    && forall w :: w in WordSet(words) && w != [] ==> exists p :: p in P && w <= p
  }

  /** A node one level deep, or the root, already has its final values. */
  lemma ShallowIsFinal(nodes: seq<Node>, words: seq<Word>, P: set<Word>, i: nat)
    requires Trie(nodes, words) && i < |words| && Raw(nodes, words, P, i) && |words[i]| <= 1
    ensures Final(nodes, words, P, i)
  {
    assert words[0] in WordSet(words);
    if |words[i]| == 1 {
      assert words[i][1..] == [];
    }
  }

  /** The longest proper suffix of a child is one automaton step from its
      parent's failure node. */
  lemma ChildSuffix(nodes: seq<Node>, words: seq<Word>, parent: nat, b: Byte, child: nat)
    requires Trie(nodes, words) && Edge(nodes, parent, b, child) && parent > 0
    requires LinkRight(nodes, words, parent)
    ensures [] in WordSet(words)
    ensures |words[child]| > 0
    ensures Longest(WordSet(words), words[child][1..])
         == Longest(WordSet(words), words[nodes[parent].failure] + [b])
  {
    hide Trie, WordSet, Longest;
    TrieIsPrefixClosed(nodes, words);
    RootIsEmpty(nodes, words, parent);
    WordOfEdge(nodes, words, parent, b, child);
    assert words[child][1..] == words[parent][1..] + [b];
    LongestStep(WordSet(words), words[parent][1..], b);
  }

  lemma WordOfEdge(nodes: seq<Node>, words: seq<Word>, i: int, b: Byte, j: int)
    requires Trie(nodes, words) && Edge(nodes, i, b, j)
    ensures |nodes| == |words| && 0 < j < |words| && words[j] == words[i] + [b]
  {
  }

  /** The longest pattern that ends a node's word: its own, or its failure's. */
  lemma InheritedTerminal(words: seq<Word>, P: set<Word>, w: Word)
    requires [] in WordSet(words) && P <= WordSet(words) && w != []
    ensures LongestPattern(P, w) ==
            if w in P then |w| else LongestPattern(P, Longest(WordSet(words), w[1..]))
    ensures LongestPattern(P, Longest(WordSet(words), w[1..])) < |w|
  {
    PatternOnLongest(WordSet(words), P, w[1..]);
  }

  // ---------- the breadth-first pass ----------

  ghost predicate LinksRightUpTo(nodes: seq<Node>, words: seq<Word>, depth: int) {
    forall i {:trigger LinkRight(nodes, words, i)} :: 0 <= i < |words| && |words[i]| <= depth ==> LinkRight(nodes, words, i)
  }

  /** The queue holds the seen nodes not yet expanded, in order of depth,
      spanning at most two levels. The root counts as expanded, not as seen. */
  ghost predicate Queued(words: seq<Word>, queue: seq<nat>, expanded: set<nat>, seen: set<nat>) {
    && (forall i :: i in seen ==> 0 < i < |words|)
    && expanded <= seen + {0}
    && (forall a :: 0 <= a < |queue| ==> 0 < queue[a] < |words| && queue[a] in seen && queue[a] !in expanded)
    && (forall i :: i in seen && i !in expanded ==> i in queue)
    && (forall a, b :: 0 <= a < b < |queue| ==> queue[a] != queue[b])
    && (forall a, b :: 0 <= a < b < |queue| ==>
          |words[queue[a]]| <= |words[queue[b]]| <= |words[queue[0]]| + 1)
  }

  /** A node is seen exactly when its parent is expanded, or is the one being
      expanded and the byte that leads to it is no longer to do. */
  ghost predicate Frontier(nodes: seq<Node>, expanded: set<nat>, seen: set<nat>, current: nat, todo: set<Byte>) {
    forall i, b, j :: Edge(nodes, i, b, j) ==> (j in seen <==> i in expanded || (i == current && b !in todo))
  }

  /** Seen nodes are final, the others are as add left them. */
  ghost predicate Marked(nodes: seq<Node>, words: seq<Word>, P: set<Word>, seen: set<nat>) {
    forall i :: 0 <= i < |words| ==>
      if i == 0 || i in seen then Final(nodes, words, P, i) else Raw(nodes, words, P, i)
  }

  /** Breadth-first order: an unseen node is deeper than the front of the queue,
      so once the queue is empty every node has been seen. */
  lemma {:induction false} UnseenIsDeeper(nodes: seq<Node>, words: seq<Word>,
                                          queue: seq<nat>, expanded: set<nat>, seen: set<nat>,
                                          current: nat, todo: set<Byte>, j: nat)
    requires Trie(nodes, words) && Queued(words, queue, expanded, seen) && 0 in expanded
    requires Frontier(nodes, expanded, seen, current, todo)
    requires 0 < j < |words| && j !in seen
    ensures queue != [] && |words[queue[0]]| < |words[j]|
    decreases j
  {
    assert HasParent(nodes, j);
    var i, b :| 0 <= i < j && Edge(nodes, i, b, j);
    if i in seen {
      var a :| 0 <= a < |queue| && queue[a] == i;
    } else {
      UnseenIsDeeper(nodes, words, queue, expanded, seen, current, todo, i);
    }
  }

  lemma SeenUpToFront(nodes: seq<Node>, words: seq<Word>, P: set<Word>,
                      queue: seq<nat>, expanded: set<nat>, seen: set<nat>, current: nat, todo: set<Byte>)
    requires Trie(nodes, words) && Queued(words, queue, expanded, seen) && 0 in expanded
    requires Frontier(nodes, expanded, seen, current, todo) && Marked(nodes, words, P, seen)
    ensures queue == [] ==> AllFinal(nodes, words, P)
    ensures queue != [] ==>
              forall i {:trigger Final(nodes, words, P, i)} ::
                0 <= i < |words| && |words[i]| <= |words[queue[0]]| ==> Final(nodes, words, P, i)
  {
    forall i | 0 < i < |words| && i !in seen
      ensures queue != [] && |words[queue[0]]| < |words[i]|
    {
      UnseenIsDeeper(nodes, words, queue, expanded, seen, current, todo, i);
    }
  }

  /** Two edges into one node are the same edge. */
  lemma EdgeInjective(nodes: seq<Node>, words: seq<Word>, i: int, b: Byte, k: int, c: Byte, j: int)
    requires Trie(nodes, words) && Edge(nodes, i, b, j) && Edge(nodes, k, c, j)
    ensures i == k && b == c
  {
    assert words[i] + [b] == words[k] + [c];
    assert (words[i] + [b])[..|words[i]|] == words[i];
    assert (words[k] + [c])[..|words[k]|] == words[k];
    assert (words[i] + [b])[|words[i]|] == b;
  }

  function Linked(nodes: seq<Node>, child: nat, failure: nat): seq<Node>
    requires child < |nodes| && failure < |nodes|
  {
    nodes[child := nodes[child].(
      failure := failure,
      terminal := if nodes[child].terminal >= nodes[failure].terminal then nodes[child].terminal
                  else nodes[failure].terminal)]
  }

  lemma LinkedIsTrie(nodes: seq<Node>, words: seq<Word>, child: nat, failure: nat)
    requires Trie(nodes, words) && child < |nodes| && failure < |nodes|
    ensures Trie(Linked(nodes, child, failure), words)
    ensures forall i, b, j :: Edge(Linked(nodes, child, failure), i, b, j) == Edge(nodes, i, b, j)
  {
    var nodes' := Linked(nodes, child, failure);
    assert forall i :: 0 <= i < |nodes| ==> nodes'[i].edges == nodes[i].edges && nodes'[i].depth == nodes[i].depth;
    assert forall i, b, j :: Edge(nodes', i, b, j) == Edge(nodes, i, b, j);
    forall j | 0 < j < |words| ensures HasParent(nodes', j) {
      assert HasParent(nodes, j);
      var i, b :| 0 <= i < j && Edge(nodes, i, b, j);
      assert Edge(nodes', i, b, j);
    }
  }

  lemma LinkedIsFinal(nodes: seq<Node>, words: seq<Word>, P: set<Word>,
                      parent: nat, b: Byte, child: nat, failure: nat)
    requires Trie(nodes, words) && P <= WordSet(words)
    requires Edge(nodes, parent, b, child) && parent > 0
    requires LinkRight(nodes, words, parent) && Raw(nodes, words, P, child)
    requires failure < |words| && Final(nodes, words, P, failure)
    requires words[failure] == Longest(WordSet(words), words[nodes[parent].failure] + [b])
    ensures Final(Linked(nodes, child, failure), words, P, child)
  {
    ChildSuffix(nodes, words, parent, b, child);
    InheritedTerminal(words, P, words[child]);
  }

  lemma SameNode(nodes: seq<Node>, nodes': seq<Node>, words: seq<Word>, P: set<Word>, i: nat)
    requires |nodes| == |nodes'| == |words| && i < |nodes| && nodes'[i] == nodes[i]
    ensures Final(nodes', words, P, i) == Final(nodes, words, P, i)
    ensures Raw(nodes', words, P, i) == Raw(nodes, words, P, i)
  {
  }

  lemma LinkedIsMarked(nodes: seq<Node>, words: seq<Word>, P: set<Word>, seen: set<nat>, child: nat, failure: nat)
    requires Trie(nodes, words) && Marked(nodes, words, P, seen)
    requires 0 < child < |nodes| && failure < |nodes|
    requires Final(Linked(nodes, child, failure), words, P, child)
    ensures Marked(Linked(nodes, child, failure), words, P, seen + {child})
  {
    var nodes' := Linked(nodes, child, failure);
    forall i | 0 <= i < |words|
      ensures if i == 0 || i in seen + {child} then Final(nodes', words, P, i) else Raw(nodes', words, P, i)
    {
      if i != child {
        SameNode(nodes, nodes', words, P, i);
      }
    }
  }

  lemma FrontierOneMore(nodes: seq<Node>, words: seq<Word>, expanded: set<nat>, seen: set<nat>,
                        parent: nat, todo: set<Byte>, b: Byte, child: nat)
    requires Trie(nodes, words) && Frontier(nodes, expanded, seen, parent, todo)
    requires Edge(nodes, parent, b, child) && b in todo && parent !in expanded
    ensures child !in seen
    ensures Frontier(nodes, expanded, seen + {child}, parent, todo - {b})
  {
    forall i, c, j | Edge(nodes, i, c, j)
      ensures j in seen + {child} <==> i in expanded || (i == parent && c !in todo - {b})
    {
      if j == child {
        EdgeInjective(nodes, words, i, c, parent, b, j);
      }
    }
  }

  lemma QueuedOneMore(words: seq<Word>, queue: seq<nat>, expanded: set<nat>, seen: set<nat>, child: nat)
    requires Queued(words, queue, expanded, seen)
    requires 0 < child < |words| && child !in seen
    requires forall a :: 0 <= a < |queue| ==> |words[queue[a]]| <= |words[child]| <= |words[queue[0]]| + 1
    ensures Queued(words, queue + [child], expanded, seen + {child})
  {
    var queue' := queue + [child];
    forall i | i in seen + {child} && i !in expanded
      ensures i in queue'
    {
      if i == child {
        assert queue'[|queue|] == child;
      } else {
        assert i in queue;
      }
    }
    forall a, b | 0 <= a < b < |queue'|
      ensures queue'[a] != queue'[b]
      ensures |words[queue'[a]]| <= |words[queue'[b]]| <= |words[queue'[0]]| + 1
    {
      assert queue'[a] == queue[a];
      assert queue'[0] == queue[0];
      if b < |queue| {
        assert queue'[b] == queue[b];
      }
    }
  }

  lemma QueuedPopped(words: seq<Word>, queue: seq<nat>, expanded: set<nat>, seen: set<nat>)
    requires Queued(words, queue, expanded, seen) && queue != []
    ensures Queued(words, queue[1..], expanded + {queue[0]}, seen)
  {
    var rest := queue[1..];
    forall i | i in seen && i !in expanded + {queue[0]}
      ensures i in rest
    {
      var a :| 0 <= a < |queue| && queue[a] == i;
      assert rest[a - 1] == i;
    }
  }

  // ---------- one step of the automaton ----------

  lemma EdgeStep(nodes: seq<Node>, words: seq<Word>, i: nat, b: Byte)
    requires Trie(nodes, words) && i < |words| && b in nodes[i].edges
    ensures [] in WordSet(words) && nodes[i].edges[b] < |words|
    ensures words[nodes[i].edges[b]] == words[i] + [b] == Longest(WordSet(words), words[i] + [b])
  {
    assert Edge(nodes, i, b, nodes[i].edges[b]);
    EdgeIff(nodes, words, i, b);
    assert words[0] in WordSet(words);
  }

  /** Without an edge, the longest suffix is the one found from the failure
      node, which is strictly shallower. */
  lemma MissStep(nodes: seq<Node>, words: seq<Word>, i: nat, b: Byte)
    requires Trie(nodes, words) && i < |words| && b !in nodes[i].edges && LinkRight(nodes, words, i)
    ensures i == 0 ==> Longest(WordSet(words), words[i] + [b]) == []
    ensures i != 0 ==> |words[nodes[i].failure]| < |words[i]|
    ensures i != 0 ==> (Longest(WordSet(words), words[i] + [b])
                        == Longest(WordSet(words), words[nodes[i].failure] + [b]))
  {
    hide Trie, WordSet, Longest, PrefixClosed;
    EdgeIff(nodes, words, i, b);
    TrieIsPrefixClosed(nodes, words);
    RootIsEmpty(nodes, words, i);
    LongestSkips(WordSet(words), words[i] + [b]);
    if i == 0 {
      assert (words[i] + [b])[1..] == [];
      LongestOfEmpty(WordSet(words));
    } else {
      assert (words[i] + [b])[1..] == words[i][1..] + [b];
      LongestStep(WordSet(words), words[i][1..], b);
    }
  }

  lemma LongestOfEmpty(W: set<Word>)
    requires [] in W
    ensures Longest(W, []) == []
  {
  }

  lemma RootIsEmpty(nodes: seq<Node>, words: seq<Word>, i: nat)
    requires Trie(nodes, words) && i < |words|
    ensures i == 0 <==> words[i] == []
  {
  }

  /** Where one byte leads, and how many failure links are followed on the way. */
  ghost function Walk(nodes: seq<Node>, words: seq<Word>, s: nat, b: Byte): (r: (nat, nat))
    requires Trie(nodes, words) && s < |nodes| && LinksRightUpTo(nodes, words, |words[s]|)
    ensures r.0 < |nodes|
    decreases |words[s]|
  {
    if b in nodes[s].edges then
      EdgeStep(nodes, words, s, b);
      (nodes[s].edges[b], 0)
    else if s == 0 then (0, 0)
    else
      assert LinkRight(nodes, words, s);
      MissStep(nodes, words, s, b);
      var r := Walk(nodes, words, nodes[s].failure, b);
      (r.0, r.1 + 1)
  }

  lemma TrieBasics(nodes: seq<Node>, words: seq<Word>)
    requires Trie(nodes, words)
    ensures |nodes| == |words| > 0 && words[0] == [] && [] in WordSet(words)
  {
    assert words[0] in WordSet(words);
  }

  lemma LinksUpTo(nodes: seq<Node>, words: seq<Word>, s: nat)
    requires Trie(nodes, words) && s < |nodes| && LinksRightUpTo(nodes, words, |words[s]|)
    ensures LinkRight(nodes, words, s)
    ensures s > 0 ==> nodes[s].failure < |nodes| && LinksRightUpTo(nodes, words, |words[nodes[s].failure]|)
  {
    hide Longest;
    assert LinkRight(nodes, words, s);
    if s > 0 {
      assert Suffix(words[nodes[s].failure], words[s][1..]);
    }
  }

  lemma WalkStep(nodes: seq<Node>, words: seq<Word>, s: nat, b: Byte)
    requires Trie(nodes, words) && s < |nodes| && LinksRightUpTo(nodes, words, |words[s]|)
    ensures |nodes| == |words| && [] in WordSet(words)
    ensures b in nodes[s].edges ==>
              var t := nodes[s].edges[b];
              t < |nodes| && Walk(nodes, words, s, b) == (t, 0) && |words[t]| == |words[s]| + 1
              && words[t] == Longest(WordSet(words), words[s] + [b])
    ensures b !in nodes[s].edges && s == 0 ==>
              Walk(nodes, words, s, b) == (0, 0) && words[0] == Longest(WordSet(words), words[s] + [b]) == []
    ensures b !in nodes[s].edges && s > 0 ==>
              var t := nodes[s].failure;
              && t < |nodes| && |words[t]| < |words[s]| && LinksRightUpTo(nodes, words, |words[t]|)
              && Walk(nodes, words, s, b) == (Walk(nodes, words, t, b).0, Walk(nodes, words, t, b).1 + 1)
              && Longest(WordSet(words), words[s] + [b]) == Longest(WordSet(words), words[t] + [b])
  {
    hide Trie, LinksRightUpTo, LinkRight, WordSet, Longest;
    TrieBasics(nodes, words);
    LinksUpTo(nodes, words, s);
    if b in nodes[s].edges {
      EdgeStep(nodes, words, s, b);
    } else {
      MissStep(nodes, words, s, b);
    }
  }

  /** After some failure links the walk from the first node is the one from here. */
  ghost predicate Walking(nodes: seq<Node>, words: seq<Word>, state: nat, b: Byte, s: nat, steps: nat)
    requires Trie(nodes, words) && state < |nodes| && LinksRightUpTo(nodes, words, |words[state]|)
  {
    && [] in WordSet(words) && s < |nodes| && LinksRightUpTo(nodes, words, |words[s]|)
    && Longest(WordSet(words), words[s] + [b]) == Longest(WordSet(words), words[state] + [b])
    && Walk(nodes, words, state, b) == (Walk(nodes, words, s, b).0, Walk(nodes, words, s, b).1 + steps)
    && |words[s]| + steps <= |words[state]|
  }

  lemma WalkingStarts(nodes: seq<Node>, words: seq<Word>, state: nat, b: Byte)
    requires Trie(nodes, words) && state < |nodes| && LinksRightUpTo(nodes, words, |words[state]|)
    ensures Walking(nodes, words, state, b, state, 0)
  {
    hide Trie, LinksRightUpTo, Walk, Longest, WordSet;
    TrieBasics(nodes, words);
  }

  lemma WalkingStep(nodes: seq<Node>, words: seq<Word>, state: nat, b: Byte, s: nat, steps: nat)
    requires Trie(nodes, words) && state < |nodes| == |words| && LinksRightUpTo(nodes, words, |words[state]|)
    requires s < |nodes| && Walking(nodes, words, state, b, s, steps) && [] in WordSet(words)
    ensures b in nodes[s].edges || s == 0 ==>
              var t := if b in nodes[s].edges then nodes[s].edges[b] else 0;
              && t < |nodes| && (t, steps) == Walk(nodes, words, state, b)
              && words[t] == Longest(WordSet(words), words[state] + [b]) && |words[t]| + steps <= |words[state]| + 1
    ensures b !in nodes[s].edges && s > 0 ==>
              var t := nodes[s].failure;
              t < |nodes| && |words[t]| < |words[s]| && Walking(nodes, words, state, b, t, steps + 1)
  {
    hide Trie, LinksRightUpTo, Walk, Longest, WordSet;
    WalkStep(nodes, words, s, b);
  }

  /** The same for a whole text, in a finished automaton. */
  ghost function WalkAll(nodes: seq<Node>, words: seq<Word>, P: set<Word>, s: nat, data: Word): (r: (nat, nat))
    requires Trie(nodes, words) && AllFinal(nodes, words, P) && s < |nodes|
    ensures r.0 < |nodes|
  {
    if data == [] then (s, 0)
    else
      var before := WalkAll(nodes, words, P, s, data[..|data| - 1]);
      LinksAreRight(nodes, words, P, |words[before.0]|);
      var last := Walk(nodes, words, before.0, data[|data| - 1]);
      (last.0, before.1 + last.1)
  }

  lemma WalkOneMore(nodes: seq<Node>, words: seq<Word>, P: set<Word>, s: nat, data: Word, i: nat, t: nat, n: nat, next: nat, m: nat)
    requires Trie(nodes, words) && AllFinal(nodes, words, P) && s < |nodes| && i < |data|
    requires WalkAll(nodes, words, P, s, data[..i]) == (t, n)
    requires LinksRightUpTo(nodes, words, |words[t]|) && Walk(nodes, words, t, data[i]) == (next, m)
    ensures WalkAll(nodes, words, P, s, data[..i + 1]) == (next, n + m)
  {
    hide Trie, AllFinal, LinksRightUpTo, Walk;
    assert data[..i + 1][..i] == data[..i];
  }

  // ---------- the automaton ----------

  class Automaton {
    var nodes: seq<Node>
    ghost var words: seq<Word>
    ghost var patterns: set<Word>

    /** Between calls of Add. */
    ghost predicate Building()
      reads this
    {
      && Trie(nodes, words) && Covers(words, patterns)
      && AllRaw(nodes, words, patterns)
    }

    /** After Finish. */
    ghost predicate Ready()
      reads this
    {
      && Trie(nodes, words) && Covers(words, patterns)
      && AllFinal(nodes, words, patterns)
    }

    constructor ()
      ensures Building() && patterns == {} && |nodes| == 1
    {
      nodes := [Node(map[], 0, 0, 0)];
      words := [[]];
      patterns := {};
    }

    /** One step of the automaton. It only needs the links of the nodes no
        deeper than the current one, so Finish can use it while half done. The
        number of failure links followed is paid for by the loss of depth. */
    method Advance(state: nat, b: Byte) returns (next: nat, ghost steps: nat)
      requires Trie(nodes, words) && state < |nodes|
      requires LinksRightUpTo(nodes, words, |words[state]|)
      ensures next < |nodes| && [] in WordSet(words)
      ensures (next, steps) == Walk(nodes, words, state, b)
      ensures words[next] == Longest(WordSet(words), words[state] + [b])
      ensures |words[next]| + steps <= |words[state]| + 1
    {
      hide Trie, LinksRightUpTo, Walk, Longest, WordSet, Walking;
      TrieBasics(nodes, words);
      WalkingStarts(nodes, words, state, b);
      var s: nat := state;
      steps := 0;
      while true
        invariant s < |nodes| == |words| && Walking(nodes, words, state, b, s, steps)
        decreases |words[s]|
      {
        WalkingStep(nodes, words, state, b, s, steps);
        if b in nodes[s].edges {
          next := nodes[s].edges[b];
          return;
        }
        if s == 0 {
          next := 0;
          return;
        }
        s := nodes[s].failure;
        steps := steps + 1;
      }
    }

    method Add(pattern: Word)
      requires Building()
      modifies this
      ensures Building()
      ensures patterns == old(patterns) + {pattern}
      ensures |nodes| <= old(|nodes|) + |pattern|
    {
      var state: nat := 0;
      var k := 0;
      while k < |pattern|
        invariant 0 <= k <= |pattern| && patterns == old(patterns)
        invariant Adding(nodes, words, old(words), patterns, pattern, state, k)
      {
        var b := pattern[k];
        if b in nodes[state].edges {
          FollowEdge(nodes, words, old(words), patterns, pattern, state, k);
          state := nodes[state].edges[b];
        } else {
          GrowEdge(nodes, words, old(words), patterns, pattern, state, k);
          var next := |nodes|;
          nodes, words := Grown(nodes, state, b), words + [words[state] + [b]];
          state := next;
        }
        k := k + 1;
      }
      assert words[state] == pattern;
      TerminalIsRaw(nodes, words, patterns, state);
      TerminalIsTrie(nodes, words, state, |pattern|);
      CoversOneMore(old(words), words, patterns, pattern);
      nodes := WithTerminal(nodes, state, |pattern|);
      patterns := patterns + {pattern};
    }

    /** The queue that finish starts from: the root's children, in any order. */
    method QueueRootChildren() returns (queue: seq<nat>, ghost seen: set<nat>)
      requires Building()
      ensures Bfs(nodes, words, patterns, Pass(queue, {0}, seen, 0, {}))
    {
      queue, seen := [], {};
      var todo := nodes[0].edges.Keys;
      StartBfs(nodes, words, patterns);
      while todo != {}
        invariant todo <= nodes[0].edges.Keys
        invariant Bfs(nodes, words, patterns, Pass(queue, {}, seen, 0, todo))
        invariant Level(words, queue, 1)
        decreases todo
      {
        var b :| b in todo;
        SeeRootChild(nodes, words, patterns, queue, seen, todo, b);
        queue, seen := queue + [nodes[0].edges[b]], seen + {nodes[0].edges[b]};
        todo := todo - {b};
      }
      RootExpanded(nodes, words, patterns, queue, seen);
    }

    /** Link one child and report it. */
    method LinkChild(parent: nat, b: Byte, ghost queue: seq<nat>,
                     ghost expanded: set<nat>, ghost seen: set<nat>, ghost todo: set<Byte>)
      returns (child: nat)
      requires Bfs(nodes, words, patterns, Pass([parent] + queue, expanded, seen, parent, todo)) && 0 in expanded
      requires parent < |nodes| && b in todo && b in nodes[parent].edges
      modifies this`nodes
      ensures |nodes| == old(|nodes|) && nodes[parent].edges == old(nodes[parent].edges)
      ensures Bfs(nodes, words, patterns, Pass([parent] + (queue + [child]), expanded, seen + {child}, parent, todo - {b}))
    {
      hide Bfs, Trie, LinksRightUpTo, WordSet, Longest;
      child := nodes[parent].edges[b];
      LinksForChild(nodes, words, patterns, [parent] + queue, expanded, seen, todo);
      var failure, _ := Advance(nodes[parent].failure, b);
      SeeChild(nodes, words, patterns, [parent] + queue, expanded, seen, todo, b, failure);
      nodes := Linked(nodes, child, failure);
      assert [parent] + queue + [child] == [parent] + (queue + [child]);
    }

    /** The body of finish's queue loop: link the children of one node, visiting
        its edges in any order, and queue them. */
    method Expand(parent: nat, queue: seq<nat>, ghost expanded: set<nat>, ghost seen: set<nat>)
      returns (queue': seq<nat>, ghost seen': set<nat>)
      requires Bfs(nodes, words, patterns, Pass([parent] + queue, expanded, seen, 0, {})) && 0 in expanded
      modifies this`nodes
      ensures Bfs(nodes, words, patterns, Pass(queue', expanded + {parent}, seen', 0, {}))
      ensures |nodes| == old(|nodes|)
    {
      queue', seen' := queue, seen;
      StartExpanding(nodes, words, patterns, [parent] + queue, expanded, seen);
      var todo := nodes[parent].edges.Keys;
      while todo != {}
        invariant |nodes| == old(|nodes|) && parent < |nodes|
        invariant todo <= nodes[parent].edges.Keys
        invariant Bfs(nodes, words, patterns, Pass([parent] + queue', expanded, seen', parent, todo))
        decreases todo
      {
        var b :| b in todo;
        var child := LinkChild(parent, b, queue', expanded, seen', todo);
        queue', seen' := queue' + [child], seen' + {child};
        todo := todo - {b};
      }
      DoneExpanding(nodes, words, patterns, [parent] + queue', expanded, seen');
      assert ([parent] + queue')[1..] == queue';
    }

    /** Failure links and inherited terminals, breadth first. */
    method Finish()
      requires Building()
      modifies this`nodes
      ensures Ready() && |nodes| == old(|nodes|)
    {
      hide Trie, Covers, AllRaw, Frontier, Marked;
      var queue, seen := QueueRootChildren();
      ghost var expanded: set<nat> := {0};
      while queue != []
        invariant |nodes| == old(|nodes|)
        invariant Bfs(nodes, words, patterns, Pass(queue, expanded, seen, 0, {})) && 0 in expanded
        decreases Indices(words) - expanded
      {
        var parent := queue[0];
        assert parent !in expanded && words[parent] in words;
        assert [parent] + queue[1..] == queue;
        queue, seen := Expand(parent, queue[1..], expanded, seen);
        expanded := expanded + {parent};
      }
      SeenUpToFront(nodes, words, patterns, queue, expanded, seen, 0, {});
    }

    lemma ReadyBasics()
      requires Ready()
      ensures |nodes| == |words| > 0 && patterns <= WordSet(words)
    {
    }

    /** Scan one chunk from a carried state. Whatever bytes led to that state,
        the new state is the longest suffix of everything read so far that
        begins a pattern, and the verdict is that of naive search for the
        occurrences that end in this chunk. The failure links followed are paid
        for by the starting depth and the bytes read. */
    method Scan(state: int, data: Word, ghost history: Word) returns (r: ScanResult, ghost steps: nat)
      requires Ready()
      requires 0 <= state < |nodes| ==> At(state, history)
      ensures r.InvalidState? <==> !(0 <= state < |nodes|)
      ensures r.Scanned? ==> r.state < |nodes| && At(r.state, history + data)
      ensures r.Scanned? ==> FirstMatch(patterns, history, data, r.first)
      ensures r.Scanned? ==> r.depth == |words[r.state]|
      ensures r.Scanned? ==> (r.state, steps) == WalkAll(nodes, words, patterns, state, data)
      ensures r.Scanned? ==> steps + r.depth <= |words[state]| + |data|
    {
      hide Walk, WalkAll, FirstMatch, Longest, LongestPattern, WordSet, Trie, AllFinal, LinksRightUpTo, Covers;
      ReadyBasics();
      steps := 0;
      if state < 0 || state >= |nodes| {
        return InvalidState, 0;
      }
      var s: nat := state;
      var found, earliest := false, 0;
      var i := 0;
      NothingReadYet(patterns, history, data);
      NothingWalked(nodes, words, patterns, s, data);
      while i < |data|
        invariant 0 <= i <= |data| && s < |nodes|
        invariant At(s, history + data[..i])
        invariant FirstMatch(patterns, history, data[..i], Verdict(found, earliest))
        invariant (s, steps) == WalkAll(nodes, words, patterns, state, data[..i])
        invariant steps + |words[s]| <= |words[state]| + i
      {
        LinksAreRight(nodes, words, patterns, |words[s]|);
        var t, n := Advance(s, data[i]);
        var terminal := nodes[t].terminal;
        ghost var before := Verdict(found, earliest);
        ScanStep(nodes, words, patterns, history, data, i, s, t, before);
        if terminal != 0 {
          var start := i + 1 - terminal;
          if !found || start < earliest {
            earliest := start;
          }
          found := true;
        }
        assert Verdict(found, earliest) == Earlier(before, Verdict(terminal > 0, i + 1 - terminal));
        WalkOneMore(nodes, words, patterns, state, data, i, s, steps, t, n);
        s, steps := t, steps + n;
        i := i + 1;
      }
      assert data[..|data|] == data;
      DepthOfNode(nodes, words, s);
      r := Scanned(s, Verdict(found, earliest), nodes[s].depth);
    }

    /** The state the automaton is in after reading a text. */
    ghost predicate At(state: nat, text: Word)
      reads this
    {
      [] in WordSet(words) && state < |words| && words[state] == Longest(WordSet(words), text)
    }
  }

  function Verdict(found: bool, start: int): Option<int> {
    if found then Some(start) else None
  }

  lemma LinksAreRight(nodes: seq<Node>, words: seq<Word>, P: set<Word>, depth: int)
    requires AllFinal(nodes, words, P)
    ensures LinksRightUpTo(nodes, words, depth)
  {
    forall i {:trigger LinkRight(nodes, words, i)} | 0 <= i < |words| && |words[i]| <= depth
      ensures LinkRight(nodes, words, i)
    {
      assert Final(nodes, words, P, i);
    }
  }

  lemma DepthOfNode(nodes: seq<Node>, words: seq<Word>, i: nat)
    requires Trie(nodes, words) && i < |nodes|
    ensures |nodes| == |words| && nodes[i].depth == |words[i]|
  {
  }

  lemma NothingReadYet(P: set<Word>, history: Word, data: Word)
    ensures history + data[..0] == history && FirstMatch(P, history, data[..0], None)
  {
    assert history + data[..0] == history;
  }

  lemma NothingWalked(nodes: seq<Node>, words: seq<Word>, P: set<Word>, s: nat, data: Word)
    requires Trie(nodes, words) && AllFinal(nodes, words, P) && s < |nodes|
    ensures WalkAll(nodes, words, P, s, data[..0]) == (s, 0)
  {
  }

  /** One byte of a scan, for the state and for the verdict. */
  lemma ScanStep(nodes: seq<Node>, words: seq<Word>, P: set<Word>, history: Word, data: Word, i: nat,
                 state: nat, next: nat, first: Option<int>)
    requires Trie(nodes, words) && P <= WordSet(words) && AllFinal(nodes, words, P)
    requires state < |words| && next < |words| && [] in WordSet(words) && i < |data|
    requires words[state] == Longest(WordSet(words), history + data[..i])
    requires words[next] == Longest(WordSet(words), words[state] + [data[i]])
    requires FirstMatch(P, history, data[..i], first)
    ensures words[next] == Longest(WordSet(words), history + data[..i + 1])
    ensures var k: int := nodes[next].terminal;
            FirstMatch(P, history, data[..i + 1], Earlier(first, Verdict(k > 0, i + 1 - k)))
  {
    hide Trie, FirstMatch, Longest, LongestPattern, WordSet;
    var text := history + data[..i];
    assert text + [data[i]] == history + data[..i + 1];
    TrieIsPrefixClosed(nodes, words);
    LongestStep(WordSet(words), text, data[i]);
    assert Final(nodes, words, P, next);
    VerdictStep(WordSet(words), P, history, data, i, first);
  }

  lemma VerdictStep(W: set<Word>, P: set<Word>, history: Word, data: Word, i: nat, first: Option<int>)
    requires [] in W && P <= W && i < |data|
    requires FirstMatch(P, history, data[..i], first)
    ensures var k: int := LongestPattern(P, Longest(W, history + data[..i + 1]));
            FirstMatch(P, history, data[..i + 1], Earlier(first, Verdict(k > 0, i + 1 - k)))
  {
    hide FirstMatch, Longest, LongestPattern;
    var text := history + data[..i];
    assert text + [data[i]] == history + data[..i + 1];
    assert data[..i] + [data[i]] == data[..i + 1];
    PatternOnLongest(W, P, text + [data[i]]);
    FirstMatchOfByte(P, text, data[i]);
    var k: int := LongestPattern(P, text + [data[i]]);
    FirstMatchConcat(P, history, data[..i], first, [data[i]], Verdict(k > 0, 1 - k));
  }

  // ---------- compile ----------

  datatype CompileResult = Compiled(automaton: Automaton) | BadCount | BadPattern

  ghost function TotalBytes(patterns: seq<Word>): nat {
    |Flatten(patterns)|
  }

  ghost predicate WithinLimits(patterns: seq<Word>) {
    && 0 < |patterns| <= MAX_PATTERNS
    && (forall i :: 0 <= i < |patterns| ==> patterns[i] != [])
    && TotalBytes(patterns) <= MAX_BYTES
  }

  /** The limits are checked pattern by pattern, on running totals; together
      they accept exactly the lists within the limits. */
  method Compile(patterns: seq<Word>) returns (r: CompileResult)
    ensures r.BadCount? <==> !(0 < |patterns| <= MAX_PATTERNS)
    ensures r.Compiled? <==> WithinLimits(patterns)
    ensures r.Compiled? ==> fresh(r.automaton) && r.automaton.Ready()
    ensures r.Compiled? ==> r.automaton.patterns == set p | p in patterns
    ensures r.Compiled? ==> |r.automaton.nodes| <= MAX_BYTES + 1
  {
    hide Trie, Covers, AllRaw, AllFinal;
    if |patterns| == 0 || |patterns| > MAX_PATTERNS {
      return BadCount;
    }
    var automaton := new Automaton();
    var totalBytes := 0;
    var i := 0;
    while i < |patterns|
      invariant 0 <= i <= |patterns|
      invariant fresh(automaton) && automaton.Building()
      invariant automaton.patterns == set p | p in patterns[..i]
      invariant forall k :: 0 <= k < i ==> patterns[k] != []
      invariant totalBytes == TotalBytes(patterns[..i]) <= MAX_BYTES
      invariant |automaton.nodes| <= 1 + totalBytes
    {
      var pattern := patterns[i];
      assert patterns[..i + 1] == patterns[..i] + [pattern];
      totalBytes := totalBytes + |pattern|;
      assert patterns == patterns[..i + 1] + patterns[i + 1..];
      FlattenConcat(patterns[..i + 1], patterns[i + 1..]);
      if |pattern| == 0 || totalBytes > MAX_BYTES {
        return BadPattern;
      }
      automaton.Add(pattern);
      i := i + 1;
    }
    assert patterns[..|patterns|] == patterns;
    automaton.Finish();
    return Compiled(automaton);
  }

  // ---------- consequences for a stream ----------

  /** For every way of cutting the same bytes into chunks, the last state and
      the combined verdict are those of one scan of all the bytes. */
  lemma ScanIsIndependentOfChunking(a: Automaton, history: Word, chunks: seq<Word>,
                                    states: seq<nat>, firsts: seq<Option<int>>, whole: nat, first: Option<int>)
    requires a.Ready()
    requires |firsts| == |chunks| && |states| == |chunks| + 1
    requires forall k :: 0 <= k <= |chunks| ==> a.At(states[k], history + Flatten(chunks[..k]))
    requires forall k :: 0 <= k < |chunks| ==> FirstMatch(a.patterns, history + Flatten(chunks[..k]), chunks[k], firsts[k])
    requires a.At(whole, history + Flatten(chunks)) && FirstMatch(a.patterns, history, Flatten(chunks), first)
    ensures states[|chunks|] == whole
    ensures Combined(chunks, firsts) == first
  {
    assert chunks[..|chunks|] == chunks;
    FirstMatchOfChunks(a.patterns, history, chunks, firsts);
    FirstMatchUnique(a.patterns, history, Flatten(chunks), Combined(chunks, firsts), first);
  }

  /** Scan chunk by chunk, carrying the state and keeping the earliest match. */
  method ScanChunks(a: Automaton, state: int, chunks: seq<Word>, ghost history: Word) returns (r: ScanResult)
    requires a.Ready()
    requires 0 <= state < |a.nodes| ==> a.At(state, history)
    ensures r.InvalidState? <==> !(0 <= state < |a.nodes|)
    ensures r.Scanned? ==> r.state < |a.nodes| && a.At(r.state, history + Flatten(chunks))
    ensures r.Scanned? ==> FirstMatch(a.patterns, history, Flatten(chunks), r.first)
    ensures r.Scanned? ==> r.depth == |a.words[r.state]|
  {
    hide FirstMatch, Trie, Covers, AllFinal, Longest, WordSet;
    ghost var steps;
    r, steps := a.Scan(state, [], history);
    if r.InvalidState? {
      return;
    }
    var read := 0;
    for k := 0 to |chunks|
      invariant r.Scanned? && r.state < |a.nodes| && read == |Flatten(chunks[..k])|
      invariant a.At(r.state, history + Flatten(chunks[..k])) && r.depth == |a.words[r.state]|
      invariant FirstMatch(a.patterns, history, Flatten(chunks[..k]), r.first)
    {
      a.ReadyBasics();
      ghost var before := Flatten(chunks[..k]);
      var piece;
      piece, steps := a.Scan(r.state, chunks[k], history + before);
      assert chunks[..k + 1] == chunks[..k] + [chunks[k]];
      FlattenOneMore(chunks[..k], chunks[k]);
      FirstMatchConcat(a.patterns, history, before, r.first, chunks[k], piece.first);
      assert history + before + chunks[k] == history + Flatten(chunks[..k + 1]);
      r := Scanned(piece.state, Earlier(r.first, Shift(piece.first, read)), piece.depth);
      read := read + |chunks[k]|;
    }
    assert chunks[..|chunks|] == chunks;
  }

  /** However the bytes are cut, chunk by chunk or at once gives the same state,
      depth and match. */
  method ScanBothWays(a: Automaton, state: int, chunks: seq<Word>, ghost history: Word)
    returns (pieces: ScanResult, whole: ScanResult)
    requires a.Ready()
    requires 0 <= state < |a.nodes| ==> a.At(state, history)
    ensures pieces == whole && (whole.Scanned? <==> 0 <= state < |a.nodes|)
  {
    hide FirstMatch, Covers, AllFinal, Longest, WordSet;
    pieces := ScanChunks(a, state, chunks, history);
    ghost var steps;
    whole, steps := a.Scan(state, Flatten(chunks), history);
    if whole.Scanned? {
      FirstMatchUnique(a.patterns, history, Flatten(chunks), pieces.first, whole.first);
    }
  }

  /** The finished automaton depends on the pattern set alone: neither the order
      in which patterns were added nor the order in which edges were visited
      changes what the node of a word knows. */
  lemma ReadyIsDetermined(a: Automaton, b: Automaton, i: nat, j: nat)
    requires a.Ready() && b.Ready() && a.patterns == b.patterns
    requires i < |a.nodes| && j < |b.nodes| && a.words[i] == b.words[j]
    ensures WordSet(a.words) == WordSet(b.words)
    ensures a.nodes[i].terminal == b.nodes[j].terminal && a.nodes[i].depth == b.nodes[j].depth
    ensures a.nodes[i].failure < |a.words| && b.nodes[j].failure < |b.words|
    ensures a.words[a.nodes[i].failure] == b.words[b.nodes[j].failure]
    ensures a.nodes[i].edges.Keys == b.nodes[j].edges.Keys
  {
    SameWords(a.nodes, a.words, b.nodes, b.words, a.patterns);
    SameWords(b.nodes, b.words, a.nodes, a.words, a.patterns);
    assert Final(a.nodes, a.words, a.patterns, i) && Final(b.nodes, b.words, b.patterns, j);
    forall c: Byte ensures c in a.nodes[i].edges <==> c in b.nodes[j].edges {
      EdgeIff(a.nodes, a.words, i, c);
      EdgeIff(b.nodes, b.words, j, c);
    }
  }

  lemma SameWords(nodes: seq<Node>, words: seq<Word>, nodes': seq<Node>, words': seq<Word>, P: set<Word>)
    requires Trie(nodes, words) && Trie(nodes', words') && Covers(words, P) && Covers(words', P)
    ensures WordSet(words) <= WordSet(words')
  {
    hide Trie, WordSet;
    TrieIsPrefixClosed(nodes', words');
    forall w | w in WordSet(words) ensures w in WordSet(words') {
      if w != [] {
        var p :| p in P && w <= p;
        PrefixIn(WordSet(words'), p, |w|);
        assert p[..|w|] == w;
      }
    }
  }

  /** Every state of the automaton is one that some text leads to, so the
      history that Scan speaks of always exists. */
  lemma EveryStateHasAHistory(a: Automaton, state: nat)
    requires a.Ready() && state < |a.nodes|
    ensures a.At(state, a.words[state])
  {
    assert a.words[0] in WordSet(a.words);
  }

  /** The depth returned by Scan is a safe hold-back, and the least one. */
  lemma DepthIsHoldBack(a: Automaton, state: nat, text: Word)
    requires a.Ready() && a.At(state, text)
    ensures forall more, s, e :: Occurs(a.patterns, text + more, s, e) && s < |text| <= e ==>
              |text| - a.nodes[state].depth <= s
    ensures a.nodes[state].depth > 0 ==>
              exists more, s, e :: s == |text| - a.nodes[state].depth && e >= |text| && Occurs(a.patterns, text + more, s, e)
  {
    var W := WordSet(a.words);
    TrieIsPrefixClosed(a.nodes, a.words);
    assert a.nodes[state].depth == |a.words[state]|;
    forall more, s, e | Occurs(a.patterns, text + more, s, e) && s < |text| <= e
      ensures |text| - a.nodes[state].depth <= s
    {
      HoldBack(W, a.patterns, text, more, s, e);
    }
    if a.nodes[state].depth > 0 {
      var more, e := HoldBackIsLeast(W, a.patterns, text);
    }
  }

  // ---------- the steps of finish ----------

  /** A point of the queue loop: the nodes waiting, those expanded and those
      seen, the node being expanded and the bytes of its edges still to do. */
  datatype Pass = Pass(queue: seq<nat>, expanded: set<nat>, seen: set<nat>, current: nat, todo: set<Byte>)

  ghost predicate Bfs(nodes: seq<Node>, words: seq<Word>, P: set<Word>, pass: Pass) {
    match pass
    case Pass(queue, expanded, seen, current, todo) =>
      && Trie(nodes, words) && P <= WordSet(words)
      && Queued(words, queue, expanded, seen)
      && Frontier(nodes, expanded, seen, current, todo)
      && Marked(nodes, words, P, seen)
  }

  ghost function Indices(words: seq<Word>): set<nat> {
    set i: nat {:trigger words[i]} | i < |words|
  }

  ghost predicate Level(words: seq<Word>, queue: seq<nat>, depth: nat) {
    forall a :: 0 <= a < |queue| ==> queue[a] < |words| && |words[queue[a]]| == depth
  }

  lemma StartBfs(nodes: seq<Node>, words: seq<Word>, P: set<Word>)
    requires Trie(nodes, words) && P <= WordSet(words) && AllRaw(nodes, words, P)
    ensures Bfs(nodes, words, P, Pass([], {}, {}, 0, nodes[0].edges.Keys))
  {
    ShallowIsFinal(nodes, words, P, 0);
  }

  lemma SeeRootChild(nodes: seq<Node>, words: seq<Word>, P: set<Word>, queue: seq<nat>,
                     seen: set<nat>, todo: set<Byte>, b: Byte)
    requires Bfs(nodes, words, P, Pass(queue, {}, seen, 0, todo)) && Level(words, queue, 1)
    requires |nodes| > 0 && b in todo && b in nodes[0].edges
    ensures var child := nodes[0].edges[b];
            && Bfs(nodes, words, P, Pass(queue + [child], {}, seen + {child}, 0, todo - {b}))
            && Level(words, queue + [child], 1)
  {
    hide Trie, WordSet, Final, Raw, Frontier, Queued;
    var child := nodes[0].edges[b];
    WordOfEdge(nodes, words, 0, b, child);
    RootIsEmpty(nodes, words, 0);
    assert |words[child]| == 1;
    FrontierOneMore(nodes, words, {}, seen, 0, todo, b, child);
    QueuedOneMore(words, queue, {}, seen, child);
    assert Raw(nodes, words, P, child);
    ShallowIsFinal(nodes, words, P, child);
    assert Marked(nodes, words, P, seen + {child});
  }

  lemma RootExpanded(nodes: seq<Node>, words: seq<Word>, P: set<Word>, queue: seq<nat>, seen: set<nat>)
    requires Bfs(nodes, words, P, Pass(queue, {}, seen, 0, {}))
    ensures Bfs(nodes, words, P, Pass(queue, {0}, seen, 0, {}))
  {
  }

  lemma StartExpanding(nodes: seq<Node>, words: seq<Word>, P: set<Word>, queue: seq<nat>,
                       expanded: set<nat>, seen: set<nat>)
    requires Bfs(nodes, words, P, Pass(queue, expanded, seen, 0, {})) && 0 in expanded && queue != []
    ensures queue[0] < |nodes|
    ensures Bfs(nodes, words, P, Pass(queue, expanded, seen, queue[0], nodes[queue[0]].edges.Keys))
  {
    assert queue[0] !in expanded;
    forall i, b, j | Edge(nodes, i, b, j)
      ensures j in seen <==> i in expanded || (i == queue[0] && b !in nodes[queue[0]].edges.Keys)
    {
    }
  }

  lemma DoneExpanding(nodes: seq<Node>, words: seq<Word>, P: set<Word>, queue: seq<nat>,
                      expanded: set<nat>, seen: set<nat>)
    requires queue != [] && Bfs(nodes, words, P, Pass(queue, expanded, seen, queue[0], {})) && 0 in expanded
    ensures Bfs(nodes, words, P, Pass(queue[1..], expanded + {queue[0]}, seen, 0, {}))
  {
    QueuedPopped(words, queue, expanded, seen);
  }

  /** While a node is being expanded, every link that Advance may follow from
      its failure node is already right. */
  lemma LinksForChild(nodes: seq<Node>, words: seq<Word>, P: set<Word>, queue: seq<nat>,
                      expanded: set<nat>, seen: set<nat>, todo: set<Byte>)
    requires queue != [] && Bfs(nodes, words, P, Pass(queue, expanded, seen, queue[0], todo)) && 0 in expanded
    ensures Trie(nodes, words) && |nodes| == |words|
    ensures queue[0] < |nodes| && nodes[queue[0]].failure < |nodes|
    ensures LinksRightUpTo(nodes, words, |words[nodes[queue[0]].failure]|)
  {
    SeenUpToFront(nodes, words, P, queue, expanded, seen, queue[0], todo);
    assert Final(nodes, words, P, queue[0]);
    assert words[queue[0]] != words[0];
    assert |words[nodes[queue[0]].failure]| < |words[queue[0]]|;
    forall i | 0 <= i < |words| && |words[i]| <= |words[nodes[queue[0]].failure]|
      ensures LinkRight(nodes, words, i)
    {
      assert Final(nodes, words, P, i);
    }
  }

  lemma SeeChild(nodes: seq<Node>, words: seq<Word>, P: set<Word>, queue: seq<nat>,
                 expanded: set<nat>, seen: set<nat>, todo: set<Byte>, b: Byte, failure: nat)
    requires queue != [] && Bfs(nodes, words, P, Pass(queue, expanded, seen, queue[0], todo)) && 0 in expanded
    requires queue[0] < |nodes| && b in todo && b in nodes[queue[0]].edges
    requires failure < |nodes| && nodes[queue[0]].failure < |nodes| && [] in WordSet(words)
    requires words[failure] == Longest(WordSet(words), words[nodes[queue[0]].failure] + [b])
    ensures var child := nodes[queue[0]].edges[b];
            && child < |nodes|
            && Bfs(Linked(nodes, child, failure), words, P,
                   Pass(queue + [child], expanded, seen + {child}, queue[0], todo - {b}))
            && Linked(nodes, child, failure)[queue[0]].edges == nodes[queue[0]].edges
  {
    hide Trie, Queued, Frontier, Marked, WordSet, Longest, Final;
    var child := nodes[queue[0]].edges[b];
    SeenChildIsQueued(nodes, words, P, queue, expanded, seen, todo, b, child);
    assert Edge(nodes, queue[0], b, child);
    FrontierOneMore(nodes, words, expanded, seen, queue[0], todo, b, child);
    LinkedFrontier(nodes, words, child, failure, expanded, seen + {child}, queue[0], todo - {b});
    SeenChildIsFinal(nodes, words, P, queue, expanded, seen, todo, b, failure);
    LinkedIsMarked(nodes, words, P, seen, child, failure);
    LinkedIsTrie(nodes, words, child, failure);
  }

  lemma SeenChildIsQueued(nodes: seq<Node>, words: seq<Word>, P: set<Word>, queue: seq<nat>,
                          expanded: set<nat>, seen: set<nat>, todo: set<Byte>, b: Byte, child: nat)
    requires queue != [] && queue[0] < |nodes| && b in todo && b in nodes[queue[0]].edges && child == nodes[queue[0]].edges[b]
    requires Bfs(nodes, words, P, Pass(queue, expanded, seen, queue[0], todo)) && 0 in expanded
    ensures 0 < child < |nodes| && queue[0] !in expanded && Queued(words, queue + [child], expanded, seen + {child})
  {
    assert Edge(nodes, queue[0], b, child);
    assert child > 0 by { assert words[child] != words[0]; }
    QueuedOneMore(words, queue, expanded, seen, child);
  }

  lemma LinkedFrontier(nodes: seq<Node>, words: seq<Word>, child: nat, failure: nat,
                       expanded: set<nat>, seen: set<nat>, current: nat, todo: set<Byte>)
    requires Trie(nodes, words) && child < |nodes| && failure < |nodes|
    requires Frontier(nodes, expanded, seen, current, todo)
    ensures Frontier(Linked(nodes, child, failure), expanded, seen, current, todo)
  {
    LinkedIsTrie(nodes, words, child, failure);
  }

  lemma SeenChildIsFinal(nodes: seq<Node>, words: seq<Word>, P: set<Word>, queue: seq<nat>,
                         expanded: set<nat>, seen: set<nat>, todo: set<Byte>, b: Byte, failure: nat)
    requires queue != [] && Bfs(nodes, words, P, Pass(queue, expanded, seen, queue[0], todo)) && 0 in expanded
    requires queue[0] < |nodes| && b in todo && b in nodes[queue[0]].edges
    requires failure < |nodes| && nodes[queue[0]].failure < |nodes| && [] in WordSet(words)
    requires words[failure] == Longest(WordSet(words), words[nodes[queue[0]].failure] + [b])
    ensures var child := nodes[queue[0]].edges[b];
            child < |nodes| && Final(Linked(nodes, child, failure), words, P, child)
  {
    var parent := queue[0];
    var child := nodes[parent].edges[b];
    assert Edge(nodes, parent, b, child);
    assert words[parent] != words[0];
    assert Final(nodes, words, P, parent);
    SeenUpToFront(nodes, words, P, queue, expanded, seen, parent, todo);
    assert |words[failure]| <= |words[parent]|;
    assert Final(nodes, words, P, failure);
    assert child !in seen && Raw(nodes, words, P, child);
    LinkedIsFinal(nodes, words, P, parent, b, child, failure);
  }

  /** State of add's loop after k bytes of the pattern: the current node's word
      is the bytes read, and only prefixes of the pattern have been added. */
  ghost predicate Adding(nodes: seq<Node>, words: seq<Word>, before: seq<Word>, P: set<Word>,
                         pattern: Word, state: nat, k: int)
  {
    && Trie(nodes, words) && before <= words && |words| <= |before| + k
    && 0 <= k <= |pattern| && state < |words| && words[state] == pattern[..k]
    && (forall i :: |before| <= i < |words| ==> words[i] <= pattern)
    && AllRaw(nodes, words, P)
  }

  lemma FollowEdge(nodes: seq<Node>, words: seq<Word>, before: seq<Word>, P: set<Word>,
                   pattern: Word, state: nat, k: nat)
    requires Adding(nodes, words, before, P, pattern, state, k) && k < |pattern|
    requires pattern[k] in nodes[state].edges
    ensures Adding(nodes, words, before, P, pattern, nodes[state].edges[pattern[k]], k + 1)
  {
    assert Edge(nodes, state, pattern[k], nodes[state].edges[pattern[k]]);
    assert pattern[..k + 1] == pattern[..k] + [pattern[k]];
  }

  lemma GrowEdge(nodes: seq<Node>, words: seq<Word>, before: seq<Word>, P: set<Word>,
                 pattern: Word, state: nat, k: nat)
    requires Adding(nodes, words, before, P, pattern, state, k) && k < |pattern|
    requires P <= WordSet(before) && pattern[k] !in nodes[state].edges
    ensures Adding(Grown(nodes, state, pattern[k]), words + [words[state] + [pattern[k]]],
                   before, P, pattern, |nodes|, k + 1)
  {
    GrownIsTrie(nodes, words, state, pattern[k]);
    assert pattern[..k + 1] == pattern[..k] + [pattern[k]];
    NewWordIsNoPattern(before, words, P, words[state] + [pattern[k]]);
    var nodes' := Grown(nodes, state, pattern[k]);
    var words' := words + [words[state] + [pattern[k]]];
    assert AllRaw(nodes', words', P) by {
      forall i | 0 <= i < |words'| ensures Raw(nodes', words', P, i) {
        if i < |words| {
          assert Raw(nodes, words, P, i);
        }
      }
    }
  }

  function WithTerminal(nodes: seq<Node>, i: nat, terminal: nat): seq<Node>
    requires i < |nodes|
  {
    nodes[i := nodes[i].(terminal := terminal)]
  }

  lemma TerminalIsRaw(nodes: seq<Node>, words: seq<Word>, P: set<Word>, state: nat)
    requires |nodes| == |words| && state < |nodes| && AllRaw(nodes, words, P)
    requires forall i, j :: 0 <= i < j < |words| ==> words[i] != words[j]
    ensures AllRaw(WithTerminal(nodes, state, |words[state]|), words, P + {words[state]})
  {
    forall i | 0 <= i < |words|
      ensures Raw(WithTerminal(nodes, state, |words[state]|), words, P + {words[state]}, i)
    {
      assert Raw(nodes, words, P, i);
    }
  }

  lemma NewWordIsNoPattern(words: seq<Word>, words': seq<Word>, P: set<Word>, w: Word)
    requires words <= words' && P <= WordSet(words) && w !in WordSet(words')
    ensures w !in P
  {
    forall i | 0 <= i < |words| ensures words[i] in WordSet(words') {
      assert words'[i] == words[i];
    }
  }

  lemma TerminalIsTrie(nodes: seq<Node>, words: seq<Word>, i: nat, terminal: nat)
    requires Trie(nodes, words) && i < |nodes|
    ensures Trie(WithTerminal(nodes, i, terminal), words)
  {
    var nodes' := WithTerminal(nodes, i, terminal);
    assert forall k, b, j :: Edge(nodes', k, b, j) == Edge(nodes, k, b, j);
    forall j | 0 < j < |words| ensures HasParent(nodes', j) {
      assert HasParent(nodes, j);
      var k, b :| 0 <= k < j && Edge(nodes, k, b, j);
      assert Edge(nodes', k, b, j);
    }
  }

  lemma CoversOneMore(words: seq<Word>, words': seq<Word>, P: set<Word>, pattern: Word)
    requires Covers(words, P) && words <= words'
    requires forall i :: |words| <= i < |words'| ==> words'[i] <= pattern
    requires pattern in WordSet(words')
    ensures Covers(words', P + {pattern})
  {
    forall p | p in P ensures p in WordSet(words') {
      var i :| 0 <= i < |words| && words[i] == p;
      assert words'[i] == p;
    }
    forall w | w in WordSet(words') && w != []
      ensures exists p :: p in P + {pattern} && w <= p
    {
      var i :| 0 <= i < |words'| && words'[i] == w;
      if i < |words| {
        assert words[i] == w && w in WordSet(words);
        var p :| p in P && w <= p;
        assert p in P + {pattern};
      } else {
        assert pattern in P + {pattern};
      }
    }
  }
}
