/** Graph partition signatures: get_graph_partition_signature_patched of
    sonar/env_override.py.

    A scheduled graph is cut into partitions that run as separate functions. A
    backward pass decides what each partition takes, returns and frees. A node may
    update a buffer in place: the result has a name of its own, an alias of the
    buffer's. The claim: running the partitions one by one on the buffers, from
    their declared inputs, exporting their declared outputs and freeing what they
    say they free, computes what the whole graph computes on its names. */
module GraphPartition {
  import opened Options

  type Name = string

  datatype Node = Node(outputs: set<Name>, uses: set<Name>, writes: set<Name>, lastUsage: set<Name>)

  /** What the pass reads from the scheduler and the graph: the graph's outputs,
      the names that have a node (graph inputs and buffers), the constants, the
      mutation aliases, and the buffers that are never allocated. */
  datatype Context = Context(outputs: set<Name>, known: set<Name>, constants: set<Name>,
                             realName: map<Name, Name>, noLayout: set<Name>)

  datatype Signature = Signature(inputs: set<Name>, outputs: set<Name>, deallocation: map<Name, bool>,
                                 skipCudagraph: bool, constants: set<Name>)

  // ---------- the pass, as functions of a partition and what is still unmet ----------

  function Outs(p: seq<Node>): set<Name> {
    if p == [] then {} else Outs(p[..|p| - 1]) + p[|p| - 1].outputs
  }

  function Touched(p: seq<Node>): set<Name> {
    if p == [] then {} else Touched(p[..|p| - 1]) + p[|p| - 1].uses + p[|p| - 1].writes
  }

  function Freed(p: seq<Node>): set<Name> {
    if p == [] then {} else Freed(p[..|p| - 1]) + p[|p| - 1].lastUsage
  }

  function Real(ctx: Context, n: Name): Name {
    if n in ctx.realName then ctx.realName[n] else n
  }

  function Inputs(ctx: Context, touched: set<Name>, outs: set<Name>, freed: set<Name>): set<Name> {
    (set n | n in touched && n !in ctx.noLayout && n !in outs :: Real(ctx, n))
    + (set n | n in freed && n !in outs && n in ctx.known)
  }

  function Returned(ctx: Context, inputs: set<Name>, outs: set<Name>, freed: set<Name>, unmet: set<Name>): set<Name> {
    (set n | n in outs && n in unmet :: Real(ctx, n))
    + (set n | n in inputs && n in ctx.known && n !in freed :: Real(ctx, n))
  }

  function SignatureOf(ctx: Context, p: seq<Node>, skip: bool, unmet: set<Name>): Signature {
    var inputs := Inputs(ctx, Touched(p), Outs(p), Freed(p));
    var returned := Returned(ctx, inputs, Outs(p), Freed(p), unmet);
    Signature(
      inputs * ctx.known,
      returned - ctx.noLayout,
      (map n | n in inputs * ctx.known :: n in Freed(p)),
      skip,
      inputs * ctx.constants)
  }

  /** The names some later partition, or the graph itself, still waits for,
      looking back from the end. */
  function Unmet(ctx: Context, parts: seq<seq<Node>>): set<Name> {
    if parts == [] then ctx.outputs
    else
      var p := parts[0];
      var after := Unmet(ctx, parts[1..]);
      var inputs := Inputs(ctx, Touched(p), Outs(p), Freed(p));
      inputs + (after - Returned(ctx, inputs, Outs(p), Freed(p), after))
  }

  function Signatures(ctx: Context, parts: seq<seq<Node>>, skips: seq<bool>): seq<Signature>
    requires |parts| == |skips|
  {
    if parts == [] then []
    else [SignatureOf(ctx, parts[0], skips[0], Unmet(ctx, parts[1..]))] + Signatures(ctx, parts[1..], skips[1..])
  }

  /** Every returned name has a node to look up. */
  ghost predicate Resolvable(ctx: Context, parts: seq<seq<Node>>) {
    parts == [] || (Resolvable(ctx, parts[1..])
                    && SignatureOf(ctx, parts[0], false, Unmet(ctx, parts[1..])).outputs <= ctx.known)
  }

  function Reversed(s: seq<Signature>): seq<Signature> {
    if s == [] then [] else [s[|s| - 1]] + Reversed(s[..|s| - 1])
  }

  /** The pass itself, from the last partition to the first. None stands for the
      lookup error that a returned name without a node would raise. */
  method GetSignatures(ctx: Context, parts: seq<seq<Node>>, skips: seq<bool>) returns (r: Option<seq<Signature>>)
    requires |parts| == |skips|
    ensures r.Some? <==> Resolvable(ctx, parts)
    ensures r.Some? ==> r.value == Signatures(ctx, parts, skips)
    ensures r.Some? ==> |r.value| == |parts| && forall k :: 0 <= k < |parts| ==> r.value[k].skipCudagraph == skips[k]
  {
    var signatures: seq<Signature> := [];
    var unmet := ctx.outputs;
    var i := |parts|;
    while i > 0
      invariant 0 <= i <= |parts|
      invariant unmet == Unmet(ctx, parts[i..])
      invariant Reversed(signatures) == Signatures(ctx, parts[i..], skips[i..])
      invariant Resolvable(ctx, parts[i..])
    {
      i := i - 1;
      assert parts[i..][0] == parts[i] && parts[i..][1..] == parts[i + 1..] && skips[i..][1..] == skips[i + 1..];
      var outs, touched, freed := Collect(parts[i]);
      var inputs := Inputs(ctx, touched, outs, freed);
      var returned := Returned(ctx, inputs, outs, freed, unmet);
      var outputNodes := returned - ctx.noLayout;
      if !(outputNodes <= ctx.known) {
        NotResolvable(ctx, parts, i);
        return None;
      }
      var signature := Signature(
        inputs * ctx.known,
        outputNodes,
        (map n | n in inputs * ctx.known :: n in freed),
        skips[i],
        inputs * ctx.constants);
      signatures := signatures + [signature];
      assert signatures[..|signatures| - 1] + [signature] == signatures;
      unmet := inputs + (unmet - returned);
    }
    assert parts[0..] == parts && skips[0..] == skips;
    SkipsCarried(ctx, parts, skips);
    return Some(Reversed(signatures));
  }

  /** Each signature carries the flag of its own partition. */
  lemma {:induction false} SkipsCarried(ctx: Context, parts: seq<seq<Node>>, skips: seq<bool>)
    requires |parts| == |skips|
    ensures var s := Signatures(ctx, parts, skips);
            |s| == |parts| && forall k :: 0 <= k < |parts| ==> s[k].skipCudagraph == skips[k]
  {
    if parts != [] {
      SkipsCarried(ctx, parts[1..], skips[1..]);
    }
  }

  lemma {:induction false} NotResolvable(ctx: Context, parts: seq<seq<Node>>, i: nat)
    requires i <= |parts| && !Resolvable(ctx, parts[i..])
    ensures !Resolvable(ctx, parts)
  {
    if i == 0 {
      assert parts[0..] == parts;
    } else {
      assert parts[i - 1..][1..] == parts[i..];
      NotResolvable(ctx, parts, i - 1);
    }
  }

  method Collect(p: seq<Node>) returns (outs: set<Name>, touched: set<Name>, freed: set<Name>)
    ensures outs == Outs(p) && touched == Touched(p) && freed == Freed(p)
  {
    outs, touched, freed := {}, {}, {};
    for k := 0 to |p|
      invariant outs == Outs(p[..k]) && touched == Touched(p[..k]) && freed == Freed(p[..k])
    {
      assert p[..k + 1][..k] == p[..k];
      outs := outs + p[k].outputs;
      touched := touched + p[k].uses + p[k].writes;
      freed := freed + p[k].lastUsage;
    }
    assert p[..|p|] == p;
  }

  // ---------- members of a partition ----------

  lemma {:induction false} InOuts(p: seq<Node>, n: Name)
    ensures n in Outs(p) <==> exists i :: 0 <= i < |p| && n in p[i].outputs
    decreases |p|
  {
    if p != [] {
      var k := |p| - 1;
      InOuts(p[..k], n);
      assert forall i :: 0 <= i < k ==> p[..k][i] == p[i];
    }
  }

  lemma {:induction false} InTouched(p: seq<Node>, n: Name)
    ensures n in Touched(p) <==> exists i :: 0 <= i < |p| && n in p[i].uses + p[i].writes
    decreases |p|
  {
    if p != [] {
      var k := |p| - 1;
      InTouched(p[..k], n);
      assert forall i :: 0 <= i < k ==> p[..k][i] == p[i];
    }
  }

  lemma {:induction false} InFreed(p: seq<Node>, n: Name)
    ensures n in Freed(p) <==> exists i :: 0 <= i < |p| && n in p[i].lastUsage
    decreases |p|
  {
    if p != [] {
      var k := |p| - 1;
      InFreed(p[..k], n);
      assert forall i :: 0 <= i < k ==> p[..k][i] == p[i];
    }
  }

  // ---------- graphs ----------

  ghost predicate Available(inputs: set<Name>, ctx: Context, nodes: seq<Node>, k: int, n: Name) {
    n in inputs || n in ctx.constants || exists i :: 0 <= i < k && i < |nodes| && n in nodes[i].outputs
  }

  /** The name among outs that is a version of the buffer r. */
  ghost function NewVersion(ctx: Context, outs: set<Name>, r: Name): (v: Option<Name>)
    ensures v.Some? ==> v.value in outs && Real(ctx, v.value) == r
    ensures v.None? ==> forall o :: o in outs ==> Real(ctx, o) != r
  {
    if exists o :: o in outs && Real(ctx, o) == r then
      var o :| o in outs && Real(ctx, o) == r;
      Some(o)
    else None
  }

  /** The version that the buffer r holds before node k. */
  ghost function Current(ctx: Context, nodes: seq<Node>, k: nat, r: Name): Name
    requires k <= |nodes|
  {
    if k == 0 then r
    else
      var v := NewVersion(ctx, nodes[k - 1].outputs, r);
      if v.Some? then v.value else Current(ctx, nodes, k - 1, r)
  }

  /** An alias stands for a buffer with a node, and is allocated with it. */
  ghost predicate AliasOk(ctx: Context, n: Name)
    requires n in ctx.realName
  {
    var r := ctx.realName[n];
    r !in ctx.realName && r in ctx.known && (n in ctx.noLayout <==> r in ctx.noLayout)
  }

  /** A node reads names that exist, each as the current version of its buffer. */
  ghost predicate UseOk(inputs: set<Name>, ctx: Context, nodes: seq<Node>, i: int, u: Name) {
    && 0 <= i < |nodes|
    && (u !in ctx.noLayout ==>
          && Available(inputs, ctx, nodes, i, u)
          && (u in ctx.constants || Current(ctx, nodes, i, Real(ctx, u)) == u))
  }

  /** A node produces new names; for an alias it takes the buffer's current version. */
  ghost predicate OutputOk(inputs: set<Name>, ctx: Context, nodes: seq<Node>, i: int, o: Name) {
    && 0 <= i < |nodes|
    && o !in inputs && o !in ctx.constants
    && (o in ctx.realName && o !in ctx.noLayout ==>
          && Available(inputs, ctx, nodes, i, Real(ctx, o))
          && Current(ctx, nodes, i, Real(ctx, o)) in nodes[i].uses)
  }

  /** What a node uses for the last time is an allocated buffer. */
  ghost predicate LastOk(inputs: set<Name>, ctx: Context, nodes: seq<Node>, i: int, n: Name) {
    n !in ctx.realName && n !in ctx.noLayout && Available(inputs, ctx, nodes, i + 1, n)
  }

  /** Single producer, topologically ordered, with in-place updates in order. */
  ghost predicate WellFormed(inputs: set<Name>, ctx: Context, nodes: seq<Node>) {
    && inputs !! ctx.constants
    && (forall n :: n in ctx.realName ==> AliasOk(ctx, n))
    && (forall n :: n in inputs || n in ctx.constants ==> n !in ctx.realName && n !in ctx.noLayout)
    && (forall n :: n in ctx.outputs ==> n !in ctx.realName && n !in ctx.noLayout && (n in ctx.known || n in ctx.constants))
    && (forall n :: n in ctx.known <==> n in inputs || exists i :: 0 <= i < |nodes| && n in nodes[i].outputs)
    && (forall i :: 0 <= i < |nodes| ==> nodes[i].writes <= nodes[i].outputs + nodes[i].uses)
    && (forall i, j, n :: 0 <= i < |nodes| && 0 <= j < |nodes| && n in nodes[i].outputs && n in nodes[j].outputs ==> i == j)
    && (forall i, n, m :: 0 <= i < |nodes| && n in nodes[i].outputs && m in nodes[i].outputs && Real(ctx, n) == Real(ctx, m) ==> n == m)
    && (forall i, n :: 0 <= i < |nodes| && n in nodes[i].outputs ==> OutputOk(inputs, ctx, nodes, i, n))
    && (forall i, n :: 0 <= i < |nodes| && n in nodes[i].uses ==> UseOk(inputs, ctx, nodes, i, n))
    && (forall i, n :: 0 <= i < |nodes| && n in nodes[i].lastUsage ==> LastOk(inputs, ctx, nodes, i, n))
  }

  /** The node reads the buffer r, under one of its names. */
  ghost predicate UsesBuffer(ctx: Context, node: Node, r: Name) {
    exists u :: u in node.uses && u !in ctx.noLayout && Real(ctx, u) == r
  }

  ghost predicate Needs(ctx: Context, node: Node, r: Name) {
    UsesBuffer(ctx, node, r) || r in node.lastUsage
  }

  /** A buffer listed as last used by a node is no graph output, and no later node
      uses or frees it. */
  ghost predicate LastUseSound(ctx: Context, nodes: seq<Node>) {
    forall i, n :: 0 <= i < |nodes| && n in nodes[i].lastUsage ==>
      n !in ctx.outputs && forall j {:trigger nodes[j]} :: i < j < |nodes| ==> !Needs(ctx, nodes[j], n)
  }

  ghost predicate LastUser(ctx: Context, nodes: seq<Node>, i: nat, r: Name)
    requires i < |nodes|
  {
    && UsesBuffer(ctx, nodes[i], r)
    && forall j {:trigger nodes[j]} :: i < j < |nodes| ==> !UsesBuffer(ctx, nodes[j], r)
  }

  /** ... and every buffer is listed by its last user, unless it is a graph
      output; nothing is listed that the node does not use or produce. */
  ghost predicate LastUseExact(ctx: Context, nodes: seq<Node>) {
    && LastUseSound(ctx, nodes)
    && (forall i, n :: 0 <= i < |nodes| && n in nodes[i].lastUsage ==> UsesBuffer(ctx, nodes[i], n) || n in nodes[i].outputs)
    && (forall i, r :: 0 <= i < |nodes| && r in ctx.known && r !in ctx.outputs && LastUser(ctx, nodes, i, r) ==> r in nodes[i].lastUsage)
  }

  // ---------- names and their buffers ----------

  lemma RealOfCurrent(ctx: Context, nodes: seq<Node>, k: nat, r: Name)
    requires k <= |nodes| && r !in ctx.realName
    ensures Real(ctx, Current(ctx, nodes, k, r)) == r
  {
  }

  lemma RealIsBuffer(inputs: set<Name>, ctx: Context, nodes: seq<Node>, n: Name)
    requires WellFormed(inputs, ctx, nodes)
    ensures Real(ctx, n) !in ctx.realName && (n in ctx.noLayout <==> Real(ctx, n) in ctx.noLayout)
    ensures n in ctx.realName ==> Real(ctx, n) in ctx.known && Real(ctx, n) !in ctx.constants
  {
    if n in ctx.realName {
      assert AliasOk(ctx, n);
      KnownIsNoConstant(inputs, ctx, nodes, Real(ctx, n));
    }
  }

  lemma KnownIsNoConstant(inputs: set<Name>, ctx: Context, nodes: seq<Node>, n: Name)
    requires WellFormed(inputs, ctx, nodes) && n in ctx.known
    ensures n !in ctx.constants
  {
    if n !in inputs {
      var i :| 0 <= i < |nodes| && n in nodes[i].outputs;
      assert OutputOk(inputs, ctx, nodes, i, n);
    }
  }

  lemma UseFacts(inputs: set<Name>, ctx: Context, nodes: seq<Node>, i: nat, u: Name)
    requires WellFormed(inputs, ctx, nodes) && i < |nodes| && u in nodes[i].uses && u !in ctx.noLayout
    ensures Available(inputs, ctx, nodes, i, u)
    ensures u in ctx.constants || Current(ctx, nodes, i, Real(ctx, u)) == u
    ensures Real(ctx, u) in ctx.known || Real(ctx, u) in ctx.constants
  {
    assert UseOk(inputs, ctx, nodes, i, u);
    if u in ctx.realName {
      assert AliasOk(ctx, u);
    }
  }

  /** An in-place update takes the current version of the buffer it updates. */
  lemma UpdateFacts(inputs: set<Name>, ctx: Context, nodes: seq<Node>, i: nat, o: Name)
    requires WellFormed(inputs, ctx, nodes) && i < |nodes| && o in nodes[i].outputs && o !in ctx.noLayout && o in ctx.realName
    ensures Available(inputs, ctx, nodes, i, Real(ctx, o))
    ensures UsesBuffer(ctx, nodes[i], Real(ctx, o))
  {
    var r := Real(ctx, o);
    assert OutputOk(inputs, ctx, nodes, i, o);
    RealIsBuffer(inputs, ctx, nodes, o);
    var v := Current(ctx, nodes, i, r);
    RealOfCurrent(ctx, nodes, i, r);
    RealIsBuffer(inputs, ctx, nodes, v);
    assert v in nodes[i].uses && v !in ctx.noLayout && Real(ctx, v) == r;
  }

  /** What exists before node i is not produced by it or later. */
  lemma AvailableIsOlder(inputs: set<Name>, ctx: Context, nodes: seq<Node>, i: nat, j: nat, n: Name)
    requires WellFormed(inputs, ctx, nodes) && i <= j < |nodes| && Available(inputs, ctx, nodes, i, n)
    ensures n !in nodes[j].outputs
  {
    assert n in nodes[j].outputs ==> OutputOk(inputs, ctx, nodes, j, n);
    if n !in inputs && n !in ctx.constants {
      var k :| 0 <= k < i && n in nodes[k].outputs;
      assert n in nodes[j].outputs ==> k == j;
    }
  }

  lemma OnlyVersion(inputs: set<Name>, ctx: Context, nodes: seq<Node>, i: nat, outs: set<Name>, o: Name)
    requires WellFormed(inputs, ctx, nodes) && i < |nodes| && outs <= nodes[i].outputs && o in outs
    ensures NewVersion(ctx, outs, Real(ctx, o)) == Some(o)
  {
  }

  // ---------- meaning ----------

  ghost function Restrict<V>(env: map<Name, V>, names: set<Name>): map<Name, V> {
    map n | n in env && n in names :: env[n]
  }

  /** A node's kernel: from the values it reads to the values it produces. */
  ghost predicate Kernel<V(!new)>(ctx: Context, eval: (Node, map<Name, V>) -> map<Name, V>) {
    forall node, env :: eval(node, env).Keys == node.outputs - ctx.noLayout
  }

  /** The whole graph on its names, run node by node; nothing is overwritten. */
  ghost function Whole<V>(eval: (Node, map<Name, V>) -> map<Name, V>, nodes: seq<Node>, env: map<Name, V>): map<Name, V> {
    if nodes == [] then env
    else
      var k := |nodes| - 1;
      var before := Whole(eval, nodes[..k], env);
      before + eval(nodes[k], Restrict(before, nodes[k].uses))
  }

  /** What a node reads from the buffers, by name. */
  ghost function Reads<V>(ctx: Context, node: Node, e: map<Name, V>): map<Name, V> {
    map n | n in node.uses && n !in ctx.noLayout && Real(ctx, n) in e :: e[Real(ctx, n)]
  }

  ghost predicate Readable<V>(ctx: Context, node: Node, e: map<Name, V>) {
    forall n :: n in node.uses && n !in ctx.noLayout ==> Real(ctx, n) in e
  }

  ghost function Buffers(ctx: Context, names: set<Name>): set<Name> {
    set n | n in names :: Real(ctx, n)
  }

  /** The buffers after the produced values are stored, aliases in place. */
  ghost function Stored<V>(ctx: Context, e: map<Name, V>, produced: map<Name, V>): map<Name, V> {
    map r | r in e.Keys + Buffers(ctx, produced.Keys) ::
      var v := NewVersion(ctx, produced.Keys, r);
      if v.Some? then produced[v.value] else e[r]
  }

  /** One partition on the buffers: every node must find what it reads, and then
      drops what it says is used for the last time. */
  ghost function RunPart<V>(ctx: Context, eval: (Node, map<Name, V>) -> map<Name, V>, p: seq<Node>, e: map<Name, V>): Option<map<Name, V>> {
    if p == [] then Some(e)
    else
      var k := |p| - 1;
      match RunPart(ctx, eval, p[..k], e)
      case None => None
      case Some(e) =>
        if Readable(ctx, p[k], e) then Some(Stored(ctx, e, eval(p[k], Reads(ctx, p[k], e))) - p[k].lastUsage) else None
  }

  ghost function Deallocated(sig: Signature): set<Name> {
    set n | n in sig.deallocation && sig.deallocation[n]
  }

  /** The partitions in turn, each called with its declared inputs and constants,
      which must be alive; its declared outputs become alive and the inputs it
      deallocates are gone. */
  ghost function RunParts<V>(ctx: Context, eval: (Node, map<Name, V>) -> map<Name, V>, parts: seq<seq<Node>>, sigs: seq<Signature>,
                             consts: map<Name, V>, live: map<Name, V>): Option<map<Name, V>>
    requires |parts| == |sigs|
  {
    if parts == [] then Some(live)
    else if !(sigs[0].inputs <= live.Keys && sigs[0].constants <= consts.Keys) then None
    else
      match RunPart(ctx, eval, parts[0], Restrict(live, sigs[0].inputs) + Restrict(consts, sigs[0].constants))
      case None => None
      case Some(e) =>
        if !(sigs[0].outputs <= e.Keys) then None
        else RunParts(ctx, eval, parts[1..], sigs[1..], consts, (live - Deallocated(sigs[0])) + Restrict(e, sigs[0].outputs))
  }

  ghost predicate Agrees<V>(e: map<Name, V>, full: map<Name, V>) {
    forall n :: n in e ==> n in full && e[n] == full[n]
  }

  /** In the final environment of the whole graph every produced value is what
      its kernel gives on the final values of what it reads. */
  ghost predicate SolvedAt<V>(eval: (Node, map<Name, V>) -> map<Name, V>, node: Node, full: map<Name, V>) {
    Agrees(eval(node, Restrict(full, node.uses)), full)
  }

  ghost predicate Solves<V>(eval: (Node, map<Name, V>) -> map<Name, V>, nodes: seq<Node>, full: map<Name, V>) {
    forall i :: 0 <= i < |nodes| ==> SolvedAt(eval, nodes[i], full)
  }

  lemma {:induction false} WholeSolves<V(!new)>(eval: (Node, map<Name, V>) -> map<Name, V>, inputs: set<Name>, ctx: Context,
                                                nodes: seq<Node>, env: map<Name, V>, k: nat)
    requires WellFormed(inputs, ctx, nodes) && Kernel(ctx, eval) && k <= |nodes| && env.Keys == inputs + ctx.constants
    ensures var full := Whole(eval, nodes[..k], env);
            && full.Keys == env.Keys + (Outs(nodes[..k]) - ctx.noLayout)
            && Agrees(env, full) && Solves(eval, nodes[..k], full)
  {
    hide WellFormed, Kernel, Solves, Outs;
    if k == 0 {
      NothingToSolve(eval, nodes, env);
    } else {
      WholeSolves(eval, inputs, ctx, nodes, env, k - 1);
      assert nodes[..k][..k - 1] == nodes[..k - 1] && nodes[..k][k - 1] == nodes[k - 1];
      WholeStep(eval, inputs, ctx, nodes, env, k, Whole(eval, nodes[..k - 1], env));
    }
  }

  lemma NothingToSolve<V>(eval: (Node, map<Name, V>) -> map<Name, V>, nodes: seq<Node>, env: map<Name, V>)
    ensures Outs(nodes[..0]) == {} && Solves(eval, nodes[..0], env)
  {
  }

  lemma WholeStep<V(!new)>(eval: (Node, map<Name, V>) -> map<Name, V>, inputs: set<Name>, ctx: Context,
                           nodes: seq<Node>, env: map<Name, V>, k: nat, before: map<Name, V>)
    requires WellFormed(inputs, ctx, nodes) && Kernel(ctx, eval) && 0 < k <= |nodes| && env.Keys == inputs + ctx.constants
    requires before.Keys == env.Keys + (Outs(nodes[..k - 1]) - ctx.noLayout) && Solves(eval, nodes[..k - 1], before)
    ensures var full := before + eval(nodes[k - 1], Restrict(before, nodes[k - 1].uses));
            && full.Keys == env.Keys + (Outs(nodes[..k]) - ctx.noLayout)
            && Agrees(before, full) && Solves(eval, nodes[..k], full)
  {
    hide WellFormed, Kernel, Solves, Outs;
    var full := before + eval(nodes[k - 1], Restrict(before, nodes[k - 1].uses));
    KernelKeys(ctx, eval, nodes[k - 1], Restrict(before, nodes[k - 1].uses));
    OutsStep(nodes, k);
    forall n | n in before ensures n !in nodes[k - 1].outputs {
      KeyIsAvailable(inputs, ctx, nodes, k - 1, n);
      AvailableIsOlder(inputs, ctx, nodes, k - 1, k - 1, n);
    }
    forall i | 0 <= i < k ensures SolvedAt(eval, nodes[..k][i], full) {
      SameReads(inputs, ctx, nodes, k, i, before, full);
      if i < k - 1 {
        SolvedBefore(eval, nodes, k - 1, i, before);
      }
    }
    AllSolved(eval, nodes[..k], full);
  }

  lemma OutsStep(nodes: seq<Node>, k: nat)
    requires 0 < k <= |nodes|
    ensures Outs(nodes[..k]) == Outs(nodes[..k - 1]) + nodes[k - 1].outputs
  {
    assert nodes[..k][..k - 1] == nodes[..k - 1];
  }

  lemma SolvedBefore<V>(eval: (Node, map<Name, V>) -> map<Name, V>, nodes: seq<Node>, k: nat, i: nat, full: map<Name, V>)
    requires i < k <= |nodes| && Solves(eval, nodes[..k], full)
    ensures SolvedAt(eval, nodes[i], full)
  {
    assert SolvedAt(eval, nodes[..k][i], full);
  }

  lemma AllSolved<V>(eval: (Node, map<Name, V>) -> map<Name, V>, nodes: seq<Node>, full: map<Name, V>)
    requires forall i :: 0 <= i < |nodes| ==> SolvedAt(eval, nodes[i], full)
    ensures Solves(eval, nodes, full)
  {
  }

  lemma KeyIsAvailable(inputs: set<Name>, ctx: Context, nodes: seq<Node>, k: nat, n: Name)
    requires k <= |nodes| && n in inputs + ctx.constants + Outs(nodes[..k])
    ensures Available(inputs, ctx, nodes, k, n)
  {
    InOuts(nodes[..k], n);
    if n !in inputs && n !in ctx.constants {
      var i :| 0 <= i < k && n in nodes[..k][i].outputs;
      assert n in nodes[i].outputs;
    }
  }

  lemma AvailableIsKey(inputs: set<Name>, ctx: Context, nodes: seq<Node>, i: nat, k: nat, n: Name)
    requires i <= k <= |nodes| && Available(inputs, ctx, nodes, i, n)
    ensures n in inputs + ctx.constants + Outs(nodes[..k])
  {
    if n !in inputs && n !in ctx.constants {
      var j :| 0 <= j < i && j < |nodes| && n in nodes[j].outputs;
      assert nodes[..k][j] == nodes[j];
      InOuts(nodes[..k], n);
    }
  }

  lemma SameReads<V>(inputs: set<Name>, ctx: Context, nodes: seq<Node>, k: nat, i: nat, before: map<Name, V>, full: map<Name, V>)
    requires WellFormed(inputs, ctx, nodes) && i < k <= |nodes|
    requires before.Keys == inputs + ctx.constants + (Outs(nodes[..k - 1]) - ctx.noLayout) && Agrees(before, full)
    requires full.Keys == inputs + ctx.constants + (Outs(nodes[..k]) - ctx.noLayout)
    ensures Restrict(before, nodes[i].uses) == Restrict(full, nodes[i].uses)
  {
    hide WellFormed, Outs, Available, Current;
    forall n | n in nodes[i].uses && n in full ensures n in before {
      LayoutFreeIsNoValue(inputs, ctx, nodes, n);
      if n !in ctx.noLayout {
        UseFacts(inputs, ctx, nodes, i, n);
        AvailableIsKey(inputs, ctx, nodes, i, k - 1, n);
      }
    }
  }

  lemma KernelKeys<V(!new)>(ctx: Context, eval: (Node, map<Name, V>) -> map<Name, V>, node: Node, env: map<Name, V>)
    requires Kernel(ctx, eval)
    ensures eval(node, env).Keys == node.outputs - ctx.noLayout
  {
  }

  // ---------- one partition ----------

  ghost predicate At(nodes: seq<Node>, a: nat, p: seq<Node>) {
    a + |p| <= |nodes| && nodes[a..a + |p|] == p
  }

  lemma NodeAt(nodes: seq<Node>, a: nat, p: seq<Node>, k: nat)
    requires At(nodes, a, p) && k < |p|
    ensures a + k < |nodes| && nodes[a + k] == p[k]
  {
  }

  /** The names are those of buffers, which hold the values of their current versions. */
  ghost predicate AgreesAt<V>(ctx: Context, nodes: seq<Node>, k: nat, e: map<Name, V>, full: map<Name, V>)
    requires k <= |nodes|
  {
    forall r :: r in e ==>
      && r !in ctx.realName && r !in ctx.noLayout
      && Current(ctx, nodes, k, r) in full && e[r] == full[Current(ctx, nodes, k, r)]
  }

  /** What a node reads from its own partition was produced there before it. */
  lemma ReadsEarlier(inputs: set<Name>, ctx: Context, nodes: seq<Node>, a: nat, p: seq<Node>, k: nat, u: Name) returns (i: nat)
    requires WellFormed(inputs, ctx, nodes) && At(nodes, a, p) && k < |p|
    requires u in p[k].uses && u !in ctx.noLayout && u in Outs(p)
    ensures i < k && u in p[i].outputs && u in Outs(p[..k])
  {
    hide WellFormed;
    InOuts(p, u);
    i :| 0 <= i < |p| && u in p[i].outputs;
    NodeAt(nodes, a, p, i);
    NodeAt(nodes, a, p, k);
    UseFacts(inputs, ctx, nodes, a + k, u);
    if a + k <= a + i {
      AvailableIsOlder(inputs, ctx, nodes, a + k, a + i, u);
    }
    assert p[..k][i] == p[i];
    InOuts(p[..k], u);
  }

  lemma NotNeededAgain(ctx: Context, nodes: seq<Node>, i: nat, j: nat, n: Name)
    requires LastUseSound(ctx, nodes) && i < j < |nodes|
    ensures n in nodes[i].lastUsage ==> !Needs(ctx, nodes[j], n)
  {
    if n in nodes[i].lastUsage {
      assert n !in ctx.outputs;
    }
  }

  lemma NotFreedBefore(ctx: Context, nodes: seq<Node>, a: nat, p: seq<Node>, k: nat, r: Name)
    requires LastUseSound(ctx, nodes) && At(nodes, a, p) && k < |p| && Needs(ctx, p[k], r)
    ensures r !in Freed(p[..k])
  {
    hide LastUseSound, Needs;
    InFreed(p[..k], r);
    NodeAt(nodes, a, p, k);
    forall i | 0 <= i < k ensures r !in p[..k][i].lastUsage {
      NodeAt(nodes, a, p, i);
      NotNeededAgain(ctx, nodes, a + i, a + k, r);
    }
  }

  lemma ProducedNotFreedBefore(inputs: set<Name>, ctx: Context, nodes: seq<Node>, a: nat, p: seq<Node>, k: nat, o: Name)
    requires WellFormed(inputs, ctx, nodes) && LastUseSound(ctx, nodes) && At(nodes, a, p) && k < |p|
    requires o in p[k].outputs && o !in ctx.noLayout
    ensures Real(ctx, o) !in Freed(p[..k])
  {
    hide WellFormed, LastUseSound;
    NodeAt(nodes, a, p, k);
    if o in ctx.realName {
      UpdateFacts(inputs, ctx, nodes, a + k, o);
      NotFreedBefore(ctx, nodes, a, p, k, Real(ctx, o));
    } else {
      InFreed(p[..k], o);
      forall i | 0 <= i < k ensures o !in p[..k][i].lastUsage {
        NodeAt(nodes, a, p, i);
        FreedIsOlder(inputs, ctx, nodes, a + i, a + k, o);
      }
    }
  }

  lemma FreedIsOlder(inputs: set<Name>, ctx: Context, nodes: seq<Node>, i: nat, j: nat, o: Name)
    requires WellFormed(inputs, ctx, nodes) && i < j < |nodes| && o in nodes[j].outputs
    ensures o !in nodes[i].lastUsage
  {
    if o in nodes[i].lastUsage {
      assert LastOk(inputs, ctx, nodes, i, o);
      AvailableIsOlder(inputs, ctx, nodes, i + 1, j, o);
    }
  }

  ghost predicate Feeds<V>(ctx: Context, p: seq<Node>, e: map<Name, V>) {
    forall n :: n in Touched(p) && n !in ctx.noLayout && n !in Outs(p) ==> Real(ctx, n) in e
  }

  /** The buffers alive after the first k nodes. */
  ghost function AliveAfter<V>(ctx: Context, p: seq<Node>, k: nat, e: map<Name, V>): set<Name>
    requires k <= |p|
  {
    e.Keys + Buffers(ctx, Outs(p[..k]) - ctx.noLayout) - Freed(p[..k])
  }

  /** Every node of the partition finds what it reads, the buffers hold the values
      of the whole graph, and at the end exactly the unfreed ones are alive. */
  lemma {:induction false} PartRuns<V(!new)>(eval: (Node, map<Name, V>) -> map<Name, V>, inputs: set<Name>, ctx: Context,
                                             nodes: seq<Node>, full: map<Name, V>, a: nat, p: seq<Node>,
                                             e: map<Name, V>, k: nat)
    requires WellFormed(inputs, ctx, nodes) && LastUseSound(ctx, nodes) && Kernel(ctx, eval)
    requires Solves(eval, nodes, full) && full.Keys == inputs + ctx.constants + (Outs(nodes) - ctx.noLayout)
    requires At(nodes, a, p) && k <= |p| && AgreesAt(ctx, nodes, a, e, full) && Feeds(ctx, p, e)
    ensures var r := RunPart(ctx, eval, p[..k], e);
            r.Some? && AgreesAt(ctx, nodes, a + k, r.value, full) && r.value.Keys == AliveAfter(ctx, p, k, e)
  {
    hide WellFormed, LastUseSound, Kernel, Solves, Outs, Feeds, At, AgreesAt, AliveAfter, Stored, Reads, Readable;
    if k == 0 {
      NothingRun(ctx, p, e);
    } else {
      PartRuns(eval, inputs, ctx, nodes, full, a, p, e, k - 1);
      RunStep(ctx, eval, p, k, e);
      PartStep(eval, inputs, ctx, nodes, full, a, p, e, k - 1, RunPart(ctx, eval, p[..k - 1], e).value);
    }
  }

  lemma RunStep<V>(ctx: Context, eval: (Node, map<Name, V>) -> map<Name, V>, p: seq<Node>, k: nat, e: map<Name, V>)
    requires 0 < k <= |p|
    ensures RunPart(ctx, eval, p[..k], e) ==
            match RunPart(ctx, eval, p[..k - 1], e)
            case None => None
            case Some(e) =>
              if Readable(ctx, p[k - 1], e) then Some(Stored(ctx, e, eval(p[k - 1], Reads(ctx, p[k - 1], e))) - p[k - 1].lastUsage)
              else None
  {
    hide Readable, Stored, Reads;
    assert p[..k][..k - 1] == p[..k - 1] && p[..k][k - 1] == p[k - 1];
  }

  lemma NothingRun<V>(ctx: Context, p: seq<Node>, e: map<Name, V>)
    ensures AliveAfter(ctx, p, 0, e) == e.Keys
  {
  }

  lemma PartStep<V(!new)>(eval: (Node, map<Name, V>) -> map<Name, V>, inputs: set<Name>, ctx: Context,
                          nodes: seq<Node>, full: map<Name, V>, a: nat, p: seq<Node>,
                          start: map<Name, V>, k: nat, e: map<Name, V>)
    requires WellFormed(inputs, ctx, nodes) && LastUseSound(ctx, nodes) && Kernel(ctx, eval)
    requires Solves(eval, nodes, full) && full.Keys == inputs + ctx.constants + (Outs(nodes) - ctx.noLayout)
    requires At(nodes, a, p) && k < |p| && Feeds(ctx, p, start)
    requires AgreesAt(ctx, nodes, a + k, e, full) && e.Keys == AliveAfter(ctx, p, k, start)
    ensures Readable(ctx, p[k], e)
    ensures var e' := Stored(ctx, e, eval(p[k], Reads(ctx, p[k], e))) - p[k].lastUsage;
            AgreesAt(ctx, nodes, a + k + 1, e', full) && e'.Keys == AliveAfter(ctx, p, k + 1, start)
  {
    hide WellFormed, LastUseSound, Kernel, Solves, Touched, Outs, Freed, AgreesAt, Feeds, AliveAfter, Stored, Buffers;
    NodeAt(nodes, a, p, k);
    forall u | u in p[k].uses && u !in ctx.noLayout ensures Real(ctx, u) in e {
      FindsBuffer(inputs, ctx, nodes, a, p, start, k, u);
    }
    NodeRuns(eval, inputs, ctx, nodes, full, a + k, e);
    KernelKeys(ctx, eval, p[k], Reads(ctx, p[k], e));
    AliveStep(inputs, ctx, nodes, a, p, start, k, e, eval(p[k], Reads(ctx, p[k], e)));
    DropsAgree(ctx, nodes, a + k + 1, Stored(ctx, e, eval(p[k], Reads(ctx, p[k], e))), p[k].lastUsage, full);
  }

  lemma FindsBuffer<V>(inputs: set<Name>, ctx: Context, nodes: seq<Node>, a: nat, p: seq<Node>, start: map<Name, V>, k: nat, u: Name)
    requires WellFormed(inputs, ctx, nodes) && LastUseSound(ctx, nodes) && At(nodes, a, p) && k < |p| && Feeds(ctx, p, start)
    requires u in p[k].uses && u !in ctx.noLayout
    ensures Real(ctx, u) in AliveAfter(ctx, p, k, start)
  {
    hide WellFormed, LastUseSound, Outs, Freed, Touched;
    assert UsesBuffer(ctx, p[k], Real(ctx, u));
    NotFreedBefore(ctx, nodes, a, p, k, Real(ctx, u));
    InTouched(p, u);
    if u in Outs(p) {
      var _ := ReadsEarlier(inputs, ctx, nodes, a, p, k, u);
    }
  }

  lemma AliveStep<V>(inputs: set<Name>, ctx: Context, nodes: seq<Node>, a: nat, p: seq<Node>, start: map<Name, V>, k: nat,
                     e: map<Name, V>, produced: map<Name, V>)
    requires WellFormed(inputs, ctx, nodes) && LastUseSound(ctx, nodes) && At(nodes, a, p) && k < |p|
    requires e.Keys == AliveAfter(ctx, p, k, start) && produced.Keys == p[k].outputs - ctx.noLayout
    ensures (Stored(ctx, e, produced) - p[k].lastUsage).Keys == AliveAfter(ctx, p, k + 1, start)
  {
    hide WellFormed, LastUseSound, Outs, Freed;
    OutsStep(p, k + 1);
    FreedStep(p, k + 1);
    BuffersUnion(ctx, Outs(p[..k]), p[k].outputs);
    forall r | r in Buffers(ctx, p[k].outputs - ctx.noLayout) ensures r !in Freed(p[..k]) {
      var o :| o in p[k].outputs - ctx.noLayout && Real(ctx, o) == r;
      ProducedNotFreedBefore(inputs, ctx, nodes, a, p, k, o);
    }
  }

  lemma FreedStep(p: seq<Node>, k: nat)
    requires 0 < k <= |p|
    ensures Freed(p[..k]) == Freed(p[..k - 1]) + p[k - 1].lastUsage
  {
    assert p[..k][..k - 1] == p[..k - 1];
  }

  lemma BuffersUnion(ctx: Context, a: set<Name>, b: set<Name>)
    ensures Buffers(ctx, a + b - ctx.noLayout) == Buffers(ctx, a - ctx.noLayout) + Buffers(ctx, b - ctx.noLayout)
  {
  }

  lemma DropsAgree<V>(ctx: Context, nodes: seq<Node>, k: nat, e: map<Name, V>, names: set<Name>, full: map<Name, V>)
    requires k <= |nodes| && AgreesAt(ctx, nodes, k, e, full)
    ensures AgreesAt(ctx, nodes, k, e - names, full)
  {
  }

  /** The node reads what the whole graph gives it, and stores what it produces. */
  lemma NodeRuns<V(!new)>(eval: (Node, map<Name, V>) -> map<Name, V>, inputs: set<Name>, ctx: Context, nodes: seq<Node>,
                          full: map<Name, V>, i: nat, e: map<Name, V>)
    requires WellFormed(inputs, ctx, nodes) && Kernel(ctx, eval) && Solves(eval, nodes, full) && i < |nodes|
    requires full.Keys == inputs + ctx.constants + (Outs(nodes) - ctx.noLayout)
    requires AgreesAt(ctx, nodes, i, e, full) && Readable(ctx, nodes[i], e)
    ensures AgreesAt(ctx, nodes, i + 1, Stored(ctx, e, eval(nodes[i], Reads(ctx, nodes[i], e))), full)
  {
    hide WellFormed, Kernel, Outs, Stored;
    assert SolvedAt(eval, nodes[i], full);
    ReadsAreFull(inputs, ctx, nodes, full, i, e);
    KernelKeys(ctx, eval, nodes[i], Reads(ctx, nodes[i], e));
    StoresAgree(inputs, ctx, nodes, i, e, eval(nodes[i], Reads(ctx, nodes[i], e)), full);
  }

  lemma ReadsAreFull<V>(inputs: set<Name>, ctx: Context, nodes: seq<Node>, full: map<Name, V>, i: nat, e: map<Name, V>)
    requires WellFormed(inputs, ctx, nodes) && i < |nodes|
    requires full.Keys == inputs + ctx.constants + (Outs(nodes) - ctx.noLayout)
    requires AgreesAt(ctx, nodes, i, e, full) && Readable(ctx, nodes[i], e)
    ensures Reads(ctx, nodes[i], e) == Restrict(full, nodes[i].uses)
  {
    hide WellFormed, Outs, Current, Available;
    forall u | u in nodes[i].uses
      ensures u in ctx.noLayout ==> u !in full
      ensures u !in ctx.noLayout ==> u in full && e[Real(ctx, u)] == full[u]
    {
      LayoutFreeIsNoValue(inputs, ctx, nodes, u);
      if u !in ctx.noLayout {
        ReadIsFull(inputs, ctx, nodes, full, i, e, u);
      }
    }
  }

  lemma LayoutFreeIsNoValue(inputs: set<Name>, ctx: Context, nodes: seq<Node>, n: Name)
    requires WellFormed(inputs, ctx, nodes)
    ensures n in ctx.noLayout ==> n !in inputs && n !in ctx.constants
  {
  }

  lemma ReadIsFull<V>(inputs: set<Name>, ctx: Context, nodes: seq<Node>, full: map<Name, V>, i: nat, e: map<Name, V>, u: Name)
    requires WellFormed(inputs, ctx, nodes) && i < |nodes| && u in nodes[i].uses && u !in ctx.noLayout
    requires AgreesAt(ctx, nodes, i, e, full) && Real(ctx, u) in e
    ensures u in full && e[Real(ctx, u)] == full[u]
  {
    hide WellFormed, Outs, Current, Available;
    UseFacts(inputs, ctx, nodes, i, u);
    if u in ctx.constants {
      ConstantIsCurrent(inputs, ctx, nodes, i, u);
    }
  }

  lemma {:induction false} ConstantIsCurrent(inputs: set<Name>, ctx: Context, nodes: seq<Node>, k: nat, c: Name)
    requires WellFormed(inputs, ctx, nodes) && k <= |nodes| && c in ctx.constants
    ensures Real(ctx, c) == c && Current(ctx, nodes, k, c) == c
  {
    hide WellFormed, NewVersion;
    InputFacts(inputs, ctx, nodes, c);
    if k > 0 {
      ConstantIsCurrent(inputs, ctx, nodes, k - 1, c);
      forall o | o in nodes[k - 1].outputs ensures Real(ctx, o) != c {
        OutputIsNoConstant(inputs, ctx, nodes, k - 1, o);
      }
    }
  }

  lemma InputFacts(inputs: set<Name>, ctx: Context, nodes: seq<Node>, n: Name)
    requires WellFormed(inputs, ctx, nodes) && (n in inputs || n in ctx.constants)
    ensures n !in ctx.realName && n !in ctx.noLayout && (n in inputs ==> n in ctx.known)
  {
  }

  lemma OutputIsNoConstant(inputs: set<Name>, ctx: Context, nodes: seq<Node>, i: nat, o: Name)
    requires WellFormed(inputs, ctx, nodes) && i < |nodes| && o in nodes[i].outputs
    ensures Real(ctx, o) !in ctx.constants
  {
    RealIsBuffer(inputs, ctx, nodes, o);
    assert OutputOk(inputs, ctx, nodes, i, o);
  }

  lemma StoresAgree<V>(inputs: set<Name>, ctx: Context, nodes: seq<Node>, i: nat, e: map<Name, V>, produced: map<Name, V>, full: map<Name, V>)
    requires WellFormed(inputs, ctx, nodes) && i < |nodes| && produced.Keys == nodes[i].outputs - ctx.noLayout
    requires AgreesAt(ctx, nodes, i, e, full) && Agrees(produced, full)
    ensures AgreesAt(ctx, nodes, i + 1, Stored(ctx, e, produced), full)
  {
    hide WellFormed, NewVersion;
    var e' := Stored(ctx, e, produced);
    forall r | r in e'
      ensures r !in ctx.realName && r !in ctx.noLayout
      ensures Current(ctx, nodes, i + 1, r) in full && e'[r] == full[Current(ctx, nodes, i + 1, r)]
    {
      if r in Buffers(ctx, produced.Keys) {
        var o :| o in produced && Real(ctx, o) == r;
        RealIsBuffer(inputs, ctx, nodes, o);
      }
      VersionStored(inputs, ctx, nodes, i, r);
    }
  }

  /** Storing only allocated outputs makes no difference to an allocated buffer. */
  lemma VersionStored(inputs: set<Name>, ctx: Context, nodes: seq<Node>, i: nat, r: Name)
    requires WellFormed(inputs, ctx, nodes) && i < |nodes| && r !in ctx.noLayout
    ensures NewVersion(ctx, nodes[i].outputs, r) == NewVersion(ctx, nodes[i].outputs - ctx.noLayout, r)
  {
    hide NewVersion;
    var v := NewVersion(ctx, nodes[i].outputs, r);
    if v.Some? {
      RealIsBuffer(inputs, ctx, nodes, v.value);
      OnlyVersion(inputs, ctx, nodes, i, nodes[i].outputs - ctx.noLayout, v.value);
    }
  }

  // ---------- what the backward pass knows ----------

  ghost function Flat(parts: seq<seq<Node>>): seq<Node> {
    if parts == [] then [] else parts[0] + Flat(parts[1..])
  }

  lemma FirstPart(nodes: seq<Node>, a: nat, parts: seq<seq<Node>>)
    requires parts != [] && a <= |nodes| && nodes[a..] == Flat(parts)
    ensures At(nodes, a, parts[0]) && a + |parts[0]| <= |nodes| && nodes[a + |parts[0]|..] == Flat(parts[1..])
  {
    var p := parts[0];
    assert |nodes[a..]| == |p| + |Flat(parts[1..])|;
    assert nodes[a..a + |p|] == nodes[a..][..|p|] == p;
    assert nodes[a + |p|..] == nodes[a..][|p|..] == Flat(parts[1..]);
  }

  ghost predicate NeededFrom(ctx: Context, nodes: seq<Node>, a: int, r: Name) {
    r in ctx.outputs || exists j :: 0 <= a <= j < |nodes| && Needs(ctx, nodes[j], r)
  }

  ghost predicate ProducedFrom(nodes: seq<Node>, a: int, n: Name) {
    exists j :: 0 <= a <= j < |nodes| && n in nodes[j].outputs
  }

  /** The inputs of a partition, as the pass computes them. */
  ghost function InputsOf(ctx: Context, p: seq<Node>): set<Name> {
    Inputs(ctx, Touched(p), Outs(p), Freed(p))
  }

  /** A touched name from outside the partition is read by one of its nodes. */
  lemma TouchedIsRead(inputs: set<Name>, ctx: Context, nodes: seq<Node>, a: nat, p: seq<Node>, n: Name) returns (i: nat)
    requires WellFormed(inputs, ctx, nodes) && At(nodes, a, p) && n in Touched(p) && n !in Outs(p)
    ensures i < |p| && n in p[i].uses
  {
    InTouched(p, n);
    InOuts(p, n);
    i :| 0 <= i < |p| && n in p[i].uses + p[i].writes;
    NodeAt(nodes, a, p, i);
  }

  /** An input is a buffer that some node of the partition reads, or frees. */
  lemma InputIsNeeded(inputs: set<Name>, ctx: Context, nodes: seq<Node>, a: nat, p: seq<Node>, r: Name) returns (i: nat)
    requires WellFormed(inputs, ctx, nodes) && At(nodes, a, p) && r in InputsOf(ctx, p)
    ensures i < |p| && Needs(ctx, p[i], r) && (r !in Freed(p) ==> UsesBuffer(ctx, p[i], r))
    ensures r !in ctx.realName && r !in ctx.noLayout
  {
    hide WellFormed, Touched, Outs, Freed;
    if n :| n in Touched(p) && n !in ctx.noLayout && n !in Outs(p) && Real(ctx, n) == r {
      i := TouchedIsRead(inputs, ctx, nodes, a, p, n);
      RealIsBuffer(inputs, ctx, nodes, n);
    } else {
      InFreed(p, r);
      i :| 0 <= i < |p| && r in p[i].lastUsage;
      NodeAt(nodes, a, p, i);
      LastFacts(inputs, ctx, nodes, a + i, r);
    }
  }

  lemma LastFacts(inputs: set<Name>, ctx: Context, nodes: seq<Node>, i: nat, n: Name)
    requires WellFormed(inputs, ctx, nodes) && i < |nodes| && n in nodes[i].lastUsage
    ensures n !in ctx.realName && n !in ctx.noLayout && Available(inputs, ctx, nodes, i + 1, n)
  {
    assert LastOk(inputs, ctx, nodes, i, n);
  }

  /** A buffer that a node of the partition reads, and that the partition does not
      create, is one of its inputs, even if it is read under a name given to it by
      an earlier update in the same partition. */
  lemma {:induction false} ReadIsInput(inputs: set<Name>, ctx: Context, nodes: seq<Node>, a: nat, p: seq<Node>, i: nat, u: Name)
    requires WellFormed(inputs, ctx, nodes) && At(nodes, a, p) && i < |p|
    requires u in p[i].uses && u !in ctx.noLayout && Real(ctx, u) !in Outs(p)
    ensures Real(ctx, u) in InputsOf(ctx, p)
    decreases i
  {
    hide WellFormed, Touched, Outs, Freed;
    InTouched(p, u);
    if u in Outs(p) {
      var j := ReadsEarlier(inputs, ctx, nodes, a, p, i, u);
      NodeAt(nodes, a, p, j);
      UpdateFacts(inputs, ctx, nodes, a + j, u);
      var v :| v in p[j].uses && v !in ctx.noLayout && Real(ctx, v) == Real(ctx, u);
      ReadIsInput(inputs, ctx, nodes, a, p, j, v);
    }
  }

  /** What a partition takes was not produced by it or after it. */
  lemma InputIsOlder(inputs: set<Name>, ctx: Context, nodes: seq<Node>, a: nat, p: seq<Node>, r: Name)
    requires WellFormed(inputs, ctx, nodes) && At(nodes, a, p) && r in InputsOf(ctx, p)
    ensures !ProducedFrom(nodes, a, r) && r !in Outs(p)
  {
    hide WellFormed, Touched, Outs, Freed;
    if n :| n in Touched(p) && n !in ctx.noLayout && n !in Outs(p) && Real(ctx, n) == r {
      var i := TouchedIsRead(inputs, ctx, nodes, a, p, n);
      NodeAt(nodes, a, p, i);
      UseFacts(inputs, ctx, nodes, a + i, n);
      OlderThanPart(inputs, ctx, nodes, a, p, i, n);
      BufferIsOlder(inputs, ctx, nodes, a, n);
    } else {
      InFreed(p, r);
      var i :| 0 <= i < |p| && r in p[i].lastUsage;
      NodeAt(nodes, a, p, i);
      LastFacts(inputs, ctx, nodes, a + i, r);
      OlderThanPart(inputs, ctx, nodes, a, p, i + 1, r);
    }
    OlderIsNotProduced(inputs, ctx, nodes, a, p, r);
  }

  /** What exists inside a partition that does not produce it existed before it. */
  lemma OlderThanPart(inputs: set<Name>, ctx: Context, nodes: seq<Node>, a: nat, p: seq<Node>, i: nat, n: Name)
    requires At(nodes, a, p) && i <= |p| && n !in Outs(p) && Available(inputs, ctx, nodes, a + i, n)
    ensures Available(inputs, ctx, nodes, a, n)
  {
    InOuts(p, n);
    if n !in inputs && n !in ctx.constants {
      var j :| 0 <= j < a + i && n in nodes[j].outputs;
      if a <= j {
        NodeAt(nodes, a, p, j - a);
      }
    }
  }

  /** A buffer exists before its versions do. */
  lemma BufferIsOlder(inputs: set<Name>, ctx: Context, nodes: seq<Node>, a: nat, n: Name)
    requires WellFormed(inputs, ctx, nodes) && a <= |nodes| && n !in ctx.noLayout && Available(inputs, ctx, nodes, a, n)
    ensures Available(inputs, ctx, nodes, a, Real(ctx, n))
  {
    if n in ctx.realName {
      var j :| 0 <= j < a && n in nodes[j].outputs;
      UpdateFacts(inputs, ctx, nodes, j, n);
    }
  }

  lemma OlderIsNotProduced(inputs: set<Name>, ctx: Context, nodes: seq<Node>, a: nat, p: seq<Node>, n: Name)
    requires WellFormed(inputs, ctx, nodes) && At(nodes, a, p) && Available(inputs, ctx, nodes, a, n)
    ensures !ProducedFrom(nodes, a, n) && n !in Outs(p)
  {
    hide WellFormed;
    forall j | a <= j < |nodes| ensures n !in nodes[j].outputs {
      AvailableIsOlder(inputs, ctx, nodes, a, j, n);
    }
    InOuts(p, n);
    forall i | 0 <= i < |p| ensures n !in p[i].outputs {
      NodeAt(nodes, a, p, i);
    }
  }

  /** What is unmet before a suffix of partitions is a buffer, and a graph output
      or needed by a node of the suffix. */
  lemma {:induction false} UnmetIsNeeded(inputs: set<Name>, ctx: Context, nodes: seq<Node>, a: nat, parts: seq<seq<Node>>, r: Name)
    requires WellFormed(inputs, ctx, nodes) && a <= |nodes| && nodes[a..] == Flat(parts)
    requires r in Unmet(ctx, parts)
    ensures NeededFrom(ctx, nodes, a, r) && r !in ctx.realName && r !in ctx.noLayout
    decreases |parts|
  {
    hide WellFormed, Touched, Outs, Freed, Needs, At;
    if parts == [] {
      OutputFacts(inputs, ctx, nodes, r);
    } else {
      var p := parts[0];
      FirstPart(nodes, a, parts);
      if r in InputsOf(ctx, p) {
        var i := InputIsNeeded(inputs, ctx, nodes, a, p, r);
        NodeAt(nodes, a, p, i);
        NeededAt(ctx, nodes, a, a + i, r);
      } else {
        UnmetIsNeeded(inputs, ctx, nodes, a + |p|, parts[1..], r);
        NeededLater(ctx, nodes, a, a + |p|, r);
      }
    }
  }

  lemma OutputFacts(inputs: set<Name>, ctx: Context, nodes: seq<Node>, n: Name)
    requires WellFormed(inputs, ctx, nodes) && n in ctx.outputs
    ensures n !in ctx.realName && n !in ctx.noLayout && (n in ctx.known || n in ctx.constants)
  {
  }

  lemma NeededAt(ctx: Context, nodes: seq<Node>, a: nat, j: nat, r: Name)
    requires a <= j < |nodes| && Needs(ctx, nodes[j], r)
    ensures NeededFrom(ctx, nodes, a, r)
  {
  }

  lemma NeededLater(ctx: Context, nodes: seq<Node>, a: nat, b: nat, r: Name)
    requires a <= b && NeededFrom(ctx, nodes, b, r)
    ensures NeededFrom(ctx, nodes, a, r)
  {
    hide Needs;
    if r !in ctx.outputs {
      var j :| 0 <= b <= j < |nodes| && Needs(ctx, nodes[j], r);
      NeededAt(ctx, nodes, a, j, r);
    }
  }

  lemma NeededIsNotFreed(ctx: Context, nodes: seq<Node>, a: nat, p: seq<Node>, r: Name)
    requires LastUseSound(ctx, nodes) && At(nodes, a, p) && NeededFrom(ctx, nodes, a + |p|, r)
    ensures r !in Freed(p)
  {
    hide Needs;
    InFreed(p, r);
    forall i | 0 <= i < |p| ensures r !in p[i].lastUsage {
      NodeAt(nodes, a, p, i);
      if r !in ctx.outputs {
        var j :| 0 <= a + |p| <= j < |nodes| && Needs(ctx, nodes[j], r);
        NotNeededAgain(ctx, nodes, a + i, j, r);
      }
    }
  }

  /** What the pass returns, in terms of buffers. */
  lemma ReturnedIs(inputs: set<Name>, ctx: Context, nodes: seq<Node>, a: nat, p: seq<Node>, after: set<Name>)
    requires WellFormed(inputs, ctx, nodes) && At(nodes, a, p)
    requires forall r :: r in after ==> r !in ctx.realName && r !in ctx.noLayout
    ensures Returned(ctx, InputsOf(ctx, p), Outs(p), Freed(p), after) == (Outs(p) * after) + ((InputsOf(ctx, p) * ctx.known) - Freed(p))
    ensures Returned(ctx, InputsOf(ctx, p), Outs(p), Freed(p), after) !! ctx.noLayout
  {
    hide WellFormed, Touched, Outs, Freed, InputsOf;
    forall r | r in InputsOf(ctx, p) ensures r !in ctx.realName && r !in ctx.noLayout {
      var _ := InputIsNeeded(inputs, ctx, nodes, a, p, r);
    }
  }

  /** What is unmet before a suffix of partitions is older than all of them. */
  lemma {:induction false} UnmetIsOlder(inputs: set<Name>, ctx: Context, nodes: seq<Node>, a: nat, parts: seq<seq<Node>>, r: Name)
    requires WellFormed(inputs, ctx, nodes) && a <= |nodes| && nodes[a..] == Flat(parts)
    requires r in Unmet(ctx, parts)
    ensures !ProducedFrom(nodes, a, r)
    decreases |parts|
  {
    hide WellFormed, Touched, Outs, Freed;
    if parts != [] {
      var p := parts[0];
      FirstPart(nodes, a, parts);
      if r in InputsOf(ctx, p) {
        InputIsOlder(inputs, ctx, nodes, a, p, r);
      } else {
        UnmetIsOlder(inputs, ctx, nodes, a + |p|, parts[1..], r);
        AfterIsBuffers(inputs, ctx, nodes, a, parts);
        ReturnedIs(inputs, ctx, nodes, a, p, Unmet(ctx, parts[1..]));
        NotProducedFrom(nodes, a, p, r);
      }
    }
  }

  lemma AfterIsBuffers(inputs: set<Name>, ctx: Context, nodes: seq<Node>, a: nat, parts: seq<seq<Node>>)
    requires WellFormed(inputs, ctx, nodes) && parts != [] && a <= |nodes| && nodes[a..] == Flat(parts)
    ensures a + |parts[0]| <= |nodes|
    ensures forall r :: r in Unmet(ctx, parts[1..]) ==>
              r !in ctx.realName && r !in ctx.noLayout && NeededFrom(ctx, nodes, a + |parts[0]|, r)
  {
    hide WellFormed, NeededFrom, At, Unmet;
    FirstPart(nodes, a, parts);
    forall r | r in Unmet(ctx, parts[1..])
      ensures r !in ctx.realName && r !in ctx.noLayout && NeededFrom(ctx, nodes, a + |parts[0]|, r)
    {
      UnmetIsNeeded(inputs, ctx, nodes, a + |parts[0]|, parts[1..], r);
    }
  }

  lemma NotProducedFrom(nodes: seq<Node>, a: nat, p: seq<Node>, n: Name)
    requires At(nodes, a, p) && n !in Outs(p) && !ProducedFrom(nodes, a + |p|, n)
    ensures !ProducedFrom(nodes, a, n)
  {
    InOuts(p, n);
    forall j | a <= j < |nodes| ensures n !in nodes[j].outputs {
      if j < a + |p| {
        NodeAt(nodes, a, p, j - a);
      }
    }
  }

  lemma NotProducedHere(nodes: seq<Node>, a: nat, p: seq<Node>, n: Name)
    requires At(nodes, a, p) && !ProducedFrom(nodes, a, n)
    ensures n !in Outs(p) && !ProducedFrom(nodes, a + |p|, n)
  {
    InOuts(p, n);
    forall i | 0 <= i < |p| ensures n !in p[i].outputs {
      NodeAt(nodes, a, p, i);
    }
  }

  /** No signature returns a name without a node, so the pass always succeeds. */
  lemma {:induction false} AlwaysResolvable(inputs: set<Name>, ctx: Context, nodes: seq<Node>, a: nat, parts: seq<seq<Node>>)
    requires WellFormed(inputs, ctx, nodes) && a <= |nodes| && nodes[a..] == Flat(parts)
    ensures Resolvable(ctx, parts)
    decreases |parts|
  {
    hide WellFormed, Touched, Outs, Freed, Unmet, At;
    if parts != [] {
      var p := parts[0];
      FirstPart(nodes, a, parts);
      AlwaysResolvable(inputs, ctx, nodes, a + |p|, parts[1..]);
      AfterIsBuffers(inputs, ctx, nodes, a, parts);
      ReturnedIs(inputs, ctx, nodes, a, p, Unmet(ctx, parts[1..]));
      forall n | n in Outs(p) ensures n in ctx.known {
        ProducedIsKnown(inputs, ctx, nodes, a, p, n);
      }
    }
  }

  lemma ProducedIsKnown(inputs: set<Name>, ctx: Context, nodes: seq<Node>, a: nat, p: seq<Node>, n: Name)
    requires WellFormed(inputs, ctx, nodes) && At(nodes, a, p) && n in Outs(p)
    ensures n in ctx.known
  {
    InOuts(p, n);
    var i :| 0 <= i < |p| && n in p[i].outputs;
    NodeAt(nodes, a, p, i);
  }

  lemma StaysUnmet(inputs: set<Name>, ctx: Context, nodes: seq<Node>, a: nat, parts: seq<seq<Node>>, r: Name)
    requires WellFormed(inputs, ctx, nodes) && parts != [] && a <= |nodes| && nodes[a..] == Flat(parts)
    requires r in Unmet(ctx, parts[1..]) && r !in Outs(parts[0])
    ensures r in Unmet(ctx, parts)
  {
    hide WellFormed, Touched, Freed, Outs;
    FirstPart(nodes, a, parts);
    AfterIsBuffers(inputs, ctx, nodes, a, parts);
    ReturnedIs(inputs, ctx, nodes, a, parts[0], Unmet(ctx, parts[1..]));
  }

  // ---------- all partitions ----------

  /** What is alive before node a: buffers older than it, with their values. */
  ghost predicate LiveOk<V>(ctx: Context, nodes: seq<Node>, a: nat, live: map<Name, V>, full: map<Name, V>)
    requires a <= |nodes|
  {
    AgreesAt(ctx, nodes, a, live, full) && forall r :: r in live ==> r in ctx.known && !ProducedFrom(nodes, a, r)
  }

  /** The signature of a partition, in terms of buffers. */
  lemma SignatureIs(inputs: set<Name>, ctx: Context, nodes: seq<Node>, a: nat, p: seq<Node>, skip: bool, after: set<Name>)
    requires WellFormed(inputs, ctx, nodes) && At(nodes, a, p)
    requires forall r :: r in after ==> r !in ctx.realName && r !in ctx.noLayout
    ensures var sig := SignatureOf(ctx, p, skip, after);
            && sig.inputs == InputsOf(ctx, p) * ctx.known
            && sig.constants == InputsOf(ctx, p) * ctx.constants && sig.skipCudagraph == skip
            && sig.outputs == Outs(p) * after + (sig.inputs - Freed(p))
            && Deallocated(sig) == sig.inputs * Freed(p)
  {
    hide WellFormed, Touched, Outs, Freed, Inputs, At;
    ReturnedIs(inputs, ctx, nodes, a, p, after);
  }

  /** The buffers a partition is called with feed it. */
  lemma FedByInputs<V>(inputs: set<Name>, ctx: Context, nodes: seq<Node>, a: nat, p: seq<Node>, e: map<Name, V>)
    requires WellFormed(inputs, ctx, nodes) && At(nodes, a, p)
    requires InputsOf(ctx, p) * (ctx.known + ctx.constants) <= e.Keys
    ensures Feeds(ctx, p, e)
  {
    hide WellFormed, Touched, Outs, Freed;
    forall n | n in Touched(p) && n !in ctx.noLayout && n !in Outs(p) ensures Real(ctx, n) in e {
      var i := TouchedIsRead(inputs, ctx, nodes, a, p, n);
      NodeAt(nodes, a, p, i);
      UseFacts(inputs, ctx, nodes, a + i, n);
    }
  }

  /** A partition called with its declared inputs and constants runs, and ends with
      its declared outputs present. */
  lemma OnePartition<V(!new)>(eval: (Node, map<Name, V>) -> map<Name, V>, inputs: set<Name>, ctx: Context, nodes: seq<Node>,
                              full: map<Name, V>, a: nat, p: seq<Node>, skip: bool, after: set<Name>,
                              consts: map<Name, V>, live: map<Name, V>)
    requires WellFormed(inputs, ctx, nodes) && LastUseSound(ctx, nodes) && Kernel(ctx, eval)
    requires Solves(eval, nodes, full) && full.Keys == inputs + ctx.constants + (Outs(nodes) - ctx.noLayout)
    requires At(nodes, a, p) && LiveOk(ctx, nodes, a, live, full) && Agrees(consts, full) && consts.Keys == ctx.constants
    requires forall r :: r in after ==> r !in ctx.realName && r !in ctx.noLayout && NeededFrom(ctx, nodes, a + |p|, r)
    requires InputsOf(ctx, p) * ctx.known <= live.Keys
    ensures var sig := SignatureOf(ctx, p, skip, after);
            var e := RunPart(ctx, eval, p, Restrict(live, sig.inputs) + Restrict(consts, sig.constants));
            && sig.inputs <= live.Keys && sig.constants <= consts.Keys
            && e.Some? && sig.outputs <= e.value.Keys && AgreesAt(ctx, nodes, a + |p|, e.value, full)
  {
    hide WellFormed, LastUseSound, Kernel, Solves, Outs, Freed, RunPart, NeededFrom, Feeds, AgreesAt, InputsOf, SignatureOf, Buffers;
    var sig := SignatureOf(ctx, p, skip, after);
    var env := Restrict(live, sig.inputs) + Restrict(consts, sig.constants);
    SignatureIs(inputs, ctx, nodes, a, p, skip, after);
    FedByInputs(inputs, ctx, nodes, a, p, env);
    CalledAgrees(inputs, ctx, nodes, a, live, consts, sig.inputs, sig.constants, full);
    PartRuns(eval, inputs, ctx, nodes, full, a, p, env, |p|);
    assert p[..|p|] == p;
    forall r | r in after ensures r !in Freed(p) {
      NeededIsNotFreed(ctx, nodes, a, p, r);
    }
    InBuffers(ctx, Outs(p), after);
  }

  lemma InBuffers(ctx: Context, outs: set<Name>, after: set<Name>)
    requires forall r :: r in after ==> r !in ctx.realName && r !in ctx.noLayout
    ensures outs * after <= Buffers(ctx, outs - ctx.noLayout)
  {
    forall r | r in outs * after ensures r in Buffers(ctx, outs - ctx.noLayout) {
      assert r in outs - ctx.noLayout && Real(ctx, r) == r;
    }
  }

  lemma CalledAgrees<V>(inputs: set<Name>, ctx: Context, nodes: seq<Node>, a: nat, live: map<Name, V>, consts: map<Name, V>,
                        ins: set<Name>, cs: set<Name>, full: map<Name, V>)
    requires WellFormed(inputs, ctx, nodes) && a <= |nodes| && AgreesAt(ctx, nodes, a, live, full)
    requires Agrees(consts, full) && consts.Keys == ctx.constants
    ensures AgreesAt(ctx, nodes, a, Restrict(live, ins) + Restrict(consts, cs), full)
  {
    forall c | c in ctx.constants ensures Current(ctx, nodes, a, c) == c && c !in ctx.realName && c !in ctx.noLayout {
      ConstantIsCurrent(inputs, ctx, nodes, a, c);
    }
  }

  /** A buffer that the partition neither creates nor takes keeps its version. */
  lemma {:induction false} VersionKept(inputs: set<Name>, ctx: Context, nodes: seq<Node>, a: nat, p: seq<Node>, r: Name, k: nat)
    requires WellFormed(inputs, ctx, nodes) && At(nodes, a, p) && k <= |p|
    requires r !in ctx.realName && r !in ctx.noLayout && r !in Outs(p) && r !in InputsOf(ctx, p)
    ensures Current(ctx, nodes, a + k, r) == Current(ctx, nodes, a, r)
    decreases k
  {
    hide WellFormed, Outs, InputsOf, At;
    if k > 0 {
      VersionKept(inputs, ctx, nodes, a, p, r, k - 1);
      NodeAt(nodes, a, p, k - 1);
      forall o | o in nodes[a + k - 1].outputs ensures Real(ctx, o) != r {
        UpdatedIsInput(inputs, ctx, nodes, a, p, k - 1, o);
      }
    }
  }

  /** A buffer updated by a partition that does not create it is one of its inputs. */
  lemma UpdatedIsInput(inputs: set<Name>, ctx: Context, nodes: seq<Node>, a: nat, p: seq<Node>, i: nat, o: Name)
    requires WellFormed(inputs, ctx, nodes) && At(nodes, a, p) && i < |p| && o in p[i].outputs
    ensures Real(ctx, o) in ctx.noLayout || Real(ctx, o) in Outs(p) || Real(ctx, o) in InputsOf(ctx, p)
  {
    hide WellFormed, Outs, InputsOf;
    NodeAt(nodes, a, p, i);
    RealIsBuffer(inputs, ctx, nodes, o);
    InOuts(p, o);
    if Real(ctx, o) !in ctx.noLayout && Real(ctx, o) !in Outs(p) {
      UpdateFacts(inputs, ctx, nodes, a + i, o);
      var u :| u in p[i].uses && u !in ctx.noLayout && Real(ctx, u) == Real(ctx, o);
      ReadIsInput(inputs, ctx, nodes, a, p, i, u);
    }
  }

  /** After the partition, what is alive has its values, and what the later
      partitions wait for is alive. */
  lemma StillAlive<V>(inputs: set<Name>, ctx: Context, nodes: seq<Node>, a: nat, parts: seq<seq<Node>>, skip: bool,
                      full: map<Name, V>, live: map<Name, V>, e: map<Name, V>)
    requires WellFormed(inputs, ctx, nodes) && LastUseSound(ctx, nodes)
    requires parts != [] && a <= |nodes| && nodes[a..] == Flat(parts) && At(nodes, a, parts[0])
    requires LiveOk(ctx, nodes, a, live, full) && AgreesAt(ctx, nodes, a + |parts[0]|, e, full)
    requires Unmet(ctx, parts) * ctx.known <= live.Keys
    requires SignatureOf(ctx, parts[0], skip, Unmet(ctx, parts[1..])).outputs <= e.Keys
    ensures var sig := SignatureOf(ctx, parts[0], skip, Unmet(ctx, parts[1..]));
            var live' := (live - Deallocated(sig)) + Restrict(e, sig.outputs);
            LiveOk(ctx, nodes, a + |parts[0]|, live', full) && Unmet(ctx, parts[1..]) * ctx.known <= live'.Keys
  {
    hide WellFormed, LastUseSound, Touched, Freed, Outs, SignatureOf, Current, ProducedFrom, NeededFrom, At, Unmet, InputsOf;
    var p, after := parts[0], Unmet(ctx, parts[1..]);
    var sig := SignatureOf(ctx, p, skip, after);
    var live' := (live - Deallocated(sig)) + Restrict(e, sig.outputs);
    AfterIsBuffers(inputs, ctx, nodes, a, parts);
    SignatureIs(inputs, ctx, nodes, a, p, skip, after);
    forall r | r in live' ensures r in ctx.known && !ProducedFrom(nodes, a + |p|, r) {
      if r in sig.outputs && r in Outs(p) {
        ProducedOnce(inputs, ctx, nodes, a, p, r);
        ProducedIsKnown(inputs, ctx, nodes, a, p, r);
      } else {
        if r in sig.outputs {
          InputIsOlder(inputs, ctx, nodes, a, p, r);
        }
        NotProducedHere(nodes, a, p, r);
      }
    }
    forall r | r in live && r !in Deallocated(sig) && r !in sig.outputs
      ensures Current(ctx, nodes, a + |p|, r) == Current(ctx, nodes, a, r)
    {
      NotProducedHere(nodes, a, p, r);
      assert r !in InputsOf(ctx, p);
      VersionKept(inputs, ctx, nodes, a, p, r, |p|);
    }
    forall r | r in after && r in ctx.known
      ensures r !in Freed(p) && (r !in Outs(p) ==> r in live)
    {
      NeededIsNotFreed(ctx, nodes, a, p, r);
      if r !in Outs(p) {
        StaysUnmet(inputs, ctx, nodes, a, parts, r);
      }
    }
  }

  lemma ProducedOnce(inputs: set<Name>, ctx: Context, nodes: seq<Node>, a: nat, p: seq<Node>, n: Name)
    requires WellFormed(inputs, ctx, nodes) && At(nodes, a, p) && n in Outs(p)
    ensures !ProducedFrom(nodes, a + |p|, n)
  {
    InOuts(p, n);
    var i :| 0 <= i < |p| && n in p[i].outputs;
    NodeAt(nodes, a, p, i);
    forall j | a + |p| <= j < |nodes| ensures n !in nodes[j].outputs {
      assert n in nodes[j].outputs ==> a + i == j;
    }
  }

  /** For every well-formed graph with sound last uses, and every way of cutting
      it: running the partitions one by one always finds every needed buffer
      alive, and ends with all graph outputs present, with the values of the
      whole graph. */
  lemma {:induction false} PartitionsRun<V(!new)>(eval: (Node, map<Name, V>) -> map<Name, V>, inputs: set<Name>, ctx: Context,
                                                  nodes: seq<Node>, full: map<Name, V>, a: nat,
                                                  parts: seq<seq<Node>>, skips: seq<bool>,
                                                  consts: map<Name, V>, live: map<Name, V>)
    requires WellFormed(inputs, ctx, nodes) && LastUseSound(ctx, nodes) && Kernel(ctx, eval)
    requires Solves(eval, nodes, full) && full.Keys == inputs + ctx.constants + (Outs(nodes) - ctx.noLayout)
    requires a <= |nodes| && nodes[a..] == Flat(parts) && |parts| == |skips|
    requires LiveOk(ctx, nodes, a, live, full) && Agrees(consts, full) && consts.Keys == ctx.constants
    requires Unmet(ctx, parts) * ctx.known <= live.Keys
    ensures |Signatures(ctx, parts, skips)| == |parts|
    ensures var r := RunParts(ctx, eval, parts, Signatures(ctx, parts, skips), consts, live);
            r.Some? && LiveOk(ctx, nodes, |nodes|, r.value, full) && ctx.outputs * ctx.known <= r.value.Keys
    decreases |parts|
  {
    hide WellFormed, LastUseSound, Kernel, Solves, At, Outs, Touched, Freed, RunPart, NeededFrom, LiveOk, Returned, Inputs;
    if parts == [] {
      assert a == |nodes|;
    } else {
      var p, after := parts[0], Unmet(ctx, parts[1..]);
      var sig := SignatureOf(ctx, p, skips[0], after);
      FirstPart(nodes, a, parts);
      AfterIsBuffers(inputs, ctx, nodes, a, parts);
      OnePartition(eval, inputs, ctx, nodes, full, a, p, skips[0], after, consts, live);
      var e := RunPart(ctx, eval, p, Restrict(live, sig.inputs) + Restrict(consts, sig.constants)).value;
      StillAlive(inputs, ctx, nodes, a, parts, skips[0], full, live, e);
      PartitionsRun(eval, inputs, ctx, nodes, full, a + |p|, parts[1..], skips[1..], consts,
                    (live - Deallocated(sig)) + Restrict(e, sig.outputs));
    }
  }

  /** At the start the graph inputs are alive, and they are all that is waited for. */
  lemma StartIsLive<V>(inputs: set<Name>, ctx: Context, parts: seq<seq<Node>>, env: map<Name, V>, full: map<Name, V>)
    requires WellFormed(inputs, ctx, Flat(parts)) && env.Keys == inputs + ctx.constants && Agrees(env, full)
    ensures LiveOk(ctx, Flat(parts), 0, Restrict(env, inputs), full)
    ensures Unmet(ctx, parts) * ctx.known <= Restrict(env, inputs).Keys
  {
    var nodes := Flat(parts);
    assert nodes[0..] == nodes;
    forall r | r in inputs ensures r in ctx.known && !ProducedFrom(nodes, 0, r) {
      OlderIsNotProduced(inputs, ctx, nodes, 0, [], r);
    }
    forall n | n in Unmet(ctx, parts) && n in ctx.known ensures n in inputs {
      UnmetIsOlder(inputs, ctx, nodes, 0, parts, n);
      OldestIsInput(inputs, ctx, nodes, n);
    }
  }

  lemma OldestIsInput(inputs: set<Name>, ctx: Context, nodes: seq<Node>, n: Name)
    requires WellFormed(inputs, ctx, nodes) && n in ctx.known && !ProducedFrom(nodes, 0, n)
    ensures n in inputs
  {
  }

  /** The graph output o, computed by the whole graph on its names: the last
      version of the buffer. */
  ghost function Wanted<V>(eval: (Node, map<Name, V>) -> map<Name, V>, ctx: Context, nodes: seq<Node>, env: map<Name, V>, o: Name): Option<V> {
    var full, v := Whole(eval, nodes, env), Current(ctx, nodes, |nodes|, o);
    if v in full then Some(full[v]) else None
  }

  /** The main result: for every well-formed graph, in-place updates included,
      every cut of it into partitions and every input, the pass succeeds, the
      partitioned run never misses a buffer, and it delivers the graph's outputs
      with the values of the uncut graph. */
  lemma PartitionsKeepMeaning<V(!new)>(eval: (Node, map<Name, V>) -> map<Name, V>, inputs: set<Name>, ctx: Context,
                                       parts: seq<seq<Node>>, skips: seq<bool>, env: map<Name, V>)
    requires WellFormed(inputs, ctx, Flat(parts)) && LastUseSound(ctx, Flat(parts)) && Kernel(ctx, eval)
    requires |parts| == |skips| && env.Keys == inputs + ctx.constants
    ensures Resolvable(ctx, parts) && |Signatures(ctx, parts, skips)| == |parts|
    ensures var r := RunParts(ctx, eval, parts, Signatures(ctx, parts, skips), Restrict(env, ctx.constants), Restrict(env, inputs));
            && r.Some?
            && forall o :: o in ctx.outputs && o !in ctx.constants ==>
                 o in r.value && Some(r.value[o]) == Wanted(eval, ctx, Flat(parts), env, o)
  {
    hide WellFormed, LastUseSound, Kernel, Solves, Outs, Unmet, Flat;
    var nodes := Flat(parts);
    var full := Whole(eval, nodes, env);
    assert nodes[..|nodes|] == nodes && nodes[0..] == nodes;
    WholeSolves(eval, inputs, ctx, nodes, env, |nodes|);
    AlwaysResolvable(inputs, ctx, nodes, 0, parts);
    StartIsLive(inputs, ctx, parts, env, full);
    PartitionsRun(eval, inputs, ctx, nodes, full, 0, parts, skips, Restrict(env, ctx.constants), Restrict(env, inputs));
    forall o | o in ctx.outputs && o !in ctx.constants ensures o in ctx.known {
      OutputFacts(inputs, ctx, nodes, o);
    }
  }

  // ---------- nothing is kept alive for longer than needed ----------

  lemma {:induction false} FindLastUser(ctx: Context, nodes: seq<Node>, i: nat, r: Name) returns (j: nat)
    requires i < |nodes| && UsesBuffer(ctx, nodes[i], r)
    ensures i <= j < |nodes| && LastUser(ctx, nodes, j, r)
    decreases |nodes| - i
  {
    hide UsesBuffer;
    if exists k :: i < k < |nodes| && UsesBuffer(ctx, nodes[k], r) {
      var k :| i < k < |nodes| && UsesBuffer(ctx, nodes[k], r);
      j := FindLastUser(ctx, nodes, k, r);
    } else {
      j := i;
    }
  }

  /** A buffer that a later node reads, or the graph returns, is unmet until it is
      created. */
  lemma {:induction false} NeededIsUnmet(inputs: set<Name>, ctx: Context, nodes: seq<Node>, a: nat, parts: seq<seq<Node>>, r: Name)
    requires WellFormed(inputs, ctx, nodes) && a <= |nodes| && nodes[a..] == Flat(parts)
    requires !ProducedFrom(nodes, a, r)
    requires r in ctx.outputs || exists j :: a <= j < |nodes| && UsesBuffer(ctx, nodes[j], r)
    ensures r in Unmet(ctx, parts)
    decreases |parts|
  {
    hide WellFormed, Touched, Outs, Freed, Inputs, Returned, ProducedFrom, UsesBuffer, At;
    if parts == [] {
      assert a == |nodes|;
    } else {
      var p := parts[0];
      FirstPart(nodes, a, parts);
      NotProducedHere(nodes, a, p, r);
      if i :| 0 <= i < |p| && UsesBuffer(ctx, p[i], r) {
        UsedIsInput(inputs, ctx, nodes, a, p, i, r);
      } else {
        if r !in ctx.outputs {
          var j :| a <= j < |nodes| && UsesBuffer(ctx, nodes[j], r);
          if j < a + |p| {
            NodeAt(nodes, a, p, j - a);
          }
        }
        NeededIsUnmet(inputs, ctx, nodes, a + |p|, parts[1..], r);
        StaysUnmet(inputs, ctx, nodes, a, parts, r);
      }
    }
  }

  lemma UsedIsInput(inputs: set<Name>, ctx: Context, nodes: seq<Node>, a: nat, p: seq<Node>, i: nat, r: Name)
    requires WellFormed(inputs, ctx, nodes) && At(nodes, a, p) && i < |p| && UsesBuffer(ctx, p[i], r) && r !in Outs(p)
    ensures r in InputsOf(ctx, p)
  {
    var u :| u in p[i].uses && u !in ctx.noLayout && Real(ctx, u) == r;
    ReadIsInput(inputs, ctx, nodes, a, p, i, u);
  }

  /** An input that a partition does not free is still waited for afterwards. */
  lemma KeptInputIsUnmet(inputs: set<Name>, ctx: Context, nodes: seq<Node>, a: nat, parts: seq<seq<Node>>, r: Name)
    requires WellFormed(inputs, ctx, nodes) && LastUseExact(ctx, nodes)
    requires parts != [] && a <= |nodes| && nodes[a..] == Flat(parts)
    requires r in InputsOf(ctx, parts[0]) && r in ctx.known && r !in Freed(parts[0])
    ensures r in Unmet(ctx, parts[1..])
  {
    hide WellFormed, LastUseExact, Freed, InputsOf, UsesBuffer, At, ProducedFrom, Unmet;
    var p := parts[0];
    FirstPart(nodes, a, parts);
    InputIsOlder(inputs, ctx, nodes, a, p, r);
    NotProducedHere(nodes, a, p, r);
    var i := InputIsNeeded(inputs, ctx, nodes, a, p, r);
    NodeAt(nodes, a, p, i);
    var j := FindLastUser(ctx, nodes, a + i, r);
    if j < a + |p| {
      LastUserFrees(ctx, nodes, a, p, j, r);
    }
    NeededIsUnmet(inputs, ctx, nodes, a + |p|, parts[1..], r);
  }

  lemma LastUserFrees(ctx: Context, nodes: seq<Node>, a: nat, p: seq<Node>, j: nat, r: Name)
    requires LastUseExact(ctx, nodes) && At(nodes, a, p) && a <= j < a + |p| && r in ctx.known && LastUser(ctx, nodes, j, r)
    ensures r in ctx.outputs || r in Freed(p)
  {
    InFreed(p, r);
    NodeAt(nodes, a, p, j - a);
  }

  /** Buffers that no node needs and the graph does not return. */
  ghost predicate Idle(ctx: Context, nodes: seq<Node>, r: Name) {
    !NeededFrom(ctx, nodes, 0, r)
  }

  /** Exactly the unmet buffers are alive, besides the idle ones. */
  ghost predicate Tight<V>(ctx: Context, nodes: seq<Node>, parts: seq<seq<Node>>, live: map<Name, V>) {
    forall r :: r in live && !Idle(ctx, nodes, r) <==> r in Unmet(ctx, parts) && r in ctx.known
  }

  lemma TightAfter<V>(inputs: set<Name>, ctx: Context, nodes: seq<Node>, a: nat, parts: seq<seq<Node>>, skip: bool,
                      live: map<Name, V>, e: map<Name, V>)
    requires WellFormed(inputs, ctx, nodes) && LastUseExact(ctx, nodes)
    requires parts != [] && a <= |nodes| && nodes[a..] == Flat(parts) && Tight(ctx, nodes, parts, live)
    requires SignatureOf(ctx, parts[0], skip, Unmet(ctx, parts[1..])).outputs <= e.Keys
    ensures var sig := SignatureOf(ctx, parts[0], skip, Unmet(ctx, parts[1..]));
            Tight(ctx, nodes, parts[1..], (live - Deallocated(sig)) + Restrict(e, sig.outputs))
  {
    hide WellFormed, LastUseExact, Touched, Freed, Outs, Inputs, InputsOf, At, Idle, SignatureOf, NeededFrom, Returned;
    var p, after := parts[0], Unmet(ctx, parts[1..]);
    var sig := SignatureOf(ctx, p, skip, after);
    var live' := (live - Deallocated(sig)) + Restrict(e, sig.outputs);
    FirstPart(nodes, a, parts);
    AfterIsBuffers(inputs, ctx, nodes, a, parts);
    SignatureIs(inputs, ctx, nodes, a, p, skip, after);
    forall r ensures r in live' && !Idle(ctx, nodes, r) <==> r in after && r in ctx.known {
      assert r in live && !Idle(ctx, nodes, r) <==> r in Unmet(ctx, parts) && r in ctx.known;
      if r in Unmet(ctx, parts) {
        UnmetStep(ctx, parts, r);
      }
      if r in InputsOf(ctx, p) {
        InputIsNotIdle(inputs, ctx, nodes, a, p, r);
        if r in ctx.known && r !in Freed(p) {
          KeptInputIsUnmet(inputs, ctx, nodes, a, parts, r);
        }
      }
      if r in after {
        AfterIsNotFreed(ctx, nodes, a, p, r);
        if r !in Outs(p) {
          StaysUnmet(inputs, ctx, nodes, a, parts, r);
        }
      }
      if r in Outs(p) {
        ProducedIsKnown(inputs, ctx, nodes, a, p, r);
      }
    }
  }

  lemma UnmetStep(ctx: Context, parts: seq<seq<Node>>, r: Name)
    requires parts != [] && r in Unmet(ctx, parts)
    ensures r in InputsOf(ctx, parts[0]) || r in Unmet(ctx, parts[1..])
  {
  }

  lemma InputIsNotIdle(inputs: set<Name>, ctx: Context, nodes: seq<Node>, a: nat, p: seq<Node>, r: Name)
    requires WellFormed(inputs, ctx, nodes) && At(nodes, a, p) && r in InputsOf(ctx, p)
    ensures !Idle(ctx, nodes, r)
  {
    hide WellFormed, InputsOf, NeededFrom, Needs;
    var i := InputIsNeeded(inputs, ctx, nodes, a, p, r);
    NodeAt(nodes, a, p, i);
    NeededAt(ctx, nodes, 0, a + i, r);
  }

  lemma AfterIsNotFreed(ctx: Context, nodes: seq<Node>, a: nat, p: seq<Node>, r: Name)
    requires LastUseExact(ctx, nodes) && At(nodes, a, p) && NeededFrom(ctx, nodes, a + |p|, r)
    ensures r !in Freed(p) && !Idle(ctx, nodes, r)
  {
    hide NeededFrom, LastUseExact;
    ExactIsSound(ctx, nodes);
    NeededIsNotFreed(ctx, nodes, a, p, r);
    NeededLater(ctx, nodes, 0, a + |p|, r);
  }

  /** With exact last uses the partitioned run leaks nothing: between any two
      partitions exactly the buffers still waited for are alive, and at the end
      exactly the graph outputs, besides buffers that nothing ever needed. */
  lemma {:induction false} PartitionsLeakNothing<V(!new)>(
      eval: (Node, map<Name, V>) -> map<Name, V>, inputs: set<Name>, ctx: Context, nodes: seq<Node>, full: map<Name, V>,
      a: nat, parts: seq<seq<Node>>, skips: seq<bool>, consts: map<Name, V>, live: map<Name, V>)
    requires WellFormed(inputs, ctx, nodes) && LastUseExact(ctx, nodes) && Kernel(ctx, eval)
    requires Solves(eval, nodes, full) && full.Keys == inputs + ctx.constants + (Outs(nodes) - ctx.noLayout)
    requires a <= |nodes| && nodes[a..] == Flat(parts) && |parts| == |skips|
    requires LiveOk(ctx, nodes, a, live, full) && Agrees(consts, full) && consts.Keys == ctx.constants
    requires Unmet(ctx, parts) * ctx.known <= live.Keys && Tight(ctx, nodes, parts, live)
    ensures |Signatures(ctx, parts, skips)| == |parts|
    ensures var r := RunParts(ctx, eval, parts, Signatures(ctx, parts, skips), consts, live);
            r.Some? && Tight(ctx, nodes, [], r.value)
    decreases |parts|
  {
    hide WellFormed, LastUseExact, Kernel, Solves, At, Outs, Touched, Freed, RunPart, NeededFrom, LiveOk, Returned, Inputs, Tight, Idle;
    if parts != [] {
      var p, after := parts[0], Unmet(ctx, parts[1..]);
      var sig := SignatureOf(ctx, p, skips[0], after);
      FirstPart(nodes, a, parts);
      ExactIsSound(ctx, nodes);
      AfterIsBuffers(inputs, ctx, nodes, a, parts);
      OnePartition(eval, inputs, ctx, nodes, full, a, p, skips[0], after, consts, live);
      var e := RunPart(ctx, eval, p, Restrict(live, sig.inputs) + Restrict(consts, sig.constants)).value;
      StillAlive(inputs, ctx, nodes, a, parts, skips[0], full, live, e);
      TightAfter(inputs, ctx, nodes, a, parts, skips[0], live, e);
      PartitionsLeakNothing(eval, inputs, ctx, nodes, full, a + |p|, parts[1..], skips[1..], consts,
                            (live - Deallocated(sig)) + Restrict(e, sig.outputs));
    }
  }

  lemma ExactIsSound(ctx: Context, nodes: seq<Node>)
    requires LastUseExact(ctx, nodes)
    ensures LastUseSound(ctx, nodes)
  {
  }

  /** At the start, with just the graph inputs alive, the liveness is exact. */
  lemma StartIsTight<V>(inputs: set<Name>, ctx: Context, parts: seq<seq<Node>>, live: map<Name, V>)
    requires WellFormed(inputs, ctx, Flat(parts)) && LastUseExact(ctx, Flat(parts)) && live.Keys == inputs
    requires Unmet(ctx, parts) * ctx.known <= inputs
    ensures Tight(ctx, Flat(parts), parts, live)
  {
    hide WellFormed, LastUseExact, Unmet, Flat;
    var nodes := Flat(parts);
    assert nodes[0..] == nodes;
    forall r ensures r in live && !Idle(ctx, nodes, r) <==> r in Unmet(ctx, parts) && r in ctx.known {
      if r in Unmet(ctx, parts) && r in ctx.known {
        UnmetIsNeeded(inputs, ctx, nodes, 0, parts, r);
      }
      if r in live && !Idle(ctx, nodes, r) {
        OlderIsNotProduced(inputs, ctx, nodes, 0, [], r);
        NeededIsUsed(inputs, ctx, nodes, r);
        NeededIsUnmet(inputs, ctx, nodes, 0, parts, r);
        InputIsKnown(inputs, ctx, nodes, r);
      }
    }
  }

  lemma InputIsKnown(inputs: set<Name>, ctx: Context, nodes: seq<Node>, r: Name)
    requires WellFormed(inputs, ctx, nodes) && r in inputs
    ensures r in ctx.known
  {
  }

  lemma NeededIsUsed(inputs: set<Name>, ctx: Context, nodes: seq<Node>, r: Name)
    requires LastUseExact(ctx, nodes) && NeededFrom(ctx, nodes, 0, r) && !ProducedFrom(nodes, 0, r)
    ensures r in ctx.outputs || exists j :: 0 <= j < |nodes| && UsesBuffer(ctx, nodes[j], r)
  {
    hide UsesBuffer;
    if r !in ctx.outputs {
      var j :| 0 <= j < |nodes| && Needs(ctx, nodes[j], r);
      assert UsesBuffer(ctx, nodes[j], r);
    }
  }

  /** The partitioned run from the graph inputs ends with the graph outputs and
      nothing else but buffers that no node ever needed. */
  lemma OnlyOutputsRemain<V(!new)>(eval: (Node, map<Name, V>) -> map<Name, V>, inputs: set<Name>, ctx: Context,
                                   parts: seq<seq<Node>>, skips: seq<bool>, env: map<Name, V>)
    requires WellFormed(inputs, ctx, Flat(parts)) && LastUseExact(ctx, Flat(parts)) && Kernel(ctx, eval)
    requires |parts| == |skips| && env.Keys == inputs + ctx.constants
    ensures |Signatures(ctx, parts, skips)| == |parts|
    ensures var r := RunParts(ctx, eval, parts, Signatures(ctx, parts, skips), Restrict(env, ctx.constants), Restrict(env, inputs));
            r.Some? && forall n :: n in r.value && !Idle(ctx, Flat(parts), n) <==> n in ctx.outputs && n in ctx.known
  {
    hide WellFormed, LastUseExact, Kernel, Solves, Outs, Flat, Idle, LiveOk;
    var nodes := Flat(parts);
    assert nodes[..|nodes|] == nodes && nodes[0..] == nodes;
    WholeSolves(eval, inputs, ctx, nodes, env, |nodes|);
    StartIsLive(inputs, ctx, parts, env, Whole(eval, nodes, env));
    StartIsTight(inputs, ctx, parts, Restrict(env, inputs));
    PartitionsLeakNothing(eval, inputs, ctx, nodes, Whole(eval, nodes, env), 0, parts, skips,
                          Restrict(env, ctx.constants), Restrict(env, inputs));
  }

  // ---------- a graph with an update across a cut ----------

  /** x is read into b, b is updated in place as c, and d is computed from c. */
  ghost function UpdateGraph(x: Name, b: Name, c: Name, d: Name): seq<Node> {
    [Node({b}, {x}, {b}, {x}), Node({c}, {b}, {c}, {}), Node({d}, {c}, {d}, {b})]
  }

  ghost function UpdateContext(x: Name, b: Name, c: Name, d: Name): Context {
    Context({d}, {x, b, c, d}, {}, map[c := b], {})
  }

  ghost predicate Apart(x: Name, b: Name, c: Name, d: Name) {
    x != b && x != c && x != d && b != c && b != d && c != d
  }

  lemma UpdateNames(x: Name, b: Name, c: Name, d: Name)
    requires Apart(x, b, c, d)
    ensures var ctx := UpdateContext(x, b, c, d);
            Real(ctx, x) == x && Real(ctx, b) == b && Real(ctx, c) == b && Real(ctx, d) == d
    ensures var nodes, ctx := UpdateGraph(x, b, c, d), UpdateContext(x, b, c, d);
            Current(ctx, nodes, 0, x) == x && Current(ctx, nodes, 1, b) == b && Current(ctx, nodes, 2, b) == c
  {
    var nodes, ctx := UpdateGraph(x, b, c, d), UpdateContext(x, b, c, d);
    assert b in nodes[0].outputs && Real(ctx, b) == b;
    assert c in nodes[1].outputs && Real(ctx, c) == b;
  }

  lemma UpdateNodes(x: Name, b: Name, c: Name, d: Name)
    requires Apart(x, b, c, d)
    ensures var nodes, ctx := UpdateGraph(x, b, c, d), UpdateContext(x, b, c, d);
            && UseOk({x}, ctx, nodes, 0, x) && OutputOk({x}, ctx, nodes, 0, b) && LastOk({x}, ctx, nodes, 0, x)
            && UseOk({x}, ctx, nodes, 1, b) && OutputOk({x}, ctx, nodes, 1, c)
            && UseOk({x}, ctx, nodes, 2, c) && OutputOk({x}, ctx, nodes, 2, d) && LastOk({x}, ctx, nodes, 2, b)
  {
    hide Current, NewVersion;
    var nodes := UpdateGraph(x, b, c, d);
    UpdateNames(x, b, c, d);
    assert b in nodes[0].outputs && c in nodes[1].outputs && d in nodes[2].outputs;
  }

  /** It meets the conditions of the theorems. */
  lemma UpdateIsWellFormed(x: Name, b: Name, c: Name, d: Name)
    requires Apart(x, b, c, d)
    ensures WellFormed({x}, UpdateContext(x, b, c, d), UpdateGraph(x, b, c, d))
  {
    hide Current, UseOk, OutputOk, LastOk;
    var nodes := UpdateGraph(x, b, c, d);
    UpdateNames(x, b, c, d);
    UpdateNodes(x, b, c, d);
    assert b in nodes[0].outputs && c in nodes[1].outputs && d in nodes[2].outputs;
  }

  lemma UpdateUses(x: Name, b: Name, c: Name, d: Name, r: Name)
    requires Apart(x, b, c, d)
    ensures var nodes, ctx := UpdateGraph(x, b, c, d), UpdateContext(x, b, c, d);
            && (UsesBuffer(ctx, nodes[0], r) <==> r == x) && (UsesBuffer(ctx, nodes[1], r) <==> r == b)
            && (UsesBuffer(ctx, nodes[2], r) <==> r == b)
  {
    var nodes := UpdateGraph(x, b, c, d);
    UpdateNames(x, b, c, d);
    assert x in nodes[0].uses && b in nodes[1].uses && c in nodes[2].uses;
  }

  lemma UpdateLastUses(x: Name, b: Name, c: Name, d: Name)
    requires Apart(x, b, c, d)
    ensures LastUseExact(UpdateContext(x, b, c, d), UpdateGraph(x, b, c, d))
  {
    hide UsesBuffer;
    var nodes, ctx := UpdateGraph(x, b, c, d), UpdateContext(x, b, c, d);
    UpdateUses(x, b, c, d, x);
    UpdateUses(x, b, c, d, b);
    assert LastUseSound(ctx, nodes) by {
      assert !Needs(ctx, nodes[1], x) && !Needs(ctx, nodes[2], x);
    }
    forall i, r | 0 <= i < |nodes| && r in ctx.known && r !in ctx.outputs && LastUser(ctx, nodes, i, r)
      ensures r in nodes[i].lastUsage
    {
      UpdateUses(x, b, c, d, r);
    }
  }

  /** Cut before and after the update: what is waited for after it is the buffer b,
      not the name c, and the partition of the update takes b and hands it on. */
  lemma UpdateIsHandedOn(x: Name, b: Name, c: Name, d: Name)
    requires Apart(x, b, c, d)
    ensures var nodes, ctx := UpdateGraph(x, b, c, d), UpdateContext(x, b, c, d);
            var after := Unmet(ctx, [[nodes[2]]]);
            after == {b} && SignatureOf(ctx, [nodes[1]], false, after) == Signature({b}, {b}, map[b := false], false, {})
  {
    var nodes, ctx := UpdateGraph(x, b, c, d), UpdateContext(x, b, c, d);
    OfOne(nodes[1]);
    OfOne(nodes[2]);
    UpdateInputs(x, b, c, d);
    UnmetOfOne(ctx, nodes[2]);
  }

  lemma UnmetOfOne(ctx: Context, node: Node)
    ensures var inputs := Inputs(ctx, Touched([node]), Outs([node]), Freed([node]));
            Unmet(ctx, [[node]]) == inputs + (ctx.outputs - Returned(ctx, inputs, Outs([node]), Freed([node]), ctx.outputs))
  {
    assert [[node]][1..] == [];
  }

  lemma UpdateInputs(x: Name, b: Name, c: Name, d: Name)
    requires Apart(x, b, c, d)
    ensures var ctx := UpdateContext(x, b, c, d);
            && Inputs(ctx, {c} + {d}, {d}, {b}) == {b} && Returned(ctx, {b}, {d}, {b}, {d}) == {d}
            && Inputs(ctx, {b} + {c}, {c}, {}) == {b} && Returned(ctx, {b}, {c}, {}, {b}) == {b}
  {
    UpdateNames(x, b, c, d);
  }

  lemma OfOne(node: Node)
    ensures Outs([node]) == node.outputs && Touched([node]) == node.uses + node.writes && Freed([node]) == node.lastUsage
  {
    assert [node][..0] == [];
  }
}
