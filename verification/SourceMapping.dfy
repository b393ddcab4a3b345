/** Span validation and relocation (crates/etas_syntax/src/source_mapping.rs, relocated_body.rs). */
module SourceMapping {
  import opened Prelude
  import opened RetainedBody

  /** A syntax node as the span walk sees it: perhaps a span, and children. */
  datatype Node = Node(span: Option<Span>, children: seq<Node>)

  const MaxBodyParseRecursion: nat := 64

  datatype RelocationLimits = RelocationLimits(maxSourceBytes: nat, maxNodes: nat, maxDepth: nat)

  datatype RelocationResource = RelocatedBytes | AstNodes | Nesting

  datatype RelocationError = InvalidSpan | ResourceLimit(resource: RelocationResource, limit: nat)

  function DepthLimit(limits: RelocationLimits): nat
  {
    if limits.maxDepth < MaxBodyParseRecursion then limits.maxDepth else MaxBodyParseRecursion
  }

  // ----- What validation is for. -----

  function Count(n: Node): nat
  {
    1 + CountAll(n.children)
  }

  function CountAll(ns: seq<Node>): (r: nat)
    ensures r >= |ns|
  {
    if ns == [] then 0 else Count(ns[0]) + CountAll(ns[1..])
  }

  predicate SpanOk(s: Option<Span>, source: nat, bytes: nat)
  {
    s.Some? ==> s.value.source == source && s.value.start <= s.value.end <= bytes
  }

  predicate NodeOk(n: Node, source: nat, bytes: nat)
  {
    SpanOk(n.span, source, bytes) && SpansOk(n.children, source, bytes)
  }

  predicate SpansOk(ns: seq<Node>, source: nat, bytes: nat)
  {
    ns == [] || (NodeOk(ns[0], source, bytes) && SpansOk(ns[1..], source, bytes))
  }

  /** Every node of the forest, whose roots are at depth `d`, is at depth at most `max`. */
  predicate DepthOk(ns: seq<Node>, d: nat, max: nat)
  {
    ns == [] || (d <= max && DepthOk(ns[0].children, d + 1, max) && DepthOk(ns[1..], d, max))
  }

  predicate Acceptable(roots: seq<Node>, source: nat, bytes: nat, limits: RelocationLimits)
  {
    SpansOk(roots, source, bytes) && CountAll(roots) <= limits.maxNodes && DepthOk(roots, 0, DepthLimit(limits))
  }

  lemma {:induction false} CountAllAppend(a: seq<Node>, b: seq<Node>)
    ensures CountAll(a + b) == CountAll(a) + CountAll(b)
  {
    if a == [] {
      assert a + b == b;
    } else {
      assert (a + b)[1..] == a[1..] + b;
      CountAllAppend(a[1..], b);
    }
  }

  lemma {:induction false} VerdictsAppend(a: seq<Node>, b: seq<Node>, source: nat, bytes: nat, d: nat, max: nat)
    ensures SpansOk(a + b, source, bytes) <==> SpansOk(a, source, bytes) && SpansOk(b, source, bytes)
    ensures DepthOk(a + b, d, max) <==> DepthOk(a, d, max) && DepthOk(b, d, max)
  {
    if a == [] {
      assert a + b == b;
    } else {
      assert (a + b)[1..] == a[1..] + b;
      VerdictsAppend(a[1..], b, source, bytes, d, max);
    }
  }

  // ----- The worklist. -----

  datatype Pending = Pending(node: Node, depth: nat)

  function Items(ns: seq<Node>, d: nat): (r: seq<Pending>)
    ensures |r| == |ns| && forall i :: 0 <= i < |ns| ==> r[i] == Pending(ns[i], d)
  {
    seq(|ns|, i requires 0 <= i < |ns| => Pending(ns[i], d))
  }

  /** The nodes below the pending ones, not pushed yet. */
  function Unpushed(ps: seq<Pending>): nat
  {
    if ps == [] then 0 else Unpushed(Rest(ps)) + CountAll(Top(ps).node.children)
  }

  predicate PendingSpans(ps: seq<Pending>, source: nat, bytes: nat)
  {
    ps == [] || (PendingSpans(Rest(ps), source, bytes) && NodeOk(Top(ps).node, source, bytes))
  }

  predicate PendingDepth(ps: seq<Pending>, max: nat)
  {
    ps == [] || (PendingDepth(Rest(ps), max) && DepthOk(Top(ps).node.children, Top(ps).depth + 1, max))
  }

  lemma {:induction false} UnpushedItems(ps: seq<Pending>, ns: seq<Node>, d: nat)
    ensures Unpushed(ps + Items(ns, d)) + |ns| == Unpushed(ps) + CountAll(ns)
    decreases |ns|
  {
    if ns == [] {
      assert ps + Items(ns, d) == ps;
    } else {
      var rest, last := Rest(ns), Top(ns);
      var all := ps + Items(ns, d);
      assert Rest(all) == ps + Items(rest, d) && Top(all) == Pending(last, d);
      UnpushedItems(ps, rest, d);
      CountAllAppend(rest, [last]);
      assert CountAll([last]) == Count(last) + CountAll([]);
    }
  }

  /** No failure yet: what was pushed and what lies below it is the whole forest, and its verdict is open. */
  ghost predicate OnTrack(w: SpanWork, roots: seq<Node>, source: nat, bytes: nat)
    reads w
  {
    && w.nodes <= w.limits.maxNodes
    && w.nodes + Unpushed(w.pending) == CountAll(roots)
    && (SpansOk(roots, source, bytes) <==> PendingSpans(w.pending, source, bytes))
    && (DepthOk(roots, 0, DepthLimit(w.limits)) <==> PendingDepth(w.pending, DepthLimit(w.limits)))
  }

  /** Why one more node at this depth is refused, if it is. */
  function PushFailure(nodes: nat, depth: nat, limits: RelocationLimits): Option<(RelocationResource, nat)>
  {
    if nodes >= limits.maxNodes then Some((AstNodes, limits.maxNodes))
    else if depth > DepthLimit(limits) then Some((Nesting, DepthLimit(limits)))
    else None
  }

  class SpanWork {
    const limits: RelocationLimits
    var pending: seq<Pending>
    var nextDepth: nat
    var nodes: nat
    var failure: Option<(RelocationResource, nat)>

    constructor (limits: RelocationLimits)
      ensures this.limits == limits && pending == [] && nextDepth == 0 && nodes == 0 && failure == None
    {
      this.limits := limits;
      pending, nextDepth, nodes, failure := [], 0, 0, None;
    }

    method Push(node: Node) returns (ok: bool)
      modifies this`pending, this`nodes, this`failure
      ensures ok <==> failure.None?
      ensures old(failure).Some? ==> failure == old(failure) && pending == old(pending) && nodes == old(nodes)
      ensures old(failure).None? ==> failure == PushFailure(old(nodes), nextDepth, limits)
      ensures if ok then nodes == old(nodes) + 1 && pending == old(pending) + [Pending(node, nextDepth)]
              else nodes == old(nodes) && pending == old(pending)
    {
      if failure.Some? {
        return false;
      }
      var maxDepth := DepthLimit(limits);
      if nodes >= limits.maxNodes {
        failure := Some((AstNodes, limits.maxNodes));
      } else if nextDepth > maxDepth {
        failure := Some((Nesting, maxDepth));
      } else {
        nodes := nodes + 1;
        pending := pending + [Pending(node, nextDepth)];
      }
      return failure.None?;
    }

    /** Pushes the children of a node, up to the first failure. */
    method PushAll(ns: seq<Node>)
      requires nodes <= limits.maxNodes
      modifies this`pending, this`nodes, this`failure
      ensures old(failure).Some? ==> failure == old(failure)
      ensures nodes <= limits.maxNodes && forall p :: p in pending ==> p in old(pending) || p.node in ns
      ensures failure.None? ==> pending == old(pending) + Items(ns, nextDepth) && nodes == old(nodes) + |ns|
      ensures failure.None? && ns != [] ==> nextDepth <= DepthLimit(limits)
      ensures old(failure).None? && failure.Some? ==>
                || (failure.value == (AstNodes, limits.maxNodes) && old(nodes) + |ns| > limits.maxNodes)
                || (failure.value == (Nesting, DepthLimit(limits)) && ns != [] && nextDepth > DepthLimit(limits))
    {
      if failure.Some? {
        return;
      }
      for i := 0 to |ns|
        invariant failure.None? && pending == old(pending) + Items(ns[..i], nextDepth) && nodes == old(nodes) + i <= limits.maxNodes
        invariant i > 0 ==> nextDepth <= DepthLimit(limits)
      {
        var ok := Push(ns[i]);
        if !ok {
          return;
        }
        assert Items(ns[..i + 1], nextDepth) == Items(ns[..i], nextDepth) + [Pending(ns[i], nextDepth)];
      }
      assert ns[..|ns|] == ns;
    }
  }

  lemma {:induction false} ItemsVerdicts(ps: seq<Pending>, ns: seq<Node>, d: nat, source: nat, bytes: nat, max: nat)
    requires ns != [] ==> d <= max
    ensures PendingSpans(ps + Items(ns, d), source, bytes) <==> PendingSpans(ps, source, bytes) && SpansOk(ns, source, bytes)
    ensures PendingDepth(ps + Items(ns, d), max) <==> PendingDepth(ps, max) && DepthOk(ns, d, max)
    decreases |ns|
  {
    if ns == [] {
      assert ps + Items(ns, d) == ps;
    } else {
      var rest, last := Rest(ns), Top(ns);
      ItemsPushed(ps, ns, d);
      ItemsVerdicts(ps, rest, d, source, bytes, max);
      VerdictsAppend(rest, [last], source, bytes, d, max);
      OneVerdict(last, source, bytes, d, max);
    }
  }

  lemma ItemsPushed(ps: seq<Pending>, ns: seq<Node>, d: nat)
    requires ns != []
    ensures var all := ps + Items(ns, d); Rest(all) == ps + Items(Rest(ns), d) && Top(all) == Pending(Top(ns), d)
  {
  }

  lemma OneVerdict(n: Node, source: nat, bytes: nat, d: nat, max: nat)
    requires d <= max
    ensures SpansOk([n], source, bytes) <==> NodeOk(n, source, bytes)
    ensures DepthOk([n], d, max) <==> DepthOk(n.children, d + 1, max)
  {
  }

  /** A pending root of a forest whose spans are in order is in order itself. */
  lemma {:induction false} RootOk(roots: seq<Node>, n: Node, source: nat, bytes: nat)
    requires n in roots && SpansOk(roots, source, bytes)
    ensures NodeOk(n, source, bytes)
  {
    if n != roots[0] {
      RootOk(roots[1..], n, source, bytes);
    }
  }

  /** The failure names a limit the forest does exceed. */
  predicate Condemns(failure: (RelocationResource, nat), roots: seq<Node>, limits: RelocationLimits)
  {
    || (failure == (AstNodes, limits.maxNodes) && CountAll(roots) > limits.maxNodes)
    || (failure == (Nesting, DepthLimit(limits)) && !DepthOk(roots, 0, DepthLimit(limits)))
  }

  /** Pushing the children of the popped node keeps the walk on track or condemns the forest. */
  method Descend(w: SpanWork, p: Pending, ghost before: seq<Pending>, roots: seq<Node>, source: nat, bytes: nat)
    requires before != [] && p == Top(before) && w.pending == Rest(before) && w.failure.None?
    requires w.nodes <= w.limits.maxNodes && w.nodes + Unpushed(before) == CountAll(roots)
    requires SpansOk(roots, source, bytes) <==> PendingSpans(before, source, bytes)
    requires DepthOk(roots, 0, DepthLimit(w.limits)) <==> PendingDepth(before, DepthLimit(w.limits))
    requires SpanOk(p.node.span, source, bytes)
    modifies w
    ensures w.failure.None? ==> OnTrack(w, roots, source, bytes) && Unpushed(w.pending) + |w.pending| < Unpushed(before) + |before|
    ensures w.failure.Some? ==> Condemns(w.failure.value, roots, w.limits)
  {
    var children, d := p.node.children, p.depth + 1;
    ghost var rest := w.pending;
    UnpushedItems(rest, children, d);
    w.nextDepth := d;
    w.PushAll(children);
    if w.failure.None? {
      ItemsVerdicts(rest, children, d, source, bytes, DepthLimit(w.limits));
    }
  }

  /** The walk is on track, or it has failed on the roots already and the forest is condemned. */
  ghost predicate Walking(w: SpanWork, roots: seq<Node>, source: nat, bytes: nat)
    reads w
  {
    && (w.failure.None? ==> OnTrack(w, roots, source, bytes))
    && (w.failure.Some? ==> Condemns(w.failure.value, roots, w.limits) && forall p :: p in w.pending ==> p.node in roots)
  }

  method PushRoots(roots: seq<Node>, source: nat, bytes: nat, limits: RelocationLimits) returns (work: SpanWork)
    ensures fresh(work) && work.limits == limits && Walking(work, roots, source, bytes)
  {
    work := new SpanWork(limits);
    work.PushAll(roots);
    assert [] + Items(roots, 0) == Items(roots, 0);
    UnpushedItems([], roots, 0);
    ItemsVerdicts([], roots, 0, source, bytes, DepthLimit(limits));
  }

  /** The popped node, and whether its span is in order. */
  lemma PoppedSpan(w: SpanWork, roots: seq<Node>, source: nat, bytes: nat)
    requires Walking(w, roots, source, bytes) && w.pending != []
    ensures SpansOk(roots, source, bytes) ==> SpanOk(Top(w.pending).node.span, source, bytes)
  {
    if SpansOk(roots, source, bytes) && w.failure.Some? {
      assert Top(w.pending) in w.pending;
      RootOk(roots, Top(w.pending).node, source, bytes);
    }
  }

  /** A finished walk without failure decides for the forest. */
  lemma WalkedAll(w: SpanWork, roots: seq<Node>, source: nat, bytes: nat)
    requires Walking(w, roots, source, bytes) && w.pending == [] && w.failure.None?
    ensures Acceptable(roots, source, bytes, w.limits)
  {
  }

  /**
   * Validation accepts exactly the forests whose spans are all in the source and in range, whose
   * joint node count is within the limit and whose depth is at most min(max_depth, 64).
   */
  method Validate(roots: seq<Node>, source: nat, bytes: nat, limits: RelocationLimits) returns (r: Result<(), RelocationError>)
    ensures r.Ok? <==> Acceptable(roots, source, bytes, limits)
    ensures r == Err(InvalidSpan) ==> !SpansOk(roots, source, bytes)
    ensures r.Err? && r.error.ResourceLimit? ==> Condemns((r.error.resource, r.error.limit), roots, limits)
  {
    var work := PushRoots(roots, source, bytes, limits);
    while work.pending != []
      invariant work.limits == limits && Walking(work, roots, source, bytes)
      decreases Unpushed(work.pending) + |work.pending|
    {
      var p := Top(work.pending);
      ghost var before := work.pending;
      PoppedSpan(work, roots, source, bytes);
      if !SpanOk(p.node.span, source, bytes) {
        return Err(InvalidSpan);
      }
      work.pending := Rest(work.pending);
      if work.failure.None? {
        Descend(work, p, before, roots, source, bytes);
      }
      if work.failure.Some? {
        return Err(ResourceLimit(work.failure.value.0, work.failure.value.1));
      }
    }
    if work.failure.Some? {
      return Err(ResourceLimit(work.failure.value.0, work.failure.value.1));
    }
    WalkedAll(work, roots, source, bytes);
    return Ok(());
  }

  // ----- Relocation. -----

  function Moved(s: Option<Span>, id: nat): Option<Span>
  {
    if s.Some? then Some(s.value.(source := id)) else None
  }

  function Relocated(n: Node, id: nat): Node
  {
    Node(Moved(n.span, id), RelocatedAll(n.children, id))
  }

  function RelocatedAll(ns: seq<Node>, id: nat): (r: seq<Node>)
    ensures |r| == |ns|
  {
    if ns == [] then [] else [Relocated(ns[0], id)] + RelocatedAll(ns[1..], id)
  }

  /** The same tree and ranges; only source ids may differ. */
  predicate SameButSources(a: Node, b: Node)
  {
    && a.span.Some? == b.span.Some?
    && (a.span.Some? ==> a.span.value.start == b.span.value.start && a.span.value.end == b.span.value.end)
    && SameAllButSources(a.children, b.children)
  }

  predicate SameAllButSources(a: seq<Node>, b: seq<Node>)
  {
    |a| == |b| && (a == [] || (SameButSources(a[0], b[0]) && SameAllButSources(a[1..], b[1..])))
  }

  lemma {:induction false} RelocationKeepsShape(ns: seq<Node>, id: nat)
    ensures SameAllButSources(ns, RelocatedAll(ns, id))
  {
    if ns != [] {
      RelocationKeepsShape(ns[0].children, id);
      RelocationKeepsShape(ns[1..], id);
      assert RelocatedAll(ns, id)[1..] == RelocatedAll(ns[1..], id);
    }
  }

  /** A forest accepted for its source is accepted for the new source once relocated. */
  lemma {:induction false} RelocationKeepsVerdicts(ns: seq<Node>, source: nat, id: nat, bytes: nat, d: nat, max: nat)
    ensures SpansOk(ns, source, bytes) ==> SpansOk(RelocatedAll(ns, id), id, bytes)
    ensures CountAll(RelocatedAll(ns, id)) == CountAll(ns)
    ensures DepthOk(RelocatedAll(ns, id), d, max) <==> DepthOk(ns, d, max)
    decreases ns
  {
    if ns != [] {
      RelocationKeepsVerdicts(ns[0].children, source, id, bytes, d + 1, max);
      RelocationKeepsVerdicts(ns[1..], source, id, bytes, d, max);
      assert NodeOk(ns[0], source, bytes) ==> NodeOk(Relocated(ns[0], id), id, bytes);
      assert RelocatedAll(ns, id)[1..] == RelocatedAll(ns[1..], id);
    }
  }

  lemma RelocationKeepsAcceptance(roots: seq<Node>, source: nat, id: nat, bytes: nat, limits: RelocationLimits)
    requires Acceptable(roots, source, bytes, limits)
    ensures Acceptable(RelocatedAll(roots, id), id, bytes, limits)
  {
    RelocationKeepsVerdicts(roots, source, id, bytes, 0, DepthLimit(limits));
  }

  /** Relocating back restores a forest that was accepted for its source. */
  lemma {:induction false} RelocationUndone(ns: seq<Node>, source: nat, id: nat, bytes: nat)
    requires SpansOk(ns, source, bytes)
    ensures RelocatedAll(RelocatedAll(ns, id), source) == ns
    decreases ns
  {
    if ns != [] {
      RelocationUndone(ns[0].children, source, id, bytes);
      RelocationUndone(ns[1..], source, id, bytes);
      assert RelocatedAll(ns, id)[1..] == RelocatedAll(ns[1..], id);
    }
  }

  // ----- Relocation in place, over an arena of nodes. -----

  /** Children lists that lead upwards only, so that every index is the root of a tree. */
  predicate Forest(children: seq<seq<nat>>)
  {
    forall i, k :: 0 <= i < |children| && 0 <= k < |children[i]| ==> i < children[i][k] < |children|
  }

  /** The tree below an index. */
  function TreeAt(spans: seq<Option<Span>>, children: seq<seq<nat>>, i: nat): Node
    requires |spans| == |children| && Forest(children) && i < |children|
    decreases |children| - i, 1, 0
  {
    Node(spans[i], TreesAt(spans, children, i, children[i]))
  }

  function TreesAt(spans: seq<Option<Span>>, children: seq<seq<nat>>, i: nat, ks: seq<nat>): seq<Node>
    requires |spans| == |children| && Forest(children) && i < |children|
    requires forall k :: 0 <= k < |ks| ==> i < ks[k] < |children|
    decreases |children| - i, 0, |ks|
  {
    if ks == [] then [] else [TreeAt(spans, children, ks[0])] + TreesAt(spans, children, i, ks[1..])
  }

  function Weight(children: seq<seq<nat>>, i: nat): nat
    requires Forest(children) && i < |children|
    decreases |children| - i, 1, 0
  {
    1 + WeightAll(children, i, children[i])
  }

  function WeightAll(children: seq<seq<nat>>, i: nat, ks: seq<nat>): nat
    requires Forest(children) && i < |children|
    requires forall k :: 0 <= k < |ks| ==> i < ks[k] < |children|
    decreases |children| - i, 0, |ks|
  {
    if ks == [] then 0 else Weight(children, ks[0]) + WeightAll(children, i, ks[1..])
  }

  function WorkWeight(children: seq<seq<nat>>, work: seq<nat>): nat
    requires Forest(children) && forall k :: 0 <= k < |work| ==> work[k] < |children|
  {
    if work == [] then 0 else WorkWeight(children, Rest(work)) + Weight(children, Top(work))
  }

  lemma {:induction false} WorkWeightPush(children: seq<seq<nat>>, work: seq<nat>, i: nat, ks: seq<nat>)
    requires Forest(children) && (forall k :: 0 <= k < |work| ==> work[k] < |children|) && i < |children|
    requires forall k :: 0 <= k < |ks| ==> i < ks[k] < |children|
    ensures WorkWeight(children, work + ks) == WorkWeight(children, work) + WeightAll(children, i, ks)
    decreases |ks|
  {
    if ks == [] {
      assert work + ks == work;
    } else {
      assert Rest(work + [ks[0]]) == work && Top(work + [ks[0]]) == ks[0];
      WorkWeightPush(children, work + [ks[0]], i, ks[1..]);
      assert work + [ks[0]] + ks[1..] == work + ks;
    }
  }

  /** The visited set is closed: each visited node's children are visited or still to visit. */
  ghost predicate Closed(children: seq<seq<nat>>, done: set<nat>, work: seq<nat>)
  {
    forall i: nat, k :: i in done && i < |children| && 0 <= k < |children[i]| ==> children[i][k] in done || children[i][k] in work
  }

  lemma {:induction false} ClosedTreeMoved(before: seq<Option<Span>>, after: seq<Option<Span>>, children: seq<seq<nat>>, done: set<nat>, i: nat, id: nat)
    requires |before| == |after| == |children| && Forest(children) && i < |children| && i in done && Closed(children, done, [])
    requires forall j: nat :: j < |before| && j in done ==> after[j] == Moved(before[j], id)
    ensures TreeAt(after, children, i) == Relocated(TreeAt(before, children, i), id)
    decreases |children| - i, 1, 0
  {
    ClosedTreesMoved(before, after, children, done, i, children[i], id);
  }

  lemma {:induction false} ClosedTreesMoved(before: seq<Option<Span>>, after: seq<Option<Span>>, children: seq<seq<nat>>, done: set<nat>, i: nat, ks: seq<nat>, id: nat)
    requires |before| == |after| == |children| && Forest(children) && i < |children| && Closed(children, done, [])
    requires forall j: nat :: j < |before| && j in done ==> after[j] == Moved(before[j], id)
    requires forall k :: 0 <= k < |ks| ==> i < ks[k] < |children| && ks[k] in done
    ensures TreesAt(after, children, i, ks) == RelocatedAll(TreesAt(before, children, i, ks), id)
    decreases |children| - i, 0, |ks|
  {
    if ks != [] {
      ClosedTreeMoved(before, after, children, done, ks[0], id);
      ClosedTreesMoved(before, after, children, done, i, ks[1..], id);
      assert TreesAt(before, children, i, ks)[1..] == TreesAt(before, children, i, ks[1..]);
    }
  }

  predicate Indices(children: seq<seq<nat>>, work: seq<nat>)
  {
    forall k :: 0 <= k < |work| ==> work[k] < |children|
  }

  /** A visited node is the root or the child of a visited node. */
  ghost predicate Below(children: seq<seq<nat>>, done: set<nat>, i: nat, root: nat)
  {
    i == root || exists j: nat :: j < |children| && j in done && i in children[j]
  }

  /** The walk has met the root, and nothing that is not below it. */
  ghost predicate Walked(children: seq<seq<nat>>, done: set<nat>, work: seq<nat>, root: nat)
  {
    && (root in done || root in work)
    && Closed(children, done, work)
    && (forall i :: i in done ==> Below(children, done, i, root))
    && (forall i :: i in work ==> Below(children, done, i, root))
  }

  lemma WalkedStep(children: seq<seq<nat>>, done: set<nat>, work: seq<nat>, root: nat)
    requires Forest(children) && Indices(children, work) && work != [] && Walked(children, done, work, root)
    ensures Indices(children, Rest(work) + children[Top(work)])
    ensures Walked(children, done + {Top(work)}, Rest(work) + children[Top(work)], root)
  {
    var node := Top(work);
    var next, more := Rest(work) + children[node], done + {node};
    IndicesStep(children, work);
    TopOrRest(work, root);
    ClosedStep(children, done, work);
    forall i: nat | i in more || i in next
      ensures Below(children, more, i, root)
    {
      BelowStep(children, done, work, i, root);
    }
  }

  lemma IndicesStep(children: seq<seq<nat>>, work: seq<nat>)
    requires Forest(children) && Indices(children, work) && work != []
    ensures Indices(children, Rest(work) + children[Top(work)])
  {
  }

  lemma TopOrRest(work: seq<nat>, i: nat)
    requires work != []
    ensures i in work <==> i in Rest(work) || i == Top(work)
  {
    assert work == Rest(work) + [Top(work)];
  }

  lemma BelowStep(children: seq<seq<nat>>, done: set<nat>, work: seq<nat>, i: nat, root: nat)
    requires Indices(children, work) && work != []
    requires i in done || i in work ==> Below(children, done, i, root)
    requires i in done + {Top(work)} || i in Rest(work) + children[Top(work)]
    ensures Below(children, done + {Top(work)}, i, root)
  {
    var node := Top(work);
    assert node in work && (i in Rest(work) ==> i in work);
    if i in done || i in work {
      BelowMore(children, done, node, i, root);
    } else {
      assert i in children[node] && node in done + {node};
    }
  }

  lemma BelowMore(children: seq<seq<nat>>, done: set<nat>, node: nat, i: nat, root: nat)
    requires Below(children, done, i, root)
    ensures Below(children, done + {node}, i, root)
  {
    if i != root {
      var j: nat :| j < |children| && j in done && i in children[j];
      assert j in done + {node};
    }
  }

  lemma ClosedStep(children: seq<seq<nat>>, done: set<nat>, work: seq<nat>)
    requires Indices(children, work) && work != [] && Closed(children, done, work)
    ensures Closed(children, done + {Top(work)}, Rest(work) + children[Top(work)])
  {
    var node := Top(work);
    var next := Rest(work) + children[node];
    assert forall i :: i in work ==> i in next || i == node;
    assert forall k :: 0 <= k < |children[node]| ==> children[node][k] in next;
  }

  /** Exactly the visited spans were moved. */
  ghost predicate MovedExactly(before: seq<Option<Span>>, after: seq<Option<Span>>, done: set<nat>, id: nat)
  {
    |after| == |before| && forall i: nat :: i < |before| ==> after[i] == if i in done then Moved(before[i], id) else before[i]
  }

  lemma MovedStep(before: seq<Option<Span>>, after: seq<Option<Span>>, done: set<nat>, id: nat, node: nat)
    requires MovedExactly(before, after, done, id) && node < |before|
    ensures MovedExactly(before, after[node := Moved(after[node], id)], done + {node}, id)
  {
  }

  /** The relocation worklist rewrites exactly a closed set of nodes, and the tree becomes the relocated tree. */
  method Relocate(spans: array<Option<Span>>, children: seq<seq<nat>>, root: nat, id: nat) returns (ghost done: set<nat>)
    requires spans.Length == |children| && Forest(children) && root < |children|
    modifies spans
    ensures TreeAt(spans[..], children, root) == Relocated(TreeAt(old(spans[..]), children, root), id)
    ensures MovedExactly(old(spans[..]), spans[..], done, id)
    ensures forall i :: i in done ==> Below(children, done, i, root)
  {
    var work: seq<nat> := [root];
    done := {};
    while work != []
      invariant Indices(children, work) && Walked(children, done, work, root)
      invariant MovedExactly(old(spans[..]), spans[..], done, id)
      decreases WorkWeight(children, work)
    {
      var node := Top(work);
      NextRound(children, done, work, root);
      MovedStep(old(spans[..]), spans[..], done, id, node);
      ghost var moved := spans[..][node := Moved(spans[node], id)];
      spans[node] := Moved(spans[node], id);
      assert spans[..] == moved;
      work := Rest(work) + children[node];
      done := done + {node};
    }
    ClosedTreeMoved(old(spans[..]), spans[..], children, done, root, id);
  }

  lemma NextRound(children: seq<seq<nat>>, done: set<nat>, work: seq<nat>, root: nat)
    requires Forest(children) && Indices(children, work) && work != [] && Walked(children, done, work, root)
    ensures Top(work) < |children|
    ensures var next := Rest(work) + children[Top(work)];
            Indices(children, next) && Walked(children, done + {Top(work)}, next, root)
            && WorkWeight(children, next) < WorkWeight(children, work)
  {
    WalkedStep(children, done, work, root);
    WorkWeightPush(children, Rest(work), Top(work), children[Top(work)]);
  }

  // ----- Relocated bodies. -----

  datatype RelocatedBody = RelocatedBody(source: nat, body: Node, handler: Option<Node>)

  function Roots(body: Node, handler: Option<Node>): seq<Node>
  {
    [body] + if handler.Some? then [handler.value] else []
  }

  /** The bytes from the body's start to the end of its handler, or of itself. */
  function BodyBytes(span: Span, handlerSpan: Option<Span>): nat
  {
    var end := if handlerSpan.Some? then handlerSpan.value.end else span.end;
    if end < span.start then 0 else end - span.start
  }

  /** A body is relocated exactly when it fits and validates; the result is its copy under the new source. */
  method NewRelocatedBody(body: Node, span: Span, handler: Option<Node>, handlerSpan: Option<Span>,
                          source: nat, bytes: nat, newSource: nat, limits: RelocationLimits)
    returns (r: Result<RelocatedBody, RelocationError>)
    requires handler.Some? == handlerSpan.Some?
    ensures r.Ok? <==> BodyBytes(span, handlerSpan) <= limits.maxSourceBytes && Acceptable(Roots(body, handler), source, bytes, limits)
    ensures r.Ok? ==> r.value.source == newSource && Roots(r.value.body, r.value.handler) == RelocatedAll(Roots(body, handler), newSource)
    ensures r.Ok? ==> Acceptable(Roots(r.value.body, r.value.handler), newSource, bytes, limits)
    ensures r.Ok? ==> RelocatedAll(Roots(r.value.body, r.value.handler), source) == Roots(body, handler)
  {
    if BodyBytes(span, handlerSpan) > limits.maxSourceBytes {
      return Err(ResourceLimit(RelocatedBytes, limits.maxSourceBytes));
    }
    var roots := Roots(body, handler);
    var _ :- Validate(roots, source, bytes, limits);
    RelocationKeepsAcceptance(roots, source, newSource, bytes, limits);
    RelocationUndone(roots, source, newSource, bytes);
    var moved := if handler.Some? then Some(Relocated(handler.value, newSource)) else None;
    RootsRelocated(body, handler, newSource);
    return Ok(RelocatedBody(newSource, Relocated(body, newSource), moved));
  }

  lemma RootsRelocated(body: Node, handler: Option<Node>, id: nat)
    ensures RelocatedAll(Roots(body, handler), id)
         == Roots(Relocated(body, id), if handler.Some? then Some(Relocated(handler.value, id)) else None)
  {
    var rest := if handler.Some? then [handler.value] else [];
    assert Roots(body, handler)[1..] == rest;
    if handler.Some? {
      assert rest[1..] == [];
    }
  }
}
