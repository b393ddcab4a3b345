/** Bounded lowering of external trace metadata (crates/etas_effects/src/external_trace.rs). */
module ExternalTrace {
  import opened Prelude
  import opened Effects
  import opened Traces
  import opened Words

  type EffectMetadata = nat

  datatype RequestTarget = Parameter(name: string) | SpecMethodRequest(invocation: nat, method': string)

  datatype Metadata =
    | EmptyTrace
    | EventTrace(action: EffectMetadata, source: EventSource)
    | CallTrace(parameter: RequestTarget)
    | SeqTrace(children: seq<Metadata>)
    | ChoiceTrace(children: seq<Metadata>)
    | RepeatTrace(child: Metadata)
    | UnknownTrace(actions: seq<EffectMetadata>)
    | WidenedTrace(actions: seq<EffectMetadata>, parameterCalls: seq<RequestTarget>)

  /** What lowering consults, and its limits. */
  datatype Lowering = Lowering(
    span: Span,
    resolve: EffectMetadata -> Option<Effect>,
    target: RequestTarget -> Option<ParameterCallTarget>,
    maxDepth: nat
  )

  predicate Branching(t: Metadata)
  {
    t.SeqTrace? || t.ChoiceTrace?
  }

  function RequestText(q: RequestTarget): string
  {
    match q
    case Parameter(name) => name
    case SpecMethodRequest(_, name) => name
  }

  // ----- When lowering can succeed, what it costs and what it yields. -----

  predicate ActionResolves(x: Lowering, a: EffectMetadata)
  {
    x.resolve(a).Some? && IsAction(x.resolve(a).value)
  }

  predicate ActionsResolve(x: Lowering, actions: seq<EffectMetadata>)
  {
    forall i :: 0 <= i < |actions| ==> ActionResolves(x, actions[i])
  }

  predicate CallsResolve(x: Lowering, calls: seq<RequestTarget>)
  {
    forall i :: 0 <= i < |calls| ==> x.target(calls[i]).Some?
  }

  /** Within the depth limit, without an empty choice, and with every action and target resolved. */
  predicate Sound(x: Lowering, t: Metadata, depth: nat)
  {
    depth <= x.maxDepth &&
    match t
    case EmptyTrace => true
    case EventTrace(action, _) => ActionResolves(x, action)
    case CallTrace(parameter) => x.target(parameter).Some?
    case SeqTrace(children) => AllSound(x, children, depth + 1)
    case ChoiceTrace(children) => children != [] && AllSound(x, children, depth + 1)
    case RepeatTrace(child) => Sound(x, child, depth + 1)
    case UnknownTrace(actions) => ActionsResolve(x, actions)
    case WidenedTrace(actions, calls) => ActionsResolve(x, actions) && CallsResolve(x, calls)
  }

  predicate AllSound(x: Lowering, ts: seq<Metadata>, depth: nat)
  {
    ts == [] || (Sound(x, ts[0], depth) && AllSound(x, ts[1..], depth))
  }

  function Size(t: Metadata): (n: nat)
    ensures n >= 1
  {
    match t
    case SeqTrace(children) => 1 + SizeAll(children)
    case ChoiceTrace(children) => 1 + SizeAll(children)
    case RepeatTrace(child) => 1 + Size(child)
    case UnknownTrace(actions) => 1 + |actions|
    case WidenedTrace(actions, calls) => 1 + |actions| + |calls|
    case _ => 1
  }

  function SizeAll(ts: seq<Metadata>): (n: nat)
    ensures n >= |ts|
  {
    if ts == [] then 0 else Size(ts[0]) + SizeAll(ts[1..])
  }

  /** The lowered actions, in order. */
  function ResolvedActions(x: Lowering, actions: seq<EffectMetadata>): seq<Effect>
    requires ActionsResolve(x, actions)
  {
    seq(|actions|, i requires 0 <= i < |actions| => x.resolve(actions[i]).value)
  }

  function CallRef(x: Lowering, q: RequestTarget): ParameterCallRef
    requires x.target(q).Some?
  {
    ParameterCallRef(x.target(q).value, RequestText(q), x.span)
  }

  function CallRefs(x: Lowering, calls: seq<RequestTarget>): seq<ParameterCallRef>
    requires CallsResolve(x, calls)
  {
    seq(|calls|, i requires 0 <= i < |calls| => CallRef(x, calls[i]))
  }

  /** The trace of the same shape. */
  function Lowered(x: Lowering, t: Metadata, depth: nat): Trace
    requires Sound(x, t, depth)
  {
    match t
    case EmptyTrace => Empty
    case EventTrace(action, source) => Event(ActionEvent(x.resolve(action).value, x.span, source))
    case CallTrace(parameter) => ParameterCall(CallRef(x, parameter))
    case SeqTrace(children) => Seq(LoweredAll(x, children, depth + 1))
    case ChoiceTrace(children) => Choice(LoweredAll(x, children, depth + 1))
    case RepeatTrace(child) => Repeat(Lowered(x, child, depth + 1))
    case UnknownTrace(actions) => UnknownOrder(Elems(ResolvedActions(x, actions)))
    case WidenedTrace(actions, calls) => Widened(Elems(ResolvedActions(x, actions)), CallRefs(x, calls))
  }

  function LoweredAll(x: Lowering, ts: seq<Metadata>, depth: nat): (r: seq<Trace>)
    requires AllSound(x, ts, depth)
    ensures |r| == |ts|
  {
    if ts == [] then [] else [Lowered(x, ts[0], depth)] + LoweredAll(x, ts[1..], depth)
  }

  // ----- The lowering, with one budget shared by the whole trace. -----

  method Charge(remaining: nat, amount: nat) returns (r: Option<nat>)
    ensures r == if amount <= remaining then Some(remaining - amount) else None
  {
    if amount > remaining {
      return None;
    }
    return Some(remaining - amount);
  }

  method LowerActions(x: Lowering, actions: seq<EffectMetadata>) returns (r: Option<set<Effect>>)
    ensures r.Some? <==> ActionsResolve(x, actions)
    ensures r.Some? ==> r.value == Elems(ResolvedActions(x, actions))
  {
    var found: seq<Effect> := [];
    for i := 0 to |actions|
      invariant |found| == i && forall j :: 0 <= j < i ==> ActionResolves(x, actions[j]) && found[j] == x.resolve(actions[j]).value
    {
      var effect := x.resolve(actions[i]);
      if effect.None? || !IsAction(effect.value) {
        assert !ActionResolves(x, actions[i]);
        return None;
      }
      found := found + [effect.value];
    }
    assert found == ResolvedActions(x, actions);
    return Some(Elems(found));
  }

  method LowerCalls(x: Lowering, calls: seq<RequestTarget>) returns (r: Option<seq<ParameterCallRef>>)
    ensures r.Some? <==> CallsResolve(x, calls)
    ensures r.Some? ==> r.value == CallRefs(x, calls)
  {
    var found: seq<ParameterCallRef> := [];
    for i := 0 to |calls|
      invariant |found| == i && forall j :: 0 <= j < i ==> x.target(calls[j]).Some? && found[j] == CallRef(x, calls[j])
    {
      if x.target(calls[i]).None? {
        return None;
      }
      found := found + [CallRef(x, calls[i])];
    }
    return Some(found);
  }

  /** Leaves and flat nodes, after their own unit was charged. */
  method LowerFlat(x: Lowering, t: Metadata, depth: nat, remaining: nat) returns (r: Option<Trace>, left: nat)
    requires !Branching(t) && !t.RepeatTrace? && depth <= x.maxDepth
    ensures r.Some? <==> Sound(x, t, depth) && Size(t) <= remaining + 1
    ensures r.Some? ==> r.value == Lowered(x, t, depth) && left + Size(t) == remaining + 1
  {
    left := remaining;
    match t
    case EmptyTrace => r := Some(Empty);
    case EventTrace(action, source) =>
      var effect := x.resolve(action);
      if effect.None? || !IsAction(effect.value) {
        return None, left;
      }
      r := Some(Event(ActionEvent(effect.value, x.span, source)));
    case CallTrace(parameter) =>
      if x.target(parameter).None? {
        return None, left;
      }
      r := Some(ParameterCall(CallRef(x, parameter)));
    case UnknownTrace(actions) =>
      var paid := Charge(remaining, |actions|);
      if paid.None? {
        return None, left;
      }
      left := paid.value;
      var effects := LowerActions(x, actions);
      r := if effects.Some? then Some(UnknownOrder(effects.value)) else None;
    case WidenedTrace(actions, calls) =>
      var paid := Charge(remaining, |actions| + |calls|);
      if paid.None? {
        return None, left;
      }
      left := paid.value;
      var effects := LowerActions(x, actions);
      if effects.None? {
        return None, left;
      }
      var refs := LowerCalls(x, calls);
      r := if refs.Some? then Some(Widened(effects.value, refs.value)) else None;
  }

  /**
   * Lowering succeeds exactly when the metadata is sound and its size fits the budget; it then keeps
   * the shape and consumes exactly that size. The early child-count check rejects nothing more.
   */
  method Lower(x: Lowering, t: Metadata, depth: nat, remaining: nat) returns (r: Option<Trace>, left: nat)
    ensures r.Some? <==> Sound(x, t, depth) && Size(t) <= remaining
    ensures r.Some? ==> r.value == Lowered(x, t, depth) && left + Size(t) == remaining
    decreases t, 1
  {
    left := remaining;
    if depth > x.maxDepth {
      return None, left;
    }
    var paid := Charge(remaining, 1);
    if paid.None? {
      return None, left;
    }
    left := paid.value;
    if Branching(t) {
      if t.ChoiceTrace? && t.children == [] {
        return None, left;
      }
      if |t.children| > left {
        return None, left;
      }
      var parts;
      parts, left := LowerAll(x, t, t.children, depth + 1, left);
      if parts.None? {
        return None, left;
      }
      r := Some(if t.SeqTrace? then Seq(parts.value) else Choice(parts.value));
    } else if t.RepeatTrace? {
      var inner;
      inner, left := Lower(x, t.child, depth + 1, left);
      r := if inner.Some? then Some(Repeat(inner.value)) else None;
    } else {
      r, left := LowerFlat(x, t, depth, left);
    }
  }

  method LowerAll(x: Lowering, ghost parent: Metadata, ts: seq<Metadata>, depth: nat, remaining: nat)
    returns (r: Option<seq<Trace>>, left: nat)
    requires forall i :: 0 <= i < |ts| ==> ts[i] < parent
    ensures r.Some? <==> AllSound(x, ts, depth) && SizeAll(ts) <= remaining
    ensures r.Some? ==> r.value == LoweredAll(x, ts, depth) && left + SizeAll(ts) == remaining
    decreases parent, 0, |ts|
  {
    left := remaining;
    if ts == [] {
      return Some([]), left;
    }
    var head;
    head, left := Lower(x, ts[0], depth, left);
    if head.None? {
      return None, left;
    }
    var tail;
    tail, left := LowerAll(x, parent, ts[1..], depth, left);
    if tail.None? {
      return None, left;
    }
    r := Some([head.value] + tail.value);
  }

  predicate DistinctNames(parameters: seq<(string, ParameterCallTarget)>)
  {
    forall i, j :: 0 <= i < j < |parameters| ==> parameters[i].0 != parameters[j].0
  }

  function IndexOf(parameters: seq<(string, ParameterCallTarget)>): (m: map<string, ParameterCallTarget>)
    ensures forall n :: n in m <==> exists i :: 0 <= i < |parameters| && parameters[i].0 == n
  {
    if parameters == [] then map[] else IndexOf(Rest(parameters))[Top(parameters).0 := Top(parameters).1]
  }

  /** With distinct names the index holds each parameter's own target. */
  lemma {:induction false} IndexOfDistinct(parameters: seq<(string, ParameterCallTarget)>, i: nat)
    requires DistinctNames(parameters) && i < |parameters|
    ensures IndexOf(parameters)[parameters[i].0] == parameters[i].1
    decreases |parameters|
  {
    if i < |parameters| - 1 {
      IndexOfDistinct(Rest(parameters), i);
    }
  }

  /** Parameters are looked up by name; spec methods have no target here. */
  function TargetFor(index: map<string, ParameterCallTarget>): RequestTarget -> Option<ParameterCallTarget>
  {
    (q: RequestTarget) => if q.Parameter? && q.name in index then Some(index[q.name]) else None
  }

  /** Duplicate parameter names and oversized tables are refused before anything is lowered. */
  method LowerExternalActionTrace(t: Metadata, parameters: seq<(string, ParameterCallTarget)>, span: Span,
                                  resolve: EffectMetadata -> Option<Effect>, maxDepth: nat, maxNodes: nat)
    returns (r: Option<Trace>)
    ensures var x := Lowering(span, resolve, TargetFor(IndexOf(parameters)), maxDepth);
            && (r.Some? <==> |parameters| <= maxNodes && DistinctNames(parameters) && Sound(x, t, 0) && Size(t) <= maxNodes)
            && (r.Some? ==> r.value == Lowered(x, t, 0))
  {
    if |parameters| > maxNodes {
      return None;
    }
    var index: map<string, ParameterCallTarget> := map[];
    for i := 0 to |parameters|
      invariant DistinctNames(parameters[..i]) && index == IndexOf(parameters[..i])
    {
      if parameters[i].0 in index {
        var j :| 0 <= j < |parameters[..i]| && parameters[..i][j].0 == parameters[i].0;
        return None;
      }
      assert Rest(parameters[..i + 1]) == parameters[..i];
      index := index[parameters[i].0 := parameters[i].1];
    }
    assert parameters[..|parameters|] == parameters;
    var left;
    r, left := Lower(Lowering(span, resolve, TargetFor(index), maxDepth), t, 0, maxNodes);
  }

  // ----- What a lowered trace is good for. -----

  /** A lowered trace has no empty choice. */
  lemma {:induction false} LoweredHasNoEmptyChoice(x: Lowering, t: Metadata, depth: nat)
    requires Sound(x, t, depth)
    ensures NoEmptyChoice(Lowered(x, t, depth))
    decreases t, 1
  {
    if Branching(t) {
      AllLoweredHaveNoEmptyChoice(x, t, t.children, depth + 1);
    } else if t.RepeatTrace? {
      LoweredHasNoEmptyChoice(x, t.child, depth + 1);
    }
  }

  lemma {:induction false} AllLoweredHaveNoEmptyChoice(x: Lowering, parent: Metadata, ts: seq<Metadata>, depth: nat)
    requires AllSound(x, ts, depth) && forall i :: 0 <= i < |ts| ==> ts[i] < parent
    ensures AllNoEmptyChoice(LoweredAll(x, ts, depth))
    decreases parent, 0, |ts|
  {
    if ts != [] {
      LoweredHasNoEmptyChoice(x, ts[0], depth);
      AllLoweredHaveNoEmptyChoice(x, parent, ts[1..], depth);
      assert LoweredAll(x, ts, depth)[1..] == LoweredAll(x, ts[1..], depth);
    }
  }

  /** So every lowered trace means at least one word. */
  lemma LoweredHasWord(x: Lowering, t: Metadata, depth: nat) returns (w: Word)
    requires Sound(x, t, depth)
    ensures In(w, Lowered(x, t, depth))
  {
    LoweredHasNoEmptyChoice(x, t, depth);
    w := SomeWord(Lowered(x, t, depth));
  }

  // ----- What a lowered trace means. -----

  ghost predicate ActionLetter(x: Lowering, a: EffectMetadata, l: Letter)
  {
    l.Act? && x.resolve(a) == Some(l.action)
  }

  ghost predicate RequestLetter(x: Lowering, q: RequestTarget, l: Letter)
  {
    x.target(q).Some? && l == CallLetter(ParameterCallRef(x.target(q).value, RequestText(q), x.span))
  }

  ghost predicate SomeActionLetter(x: Lowering, actions: seq<EffectMetadata>, l: Letter)
  {
    exists i :: 0 <= i < |actions| && ActionLetter(x, actions[i], l)
  }

  ghost predicate SomeRequestLetter(x: Lowering, calls: seq<RequestTarget>, l: Letter)
  {
    exists i :: 0 <= i < |calls| && RequestLetter(x, calls[i], l)
  }

  /** The words the metadata itself speaks of. */
  ghost predicate Says(x: Lowering, t: Metadata, w: Word)
    decreases t, 0, 0
  {
    match t
    case EmptyTrace => w == []
    case EventTrace(action, _) => |w| == 1 && ActionLetter(x, action, w[0])
    case CallTrace(parameter) => |w| == 1 && RequestLetter(x, parameter, w[0])
    case SeqTrace(children) => SaysInTurn(x, children, w)
    case ChoiceTrace(children) => exists i :: 0 <= i < |children| && Says(x, children[i], w)
    case RepeatTrace(child) => SaysAgain(x, child, w)
    case UnknownTrace(actions) => forall l :: l in w ==> SomeActionLetter(x, actions, l)
    case WidenedTrace(actions, calls) => forall l :: l in w ==> SomeActionLetter(x, actions, l) || SomeRequestLetter(x, calls, l)
  }

  ghost predicate SaysInTurn(x: Lowering, ts: seq<Metadata>, w: Word)
    decreases ts, 1, 0
  {
    if ts == [] then w == []
    else exists k :: 0 <= k <= |w| && Says(x, ts[0], w[..k]) && SaysInTurn(x, ts[1..], w[k..])
  }

  ghost predicate SaysAgain(x: Lowering, t: Metadata, w: Word)
    decreases t, 1, |w|
  {
    w == [] || exists k :: 0 < k <= |w| && Says(x, t, w[..k]) && SaysAgain(x, t, w[k..])
  }

  lemma ActionLetters(x: Lowering, actions: seq<EffectMetadata>, l: Letter)
    requires ActionsResolve(x, actions)
    ensures l in ActLetters(Elems(ResolvedActions(x, actions))) <==> SomeActionLetter(x, actions, l)
  {
    var found := ResolvedActions(x, actions);
    if i :| 0 <= i < |actions| && ActionLetter(x, actions[i], l) {
      assert found[i] == l.action;
      assert l.action in Elems(found);
    }
    if l in ActLetters(Elems(found)) {
      assert l.action in found;
      var i :| 0 <= i < |found| && found[i] == l.action;
      assert ActionLetter(x, actions[i], l);
    }
  }

  lemma RequestLetters(x: Lowering, calls: seq<RequestTarget>, l: Letter)
    requires CallsResolve(x, calls)
    ensures l in CallLetters(CallRefs(x, calls)) <==> SomeRequestLetter(x, calls, l)
  {
    var refs := CallRefs(x, calls);
    if i :| 0 <= i < |calls| && RequestLetter(x, calls[i], l) {
      assert refs[i] in refs && CallLetter(refs[i]) == l;
    }
    if l in CallLetters(refs) {
      var c :| c in refs && CallLetter(c) == l;
      var i :| 0 <= i < |refs| && refs[i] == c;
      assert RequestLetter(x, calls[i], l);
    }
  }

  /** The words of the lowered trace are exactly those the metadata speaks of, names and targets resolved. */
  lemma {:induction false} LoweredMeaning(x: Lowering, t: Metadata, depth: nat, w: Word)
    requires Sound(x, t, depth)
    ensures In(w, Lowered(x, t, depth)) <==> Says(x, t, w)
    decreases t, 1, 0
  {
    match t
    case SeqTrace(children) => InTurnMeaning(x, t, children, depth + 1, w);
    case ChoiceTrace(children) => SomeMeaning(x, t, children, depth + 1, w);
    case RepeatTrace(child) => AgainMeaning(x, child, depth + 1, w);
    case UnknownTrace(actions) =>
      forall l
        ensures l in ActLetters(Elems(ResolvedActions(x, actions))) <==> SomeActionLetter(x, actions, l)
      {
        ActionLetters(x, actions, l);
      }
    case WidenedTrace(actions, calls) =>
      forall l
        ensures l in ActLetters(Elems(ResolvedActions(x, actions))) <==> SomeActionLetter(x, actions, l)
        ensures l in CallLetters(CallRefs(x, calls)) <==> SomeRequestLetter(x, calls, l)
      {
        ActionLetters(x, actions, l);
        RequestLetters(x, calls, l);
      }
    case _ =>
  }

  lemma {:induction false} InTurnMeaning(x: Lowering, parent: Metadata, ts: seq<Metadata>, depth: nat, w: Word)
    requires AllSound(x, ts, depth) && forall i :: 0 <= i < |ts| ==> ts[i] < parent
    ensures InSeq(w, LoweredAll(x, ts, depth)) <==> SaysInTurn(x, ts, w)
    decreases parent, 0, |ts|
  {
    if ts != [] {
      var parts := LoweredAll(x, ts, depth);
      assert parts[1..] == LoweredAll(x, ts[1..], depth);
      forall k | 0 <= k <= |w|
        ensures In(w[..k], parts[0]) <==> Says(x, ts[0], w[..k])
        ensures InSeq(w[k..], parts[1..]) <==> SaysInTurn(x, ts[1..], w[k..])
      {
        LoweredMeaning(x, ts[0], depth, w[..k]);
        InTurnMeaning(x, parent, ts[1..], depth, w[k..]);
      }
    }
  }

  lemma {:induction false} LoweredAt(x: Lowering, ts: seq<Metadata>, depth: nat, i: nat)
    requires AllSound(x, ts, depth) && i < |ts|
    ensures Sound(x, ts[i], depth) && LoweredAll(x, ts, depth)[i] == Lowered(x, ts[i], depth)
    decreases |ts|
  {
    if i > 0 {
      LoweredAt(x, ts[1..], depth, i - 1);
    }
  }

  lemma {:induction false} SomeMeaning(x: Lowering, parent: Metadata, ts: seq<Metadata>, depth: nat, w: Word)
    requires AllSound(x, ts, depth) && forall i :: 0 <= i < |ts| ==> ts[i] < parent
    ensures InSome(w, LoweredAll(x, ts, depth)) <==> exists i :: 0 <= i < |ts| && Says(x, ts[i], w)
    decreases parent, 0, |ts|
  {
    var parts := LoweredAll(x, ts, depth);
    forall i | 0 <= i < |ts|
      ensures In(w, parts[i]) <==> Says(x, ts[i], w)
    {
      LoweredAt(x, ts, depth, i);
      LoweredMeaning(x, ts[i], depth, w);
    }
  }

  lemma {:induction false} AgainMeaning(x: Lowering, t: Metadata, depth: nat, w: Word)
    requires Sound(x, t, depth)
    ensures InStar(w, Lowered(x, t, depth)) <==> SaysAgain(x, t, w)
    decreases t, 2, |w|
  {
    forall k | 0 < k <= |w|
      ensures In(w[..k], Lowered(x, t, depth)) <==> Says(x, t, w[..k])
      ensures InStar(w[k..], Lowered(x, t, depth)) <==> SaysAgain(x, t, w[k..])
    {
      LoweredMeaning(x, t, depth, w[..k]);
      AgainMeaning(x, t, depth, w[k..]);
    }
  }
}
