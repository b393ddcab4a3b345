/** Effect coverage and trace-spec patterns (effect/coverage.rs, trace_spec/model.rs). */
module Coverage {
  import opened Prelude
  import opened Effects
  import opened Extensions
  import opened TraceMonitor

  const ErrorTag: TagId := 8

  datatype ArgKind = TypeKind | MemoryPlaceKind | StaticResourcePathKind | StringPatternKind

  /**
   * What coverage asks of the registry and of the type store: `tagExtends` is the answer of the
   * extension graph, `errorCore` the tag found for the error core effect, `assignable` type
   * assignability, `comparable` whether two types are both nominal or both primitive.
   */
  datatype Registry = Registry(
    tagExtends: (TagId, TagId) -> bool,
    signatures: map<ActionRef, seq<ArgKind>>,
    named: set<TagId>,
    memoryTags: set<TagId>,
    memoryPlaces: map<TypeId, seq<string>>,
    errorCore: Option<TagId>,
    assignable: (TypeId, TypeId) -> bool,
    comparable: (TypeId, TypeId) -> bool
  )

  /** `tagExtends` is the reachability of some extension graph. */
  ghost predicate GraphBacked(r: Registry, parents: Parents)
  {
    forall a, b :: r.tagExtends(a, b) <==> Reachable(parents, a, b)
  }

  ghost predicate AssignablePreorder(r: Registry)
  {
    && (forall a :: r.assignable(a, a))
    && (forall a, b, c :: r.assignable(a, b) && r.assignable(b, c) ==> r.assignable(a, c))
  }

  // ----- Coverage of single effects. -----

  predicate TagCovers(r: Registry, allowed: TagId, actual: TagId)
  {
    allowed == actual || r.tagExtends(actual, allowed)
  }

  predicate MemoryPlaceContains(r: Registry, parent: TypeId, child: TypeId)
  {
    parent in r.memoryPlaces && child in r.memoryPlaces && r.memoryPlaces[parent] <= r.memoryPlaces[child]
  }

  function Segments(r: Registry, arg: EffectArg): Option<seq<string>>
  {
    match arg
    case PathArg(segments) => Some(segments)
    case TypeArg(ty) => if ty in r.memoryPlaces then Some(r.memoryPlaces[ty]) else None
    case _ => None
  }

  predicate ArgCovers(r: Registry, allowed: EffectArg, actual: EffectArg)
  {
    if allowed.WildcardArg? then true
    else if allowed.TypeArg? && actual.TypeArg? then r.assignable(allowed.ty, actual.ty)
    else allowed == actual
  }

  predicate MemoryArgContains(r: Registry, allowed: EffectArg, actual: EffectArg)
  {
    var a, b := Segments(r, allowed), Segments(r, actual);
    if a.Some? && b.Some? then a.value <= b.value
    else if allowed.WildcardArg? then true
    else if allowed.TypeArg? && actual.TypeArg? then MemoryPlaceContains(r, allowed.ty, actual.ty)
    else ArgCovers(r, allowed, actual)
  }

  /** `allowed` is a non-empty suffix of `actual`. */
  predicate PathMatches(allowed: seq<string>, actual: seq<string>)
  {
    allowed != [] && |allowed| <= |actual| && actual[|actual| - |allowed|..] == allowed
  }

  predicate ResourceArgCovers(r: Registry, allowed: EffectArg, actual: EffectArg)
  {
    if allowed.WildcardArg? then true
    else if allowed.PathArg? && actual.PathArg? then PathMatches(allowed.segments, actual.segments)
    else ArgCovers(r, allowed, actual)
  }

  predicate KindCovers(r: Registry, kind: Option<ArgKind>, allowed: EffectArg, actual: EffectArg)
  {
    match kind
    case Some(MemoryPlaceKind) => MemoryArgContains(r, allowed, actual)
    case Some(StaticResourcePathKind) => ResourceArgCovers(r, allowed, actual)
    case _ => ArgCovers(r, allowed, actual)
  }

  function KindAt(r: Registry, action: ActionRef, i: nat): Option<ArgKind>
  {
    if action in r.signatures && i < |r.signatures[action]| then Some(r.signatures[action][i]) else None
  }

  predicate AppliedActionCovers(r: Registry, allowed: Effect, actual: Effect)
    requires allowed.AppliedAction? && actual.AppliedAction?
  {
    && allowed.action == actual.action
    && |allowed.args| == |actual.args|
    && forall i :: 0 <= i < |allowed.args| ==> KindCovers(r, KindAt(r, allowed.action, i), allowed.args[i], actual.args[i])
  }

  predicate AppliedCovers(r: Registry, allowed: Effect, actual: Effect)
    requires allowed.Applied? && actual.Applied?
  {
    && TagCovers(r, allowed.tag, actual.tag)
    && |allowed.types| == |actual.types|
    && if |allowed.types| == 1 && allowed.tag in r.memoryTags
       then allowed.tag == actual.tag && MemoryPlaceContains(r, allowed.types[0], actual.types[0])
       else forall i :: 0 <= i < |allowed.types| ==> r.assignable(allowed.types[i], actual.types[i])
  }

  predicate Covers(r: Registry, allowed: Effect, actual: Effect)
  {
    match (allowed, actual)
    case (Tag(a), Tag(b)) => TagCovers(r, a, b)
    case (Action(a), Action(b)) => a == b
    case (Action(a), AppliedAction(b, _)) => a == b
    case (Tag(a), Action(b)) => TagCovers(r, a, b.tag)
    case (Tag(a), AppliedAction(b, _)) => TagCovers(r, a, b.tag)
    case (Error(a), Error(b)) => r.assignable(a, b)
    case (AppliedAction(_, _), AppliedAction(_, _)) => AppliedActionCovers(r, allowed, actual)
    case (Applied(_, _), Applied(_, _)) => AppliedCovers(r, allowed, actual)
    case (Tag(a), Applied(b, types)) => types == [] && TagCovers(r, a, b)
    case (Applied(a, types), Error(b)) => a == ErrorTag && |types| == 1 && r.assignable(types[0], b)
    case (Error(a), Applied(b, types)) => b == ErrorTag && |types| == 1 && r.assignable(a, types[0])
    case _ => allowed == actual
  }

  // ----- Rows. -----

  predicate CoveredBy(r: Registry, handled: set<Effect>, e: Effect)
  {
    exists h :: h in handled && Covers(r, h, e)
  }

  predicate RowCovers(r: Registry, allowed: EffectRow, actual: EffectRow)
  {
    allowed.open.Some? ||
    (actual.open.None? && forall e :: e in actual.effects ==> CoveredBy(r, allowed.effects, e))
  }

  function RowUncoveredBy(r: Registry, allowed: EffectRow, actual: EffectRow): EffectRow
  {
    if allowed.open.Some? then EmptyRow
    else EffectRow((set e | e in actual.effects && !CoveredBy(r, allowed.effects, e)), actual.open)
  }

  function SubtractHandled(r: Registry, body: EffectRow, handled: EffectRow): EffectRow
  {
    EffectRow((set e | e in body.effects && !CoveredBy(r, handled.effects, e)), body.open)
  }

  /** The registered tag an effect belongs to. */
  function TagOf(r: Registry, e: Effect): Option<TagId>
  {
    var tag :=
      match e
      case Tag(t) => Some(t)
      case Applied(t, _) => Some(t)
      case Action(a) => if a in r.signatures then Some(a.tag) else None
      case AppliedAction(a, _) => if a in r.signatures then Some(a.tag) else None
      case Error(_) => r.errorCore
      case Var(_) => None;
    if tag.Some? && tag.value in r.named then tag else None
  }

  predicate EffectsDisjoint(r: Registry, left: Effect, right: Effect)
  {
    var a, b := TagOf(r, left), TagOf(r, right);
    a.Some? && b.Some? && a.value != b.value && !r.tagExtends(a.value, b.value) && !r.tagExtends(b.value, a.value)
  }

  predicate RowsDisjoint(r: Registry, left: EffectRow, right: EffectRow)
  {
    && left.open.None? && right.open.None?
    && (forall a :: a in left.effects ==> TagOf(r, a).Some?)
    && (forall a, b :: a in left.effects && b in right.effects ==> EffectsDisjoint(r, a, b))
  }

  // ----- When coverage is transitive. -----

  lemma PrefixTransitive(a: seq<string>, b: seq<string>, c: seq<string>)
    requires a <= b && b <= c
    ensures a <= c
  {
  }

  lemma SuffixTransitive(a: seq<string>, b: seq<string>, c: seq<string>)
    requires PathMatches(a, b) && PathMatches(b, c)
    ensures PathMatches(a, c)
  {
    assert b[|b| - |a|..] == c[|c| - |b|..][|b| - |a|..] == c[|c| - |a|..];
  }

  lemma KindCoversTransitive(r: Registry, kind: Option<ArgKind>, a: EffectArg, b: EffectArg, c: EffectArg)
    requires AssignablePreorder(r)
    requires KindCovers(r, kind, a, b) && KindCovers(r, kind, b, c)
    ensures KindCovers(r, kind, a, c)
  {
    match kind
    case Some(MemoryPlaceKind) =>
      var x, y, z := Segments(r, a), Segments(r, b), Segments(r, c);
      if x.Some? && y.Some? && z.Some? {
        PrefixTransitive(x.value, y.value, z.value);
      }
    case Some(StaticResourcePathKind) =>
      if a.PathArg? && b.PathArg? && c.PathArg? {
        SuffixTransitive(a.segments, b.segments, c.segments);
      }
    case _ =>
  }

  /** One type argument under a memory tag is compared by place, any other list by assignability. */
  predicate ByPlace(r: Registry, e: Effect)
  {
    e.Applied? && |e.types| == 1 && e.tag in r.memoryTags
  }

  /**
   * The chains along which coverage does not compose: an ancestor or descendant of the error tag meets
   * the `Error` form, or comparison by place and comparison by assignability meet in one chain.
   */
  predicate ChainBreaks(r: Registry, a: Effect, b: Effect, c: Effect)
  {
    || (a.Applied? && b.Applied? && c.Error? && (a.tag != ErrorTag || (|a.types| == 1 && ByPlace(r, b) && !r.assignable(a.types[0], c.ty))))
    || (a.Error? && b.Applied? && c.Applied? && (c.tag != ErrorTag || (|c.types| == 1 && ByPlace(r, b) && !r.assignable(a.ty, c.types[0]))))
    || (a.Applied? && b.Error? && c.Applied? && ByPlace(r, a) && |c.types| == 1 && !MemoryPlaceContains(r, a.types[0], c.types[0]))
    || (a.Applied? && b.Applied? && c.Applied? && !ByPlace(r, a) && ByPlace(r, b)
        && |a.types| == 1 && |c.types| == 1 && !r.assignable(a.types[0], c.types[0]))
  }

  lemma TagCoversTransitive(r: Registry, parents: Parents, a: TagId, b: TagId, c: TagId)
    requires GraphBacked(r, parents) && TagCovers(r, a, b) && TagCovers(r, b, c)
    ensures TagCovers(r, a, c)
  {
    if a != b && b != c {
      ReachTransitive(parents, c, b, a);
    }
  }

  lemma AppliedCoversThrough(r: Registry, parents: Parents, a: Effect, b: Effect, c: Effect)
    requires GraphBacked(r, parents) && AssignablePreorder(r) && a.Applied? && b.Applied? && c.Applied?
    requires Covers(r, a, b) && Covers(r, b, c)
    ensures Covers(r, a, c) <==> !ChainBreaks(r, a, b, c)
  {
    TagCoversTransitive(r, parents, a.tag, b.tag, c.tag);
    if ByPlace(r, a) {
      PrefixTransitive(r.memoryPlaces[a.types[0]], r.memoryPlaces[b.types[0]], r.memoryPlaces[c.types[0]]);
    }
  }

  /** For every chain of effects, coverage composes exactly when the chain is not one of the breaking ones. */
  lemma CoversThroughExactly(r: Registry, parents: Parents, a: Effect, b: Effect, c: Effect)
    requires GraphBacked(r, parents) && AssignablePreorder(r)
    requires Covers(r, a, b) && Covers(r, b, c)
    ensures Covers(r, a, c) <==> !ChainBreaks(r, a, b, c)
  {
    if a.Tag? && !b.Action? && !b.AppliedAction? {
      var tag := if c.Tag? || c.Applied? then c.tag else c.action.tag;
      TagCoversTransitive(r, parents, a.tag, b.tag, tag);
    } else if a.AppliedAction? {
      forall i | 0 <= i < |a.args|
        ensures KindCovers(r, KindAt(r, a.action, i), a.args[i], c.args[i])
      {
        KindCoversTransitive(r, KindAt(r, a.action, i), a.args[i], b.args[i], c.args[i]);
      }
    } else if a.Applied? && b.Applied? && c.Applied? {
      AppliedCoversThrough(r, parents, a, b, c);
    }
  }

  predicate Plain(e: Effect)
  {
    e.Tag? || e.Action? || e.AppliedAction?
  }

  /** On tags, actions and applied actions no chain breaks. */
  lemma CoversTransitive(r: Registry, parents: Parents, a: Effect, b: Effect, c: Effect)
    requires GraphBacked(r, parents) && AssignablePreorder(r)
    requires Plain(a) && Plain(b) && Plain(c)
    requires Covers(r, a, b) && Covers(r, b, c)
    ensures Covers(r, a, c)
  {
    CoversThroughExactly(r, parents, a, b, c);
  }

  // Each way of breaking has inputs, for every registry that allows it.

  /** An ancestor of the error tag covers its applied form, but not the `Error` form below it. */
  lemma BreaksAboveErrorTag(r: Registry, parent: TagId, ty: TypeId)
    requires AssignablePreorder(r) && parent != ErrorTag && r.tagExtends(ErrorTag, parent) && parent !in r.memoryTags && ErrorTag !in r.memoryTags
    ensures Covers(r, Applied(parent, [ty]), Applied(ErrorTag, [ty])) && Covers(r, Applied(ErrorTag, [ty]), Error(ty))
    ensures ChainBreaks(r, Applied(parent, [ty]), Applied(ErrorTag, [ty]), Error(ty)) && !Covers(r, Applied(parent, [ty]), Error(ty))
  {
  }

  /** The `Error` form covers the applied error tag, but not the descendants that one covers. */
  lemma BreaksBelowErrorTag(r: Registry, child: TagId, ty: TypeId)
    requires AssignablePreorder(r) && child != ErrorTag && r.tagExtends(child, ErrorTag) && ErrorTag !in r.memoryTags
    ensures Covers(r, Error(ty), Applied(ErrorTag, [ty])) && Covers(r, Applied(ErrorTag, [ty]), Applied(child, [ty]))
    ensures ChainBreaks(r, Error(ty), Applied(ErrorTag, [ty]), Applied(child, [ty])) && !Covers(r, Error(ty), Applied(child, [ty]))
  {
  }

  /** A non-memory ancestor compares by assignability what the memory tag below it compared by place. */
  lemma BreaksAboveMemoryTag(r: Registry, parent: TagId, memory: TagId, x: TypeId, y: TypeId, z: TypeId)
    requires parent !in r.memoryTags && memory in r.memoryTags && TagCovers(r, parent, memory)
    requires r.assignable(x, y) && MemoryPlaceContains(r, y, z) && !r.assignable(x, z)
    ensures Covers(r, Applied(parent, [x]), Applied(memory, [y])) && Covers(r, Applied(memory, [y]), Applied(memory, [z]))
    ensures ChainBreaks(r, Applied(parent, [x]), Applied(memory, [y]), Applied(memory, [z])) && !Covers(r, Applied(parent, [x]), Applied(memory, [z]))
  {
  }

  /** Were the error tag itself a memory tag, its applied form and the `Error` form would disagree on types. */
  lemma BreaksOnMemoryErrorTag(r: Registry, x: TypeId, y: TypeId, z: TypeId)
    requires ErrorTag in r.memoryTags
    ensures MemoryPlaceContains(r, x, y) && r.assignable(y, z) && !r.assignable(x, z) ==>
              ChainBreaks(r, Applied(ErrorTag, [x]), Applied(ErrorTag, [y]), Error(z)) && !Covers(r, Applied(ErrorTag, [x]), Error(z))
    ensures r.assignable(x, y) && MemoryPlaceContains(r, y, z) && !r.assignable(x, z) ==>
              ChainBreaks(r, Error(x), Applied(ErrorTag, [y]), Applied(ErrorTag, [z])) && !Covers(r, Error(x), Applied(ErrorTag, [z]))
    ensures r.assignable(x, y) && r.assignable(y, z) && !MemoryPlaceContains(r, x, z) ==>
              ChainBreaks(r, Applied(ErrorTag, [x]), Error(y), Applied(ErrorTag, [z])) && !Covers(r, Applied(ErrorTag, [x]), Applied(ErrorTag, [z]))
  {
  }

  // ----- Rows. -----

  /** A chain from the allowed row through the middle row to the effect. */
  predicate Chain(r: Registry, a: EffectRow, b: EffectRow, x: Effect, y: Effect, e: Effect)
  {
    x in a.effects && y in b.effects && Covers(r, x, y) && Covers(r, y, e)
  }

  ghost predicate UnbrokenChain(r: Registry, a: EffectRow, b: EffectRow, e: Effect)
  {
    exists x, y :: Chain(r, a, b, x, y, e) && !ChainBreaks(r, x, y, e)
  }

  /** An effect of the allowed row that is on no chain to `e` covers it all the same. */
  ghost predicate CoveredAside(r: Registry, a: EffectRow, b: EffectRow, e: Effect)
  {
    exists x :: x in a.effects && Covers(r, x, e) && forall y :: !Chain(r, a, b, x, y, e)
  }

  /**
   * For all rows in a chain of coverage, an open allowed row covers everything; a closed one covers
   * exactly the effects with an unbroken chain or an effect beside the chains.
   */
  lemma RowCoversThroughExactly(r: Registry, parents: Parents, a: EffectRow, b: EffectRow, c: EffectRow)
    requires GraphBacked(r, parents) && AssignablePreorder(r)
    requires RowCovers(r, a, b) && RowCovers(r, b, c)
    ensures RowCovers(r, a, c) <==>
              a.open.Some? || forall e :: e in c.effects ==> UnbrokenChain(r, a, b, e) || CoveredAside(r, a, b, e)
  {
    forall x, y, e | Chain(r, a, b, x, y, e)
      ensures Covers(r, x, e) <==> !ChainBreaks(r, x, y, e)
    {
      CoversThroughExactly(r, parents, x, y, e);
    }
    forall e | e in c.effects
      ensures CoveredBy(r, a.effects, e) <==> UnbrokenChain(r, a, b, e) || CoveredAside(r, a, b, e)
    {
      if x :| x in a.effects && Covers(r, x, e) {
        if y :| Chain(r, a, b, x, y, e) {
          assert !ChainBreaks(r, x, y, e);
        }
      }
    }
  }

  /** Rows are transitive when no chain between them breaks; rows of plain effects never have a breaking one. */
  lemma RowCoversTransitive(r: Registry, parents: Parents, a: EffectRow, b: EffectRow, c: EffectRow)
    requires GraphBacked(r, parents) && AssignablePreorder(r)
    requires forall x, y, e :: Chain(r, a, b, x, y, e) && e in c.effects ==> !ChainBreaks(r, x, y, e)
    requires RowCovers(r, a, b) && RowCovers(r, b, c)
    ensures RowCovers(r, a, c)
  {
    if a.open.None? {
      forall e | e in c.effects
        ensures UnbrokenChain(r, a, b, e)
      {
        assert CoveredBy(r, b.effects, e);
        var y :| y in b.effects && Covers(r, y, e);
        assert CoveredBy(r, a.effects, y);
        var x :| x in a.effects && Covers(r, x, y);
        assert Chain(r, a, b, x, y, e);
      }
    }
    RowCoversThroughExactly(r, parents, a, b, c);
  }

  lemma PlainRowCoversTransitive(r: Registry, parents: Parents, a: EffectRow, b: EffectRow, c: EffectRow)
    requires GraphBacked(r, parents) && AssignablePreorder(r)
    requires forall e :: e in a.effects || e in b.effects || e in c.effects ==> Plain(e)
    requires RowCovers(r, a, b) && RowCovers(r, b, c)
    ensures RowCovers(r, a, c)
  {
    RowCoversTransitive(r, parents, a, b, c);
  }

  /** A row is covered exactly when nothing of it is left uncovered. */
  lemma RowCoversIffNothingUncovered(r: Registry, allowed: EffectRow, actual: EffectRow)
    ensures RowCovers(r, allowed, actual) <==> RowUncoveredBy(r, allowed, actual) == EmptyRow
  {
    var left := RowUncoveredBy(r, allowed, actual);
    if left == EmptyRow && allowed.open.None? {
      forall e | e in actual.effects
        ensures CoveredBy(r, allowed.effects, e)
      {
        assert e !in left.effects;
      }
    }
  }

  // ----- Disjointness. -----

  /** The only tag registered for the error core effect is the error tag. */
  predicate SoleErrorTag(r: Registry)
  {
    r.errorCore.None? || r.errorCore.value == ErrorTag
  }

  lemma CoveredNotDisjoint(r: Registry, allowed: Effect, actual: Effect)
    requires SoleErrorTag(r) && Covers(r, allowed, actual)
    ensures !EffectsDisjoint(r, allowed, actual) && !EffectsDisjoint(r, actual, allowed)
  {
  }

  /** Disjoint rows are unchanged by subtracting each other. */
  lemma DisjointRowsSubtract(r: Registry, left: EffectRow, right: EffectRow)
    requires SoleErrorTag(r) && RowsDisjoint(r, left, right)
    ensures SubtractHandled(r, left, right) == left
    ensures SubtractHandled(r, right, left) == right
  {
    forall a, b | a in left.effects && b in right.effects
      ensures !Covers(r, a, b) && !Covers(r, b, a)
    {
      assert EffectsDisjoint(r, a, b);
      if Covers(r, a, b) {
        CoveredNotDisjoint(r, a, b);
      }
      if Covers(r, b, a) {
        CoveredNotDisjoint(r, b, a);
      }
    }
    assert SubtractHandled(r, left, right).effects == left.effects;
    assert SubtractHandled(r, right, left).effects == right.effects;
  }

  // ----- Trace-spec patterns. -----

  datatype BoundTarget = ActionBound(action: ActionRef) | TagBound(tag: TagId)

  datatype ArgBound = ArgBound(target: BoundTarget, argIndex: nat, name: string, specSymbol: nat, specArgs: seq<TypeId>)

  datatype TraceSpecPattern = TraceSpecPattern(row: EffectRow, text: string, argBounds: seq<ArgBound>)

  /** `satisfies` is the spec solver. */
  predicate BoundsMatch(p: TraceSpecPattern, allowed: Effect, actual: Effect, satisfies: (TypeId, ArgBound) -> bool)
  {
    if allowed.AppliedAction? && actual.AppliedAction? && allowed.action == actual.action then
      forall i :: 0 <= i < |p.argBounds| && p.argBounds[i].target == ActionBound(allowed.action) ==>
        var bound := p.argBounds[i];
        && bound.argIndex < |actual.args|
        && actual.args[bound.argIndex].TypeArg?
        && satisfies(actual.args[bound.argIndex].ty, bound)
    else p.argBounds == []
  }

  predicate MatchesEffect(r: Registry, satisfies: (TypeId, ArgBound) -> bool, p: TraceSpecPattern, e: Effect)
  {
    exists allowed :: allowed in p.row.effects && Covers(r, allowed, e) && BoundsMatch(p, allowed, e, satisfies)
  }

  function ActionOf(e: Effect): Option<ActionRef>
  {
    if IsAction(e) then Some(e.action) else None
  }

  /** Two concrete type arguments that are assignable in neither direction. */
  predicate Incompatible(r: Registry, action: ActionRef, i: nat, left: EffectArg, right: EffectArg)
  {
    && KindAt(r, action, i) == Some(TypeKind)
    && left.TypeArg? && right.TypeArg?
    && r.comparable(left.ty, right.ty)
    && !r.assignable(left.ty, right.ty) && !r.assignable(right.ty, left.ty)
  }

  predicate SomeIncompatible(r: Registry, left: Effect, right: Effect)
    requires left.AppliedAction? && right.AppliedAction?
  {
    left.action in r.signatures &&
    exists i :: 0 <= i < |left.args| && i < |right.args| && Incompatible(r, left.action, i, left.args[i], right.args[i])
  }

  predicate MayMatchCandidate(r: Registry, candidate: Effect, e: Effect)
  {
    if ActionOf(candidate).Some? && ActionOf(e).Some? && ActionOf(candidate) != ActionOf(e) then false
    else if candidate.AppliedAction? && e.AppliedAction? && candidate.action == e.action && SomeIncompatible(r, candidate, e) then false
    else !RowsDisjoint(r, Closed({candidate}), Closed({e}))
  }

  predicate MayMatchEffect(r: Registry, p: TraceSpecPattern, e: Effect)
  {
    p.row.open.Some? || exists candidate :: candidate in p.row.effects && MayMatchCandidate(r, candidate, e)
  }

  lemma CoveredMayMatch(r: Registry, allowed: Effect, e: Effect)
    requires SoleErrorTag(r) && Covers(r, allowed, e)
    ensures MayMatchCandidate(r, allowed, e)
  {
    CoveredNotDisjoint(r, allowed, e);
    assert allowed in Closed({allowed}).effects && e in Closed({e}).effects;
    if allowed.AppliedAction? && e.AppliedAction? {
      forall i | 0 <= i < |allowed.args| && i < |e.args|
        ensures !Incompatible(r, allowed.action, i, allowed.args[i], e.args[i])
      {
        assert KindCovers(r, KindAt(r, allowed.action, i), allowed.args[i], e.args[i]);
      }
    }
  }

  /** What the monitor and the verdicts use of a pattern. */
  function AsPattern(r: Registry, satisfies: (TypeId, ArgBound) -> bool, p: TraceSpecPattern): Pattern
  {
    Pattern(e => MatchesEffect(r, satisfies, p, e), e => MayMatchEffect(r, p, e))
  }

  /** A proven match is never excluded: must-match implies may-match for every pattern. */
  lemma MustImpliesMay(r: Registry, satisfies: (TypeId, ArgBound) -> bool, p: TraceSpecPattern)
    requires SoleErrorTag(r)
    ensures Coherent(AsPattern(r, satisfies, p))
  {
    forall e | MatchesEffect(r, satisfies, p, e)
      ensures MayMatchEffect(r, p, e)
    {
      var allowed :| allowed in p.row.effects && Covers(r, allowed, e) && BoundsMatch(p, allowed, e, satisfies);
      CoveredMayMatch(r, allowed, e);
    }
  }
}
