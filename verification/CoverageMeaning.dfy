/** What coverage, disjointness and pattern matching mean for concrete requests. */
module CoverageMeaning {
  import opened Prelude
  import opened Effects
  import opened Extensions
  import opened Coverage

  // ----- Requests. -----

  /** What can be requested: a tag as such, an action as such, or an action with its arguments. */
  datatype Request = TagRequest(tag: TagId) | WholeAction(action: ActionRef) | Performed(action: ActionRef, args: seq<EffectArg>)

  ghost predicate Under(parents: Parents, actual: TagId, allowed: TagId)
  {
    Reachable(parents, actual, allowed)
  }

  /** The place an argument names, if it names one. */
  function PlaceOf(r: Registry, x: EffectArg): Option<seq<string>>
  {
    if x.PathArg? then Some(x.segments)
    else if x.TypeArg? && x.ty in r.memoryPlaces then Some(r.memoryPlaces[x.ty])
    else None
  }

  ghost predicate StartsWith(long: seq<string>, short: seq<string>)
  {
    exists rest :: long == short + rest
  }

  ghost predicate EndsWith(long: seq<string>, short: seq<string>)
  {
    exists rest :: long == rest + short
  }

  /** The arguments one argument stands for: types by assignability, anything else for itself. */
  ghost predicate PlainArg(r: Registry, x: EffectArg, y: EffectArg)
  {
    if x.TypeArg? then y.TypeArg? && r.assignable(x.ty, y.ty) else x == y
  }

  /**
   * A wildcard stands for everything; a memory place for the places below it; a resource path for the
   * paths that end in it.
   */
  ghost predicate ArgStands(r: Registry, kind: Option<ArgKind>, x: EffectArg, y: EffectArg)
  {
    if x.WildcardArg? then true
    else if kind == Some(MemoryPlaceKind) && (x.PathArg? || x.TypeArg?) then
      PlaceOf(r, x).Some? && PlaceOf(r, y).Some? && StartsWith(PlaceOf(r, y).value, PlaceOf(r, x).value)
    else if kind == Some(StaticResourcePathKind) && x.PathArg? then
      y.PathArg? && x.segments != [] && EndsWith(y.segments, x.segments)
    else PlainArg(r, x, y)
  }

  /** The requests a tag, an action or an applied action stands for. */
  ghost predicate Stands(r: Registry, parents: Parents, e: Effect, x: Request)
  {
    match e
    case Tag(t) => Under(parents, if x.TagRequest? then x.tag else x.action.tag, t)
    case Action(a) => !x.TagRequest? && x.action == a
    case AppliedAction(a, args) =>
      x.Performed? && x.action == a && |x.args| == |args| && forall i :: 0 <= i < |args| ==> ArgStands(r, KindAt(r, a, i), args[i], x.args[i])
    case _ => false
  }

  lemma PrefixIs(short: seq<string>, long: seq<string>)
    ensures short <= long <==> StartsWith(long, short)
  {
    if short <= long {
      assert long == short + long[|short|..];
    }
  }

  lemma SuffixIs(short: seq<string>, long: seq<string>)
    ensures PathMatches(short, long) <==> short != [] && EndsWith(long, short)
  {
    if PathMatches(short, long) {
      assert long == long[..|long| - |short|] + short;
    }
    if rest :| long == rest + short {
      assert long[|long| - |short|..] == short;
    }
  }

  lemma MemoryArgExactly(r: Registry, x: EffectArg, y: EffectArg)
    ensures MemoryArgContains(r, x, y) <==> ArgStands(r, Some(MemoryPlaceKind), x, y)
  {
    var a, b := PlaceOf(r, x), PlaceOf(r, y);
    assert a == Segments(r, x) && b == Segments(r, y);
    if a.Some? && b.Some? {
      PrefixIs(a.value, b.value);
    }
  }

  lemma ResourceArgExactly(r: Registry, x: EffectArg, y: EffectArg)
    ensures ResourceArgCovers(r, x, y) <==> ArgStands(r, Some(StaticResourcePathKind), x, y)
  {
    if x.PathArg? && y.PathArg? {
      SuffixIs(x.segments, y.segments);
    }
  }

  /** Coverage of single arguments, kind by kind. */
  lemma ArgCoversExactly(r: Registry, kind: Option<ArgKind>, x: EffectArg, y: EffectArg)
    ensures KindCovers(r, kind, x, y) <==> ArgStands(r, kind, x, y)
  {
    MemoryArgExactly(r, x, y);
    ResourceArgExactly(r, x, y);
  }

  lemma TagCoversExactly(r: Registry, parents: Parents, allowed: TagId, actual: TagId)
    requires GraphBacked(r, parents)
    ensures TagCovers(r, allowed, actual) <==> Under(parents, actual, allowed)
  {
    ReachSelf(parents, actual);
  }

  // ----- Coverage is inclusion of requests. -----

  function AsEffect(x: Request): Effect
  {
    match x
    case TagRequest(t) => Tag(t)
    case WholeAction(a) => Action(a)
    case Performed(a, args) => AppliedAction(a, args)
  }

  /** A tag, action or applied action covers exactly the requests it stands for. */
  lemma StandsExactly(r: Registry, parents: Parents, e: Effect, x: Request)
    requires GraphBacked(r, parents) && Plain(e)
    ensures Covers(r, e, AsEffect(x)) <==> Stands(r, parents, e, x)
  {
    if e.Tag? {
      TagCoversExactly(r, parents, e.tag, if x.TagRequest? then x.tag else x.action.tag);
    } else if e.AppliedAction? && x.Performed? {
      forall i | 0 <= i < |e.args| && i < |x.args|
        ensures KindCovers(r, KindAt(r, e.action, i), e.args[i], x.args[i]) <==> ArgStands(r, KindAt(r, e.action, i), e.args[i], x.args[i])
      {
        ArgCoversExactly(r, KindAt(r, e.action, i), e.args[i], x.args[i]);
      }
    }
  }

  ghost predicate Within(r: Registry, parents: Parents, inner: Effect, outer: Effect)
  {
    forall x :: Stands(r, parents, inner, x) ==> Stands(r, parents, outer, x)
  }

  /** Every argument stands for itself: memory arguments name a place and resource paths are not empty. */
  ghost predicate Proper(r: Registry, e: Effect)
  {
    e.AppliedAction? ==> forall i :: 0 <= i < |e.args| ==> ArgStands(r, KindAt(r, e.action, i), e.args[i], e.args[i])
  }

  lemma ImproperExactly(r: Registry, kind: Option<ArgKind>, x: EffectArg)
    requires AssignablePreorder(r)
    ensures !ArgStands(r, kind, x, x) <==>
              || (kind == Some(MemoryPlaceKind) && x.TypeArg? && x.ty !in r.memoryPlaces)
              || (kind == Some(StaticResourcePathKind) && x == PathArg([]))
  {
    if PlaceOf(r, x).Some? {
      PrefixIs(PlaceOf(r, x).value, PlaceOf(r, x).value);
    }
    if x.PathArg? {
      SuffixIs(x.segments, x.segments);
    }
  }

  function RequestOf(e: Effect): Request
    requires Plain(e)
  {
    match e
    case Tag(t) => TagRequest(t)
    case Action(a) => WholeAction(a)
    case AppliedAction(a, args) => Performed(a, args)
  }

  lemma OwnRequest(r: Registry, parents: Parents, e: Effect)
    requires Plain(e) && Proper(r, e)
    ensures Stands(r, parents, e, RequestOf(e)) && AsEffect(RequestOf(e)) == e
  {
    if e.Tag? {
      ReachSelf(parents, e.tag);
    }
  }

  /** Coverage is sound for requests, and where arguments are proper it is exactly their inclusion. */
  lemma CoversIsInclusion(r: Registry, parents: Parents, a: Effect, b: Effect)
    requires GraphBacked(r, parents) && AssignablePreorder(r) && Plain(a) && Plain(b)
    ensures Covers(r, a, b) ==> Within(r, parents, b, a)
    ensures Proper(r, b) ==> (Covers(r, a, b) <==> Within(r, parents, b, a))
  {
    if Covers(r, a, b) {
      forall x | Stands(r, parents, b, x)
        ensures Stands(r, parents, a, x)
      {
        StandsExactly(r, parents, b, x);
        CoversTransitive(r, parents, a, b, AsEffect(x));
        StandsExactly(r, parents, a, x);
      }
    }
    if Proper(r, b) && Within(r, parents, b, a) {
      OwnRequest(r, parents, b);
      StandsExactly(r, parents, a, RequestOf(b));
    }
  }

  ghost predicate RowStands(r: Registry, parents: Parents, effects: set<Effect>, x: Request)
  {
    exists e :: e in effects && Stands(r, parents, e, x)
  }

  ghost predicate PlainRow(r: Registry, effects: set<Effect>)
  {
    forall e :: e in effects ==> Plain(e) && Proper(r, e)
  }

  lemma CoveredByExactly(r: Registry, parents: Parents, handled: set<Effect>, e: Effect)
    requires GraphBacked(r, parents) && (forall h :: h in handled ==> Plain(h)) && Plain(e)
    ensures CoveredBy(r, handled, e) <==> RowStands(r, parents, handled, RequestOf(e))
  {
    assert AsEffect(RequestOf(e)) == e;
    forall h | h in handled
      ensures Covers(r, h, e) <==> Stands(r, parents, h, RequestOf(e))
    {
      StandsExactly(r, parents, h, RequestOf(e));
    }
  }

  /** An open row covers every row; a closed one exactly the closed rows all of whose requests are its own. */
  lemma RowCoversIsInclusion(r: Registry, parents: Parents, allowed: EffectRow, actual: EffectRow)
    requires GraphBacked(r, parents) && AssignablePreorder(r) && PlainRow(r, allowed.effects) && PlainRow(r, actual.effects)
    ensures RowCovers(r, allowed, actual) <==>
              allowed.open.Some? || (actual.open.None? && forall x :: RowStands(r, parents, actual.effects, x) ==> RowStands(r, parents, allowed.effects, x))
  {
    if allowed.open.None? && actual.open.None? {
      if RowCovers(r, allowed, actual) {
        forall x | RowStands(r, parents, actual.effects, x)
          ensures RowStands(r, parents, allowed.effects, x)
        {
          var e :| e in actual.effects && Stands(r, parents, e, x);
          var h :| h in allowed.effects && Covers(r, h, e);
          CoversIsInclusion(r, parents, h, e);
        }
      }
      if forall x :: RowStands(r, parents, actual.effects, x) ==> RowStands(r, parents, allowed.effects, x) {
        forall e | e in actual.effects
          ensures CoveredBy(r, allowed.effects, e)
        {
          OwnRequest(r, parents, e);
          assert RowStands(r, parents, actual.effects, RequestOf(e));
          CoveredByExactly(r, parents, allowed.effects, e);
        }
      }
    }
  }

  /** Subtracting handled effects leaves the tail and exactly the effects whose request is not handled. */
  lemma SubtractExactly(r: Registry, parents: Parents, body: EffectRow, handled: EffectRow, e: Effect)
    requires GraphBacked(r, parents) && (forall h :: h in handled.effects ==> Plain(h)) && Plain(e)
    ensures SubtractHandled(r, body, handled).open == body.open
    ensures e in SubtractHandled(r, body, handled).effects <==> e in body.effects && !RowStands(r, parents, handled.effects, RequestOf(e))
  {
    CoveredByExactly(r, parents, handled.effects, e);
  }

  // ----- Applied tags, errors and variables. -----

  /** Types are compared in place, one memory type by its place. */
  ghost predicate TypesStand(r: Registry, allowed: Effect, actual: Effect)
    requires allowed.Applied? && actual.Applied?
  {
    if |allowed.types| == 1 && |actual.types| == 1 && allowed.tag in r.memoryTags then
      && allowed.tag == actual.tag && allowed.types[0] in r.memoryPlaces && actual.types[0] in r.memoryPlaces
      && StartsWith(r.memoryPlaces[actual.types[0]], r.memoryPlaces[allowed.types[0]])
    else
      |allowed.types| == |actual.types| && forall i :: 0 <= i < |allowed.types| ==> r.assignable(allowed.types[i], actual.types[i])
  }

  /** An error is one error type under the error tag. */
  function ErrorType(e: Effect): Option<TypeId>
  {
    match e
    case Error(ty) => Some(ty)
    case Applied(tag, types) => if tag == ErrorTag && |types| == 1 then Some(types[0]) else None
    case _ => None
  }

  /**
   * Outside tags and actions: applied tags cover applied tags below them with matching types, errors are
   * compared by their type in either form, a tag covers an applied tag only without types, a variable
   * covers itself, and nothing else covers anything.
   */
  lemma TypedCoversExactly(r: Registry, parents: Parents, a: Effect, b: Effect)
    requires GraphBacked(r, parents) && !(Plain(a) && Plain(b))
    ensures Covers(r, a, b) <==>
              || (a.Applied? && b.Applied? && Under(parents, b.tag, a.tag) && TypesStand(r, a, b))
              || ((a.Error? || b.Error?) && ErrorType(a).Some? && ErrorType(b).Some? && r.assignable(ErrorType(a).value, ErrorType(b).value))
              || (a.Tag? && b.Applied? && b.types == [] && Under(parents, b.tag, a.tag))
              || (a.Var? && a == b)
  {
    if (a.Applied? || a.Tag?) && b.Applied? {
      TagCoversExactly(r, parents, a.tag, b.tag);
    }
    if a.Applied? && b.Applied? && |a.types| == 1 && |b.types| == 1 && a.types[0] in r.memoryPlaces && b.types[0] in r.memoryPlaces {
      PrefixIs(r.memoryPlaces[a.types[0]], r.memoryPlaces[b.types[0]]);
    }
  }

  // ----- Disjointness. -----

  /** The tag an effect is filed under: its own, its action's when that is registered, or the error tag's. */
  function HomeTag(r: Registry, e: Effect): Option<TagId>
  {
    if e.Tag? || e.Applied? then Some(e.tag)
    else if IsAction(e) then (if e.action in r.signatures then Some(e.action.tag) else None)
    else if e.Error? then r.errorCore
    else None
  }

  ghost predicate Unrelated(r: Registry, parents: Parents, a: Effect, b: Effect)
  {
    var s, t := HomeTag(r, a), HomeTag(r, b);
    && s.Some? && s.value in r.named && t.Some? && t.value in r.named
    && !Under(parents, s.value, t.value) && !Under(parents, t.value, s.value)
  }

  lemma DisjointExactly(r: Registry, parents: Parents, a: Effect, b: Effect)
    requires GraphBacked(r, parents)
    ensures EffectsDisjoint(r, a, b) <==> Unrelated(r, parents, a, b)
  {
    if HomeTag(r, a).Some? {
      ReachSelf(parents, HomeTag(r, a).value);
    }
  }

  ghost predicate Meet(r: Registry, parents: Parents, a: Effect, b: Effect)
  {
    exists x :: Stands(r, parents, a, x) && Stands(r, parents, b, x)
  }

  /**
   * Disjoint tags and actions share a request exactly when both are tags with a common descendant: the
   * code does not look for one.
   */
  lemma DisjointMeetExactly(r: Registry, parents: Parents, a: Effect, b: Effect)
    requires GraphBacked(r, parents) && Plain(a) && Plain(b) && EffectsDisjoint(r, a, b)
    ensures Meet(r, parents, a, b) <==> a.Tag? && b.Tag? && exists c :: Under(parents, c, a.tag) && Under(parents, c, b.tag)
  {
    DisjointExactly(r, parents, a, b);
    ReachSelf(parents, HomeTag(r, a).value);
    if x :| Stands(r, parents, a, x) && Stands(r, parents, b, x) {
      if a.Tag? && b.Tag? {
        var c := if x.TagRequest? then x.tag else x.action.tag;
        assert Under(parents, c, a.tag) && Under(parents, c, b.tag);
      }
    }
    if a.Tag? && b.Tag? {
      if c :| Under(parents, c, a.tag) && Under(parents, c, b.tag) {
        assert Stands(r, parents, a, TagRequest(c)) && Stands(r, parents, b, TagRequest(c));
      }
    }
  }

  /** Two unrelated tags with a common descendant count as disjoint although its requests are requests of both. */
  lemma SharedDescendant(r: Registry)
    requires GraphBacked(r, map[3 := {1, 2}]) && {1, 2} <= r.named
    ensures EffectsDisjoint(r, Tag(1), Tag(2)) && Meet(r, map[3 := {1, 2}], Tag(1), Tag(2))
  {
    var parents: Parents := map[3 := {1, 2}];
    OnlySelf(parents, 1);
    OnlySelf(parents, 2);
    ReachStep(parents, 3, 1);
    ReachStep(parents, 3, 2);
    assert Stands(r, parents, Tag(1), TagRequest(3)) && Stands(r, parents, Tag(2), TagRequest(3));
  }

  lemma OnlySelf(parents: Parents, a: TagId)
    requires a !in parents
    ensures forall b :: Reachable(parents, a, b) ==> a == b
  {
    forall b | Reachable(parents, a, b)
      ensures a == b
    {
      var p :| Path(parents, p) && p[0] == a && p[|p| - 1] == b;
      assert |p| > 1 ==> Direct(parents, p[0], p[1]);
    }
  }

  // ----- Patterns. -----

  /** Every bound on the action is met by the type at its argument. */
  ghost predicate BoundsMet(p: TraceSpecPattern, a: ActionRef, args: seq<EffectArg>, satisfies: (TypeId, ArgBound) -> bool)
  {
    forall b :: b in p.argBounds && b.target == ActionBound(a) ==>
      b.argIndex < |args| && args[b.argIndex].TypeArg? && satisfies(args[b.argIndex].ty, b)
  }

  /**
   * A pattern over tags and actions surely matches a request exactly when one of its effects stands for
   * it; with bounds, when that is an applied action and all bounds on it are met.
   */
  lemma MatchesExactly(r: Registry, parents: Parents, satisfies: (TypeId, ArgBound) -> bool, p: TraceSpecPattern, x: Request)
    requires GraphBacked(r, parents) && forall e :: e in p.row.effects ==> Plain(e)
    ensures MatchesEffect(r, satisfies, p, AsEffect(x)) <==>
              exists e :: e in p.row.effects && Stands(r, parents, e, x)
                          && (if e.AppliedAction? then BoundsMet(p, e.action, x.args, satisfies) else p.argBounds == [])
  {
    forall e | e in p.row.effects
      ensures Covers(r, e, AsEffect(x)) <==> Stands(r, parents, e, x)
    {
      StandsExactly(r, parents, e, x);
    }
    forall e | e in p.row.effects && Stands(r, parents, e, x)
      ensures BoundsMatch(p, e, AsEffect(x), satisfies) <==>
                if e.AppliedAction? then BoundsMet(p, e.action, x.args, satisfies) else p.argBounds == []
    {
      BoundsMatchExactly(p, e, x, satisfies);
    }
  }

  lemma BoundsMatchExactly(p: TraceSpecPattern, e: Effect, x: Request, satisfies: (TypeId, ArgBound) -> bool)
    requires Plain(e) && (e.AppliedAction? ==> x.Performed? && x.action == e.action)
    ensures BoundsMatch(p, e, AsEffect(x), satisfies) <==>
              if e.AppliedAction? then BoundsMet(p, e.action, x.args, satisfies) else p.argBounds == []
  {
    if e.AppliedAction? {
      if BoundsMatch(p, e, AsEffect(x), satisfies) {
        forall b | b in p.argBounds && b.target == ActionBound(e.action)
          ensures b.argIndex < |x.args| && x.args[b.argIndex].TypeArg? && satisfies(x.args[b.argIndex].ty, b)
        {
          var i :| 0 <= i < |p.argBounds| && p.argBounds[i] == b;
        }
      }
    }
  }

  /** Why a pattern's effect cannot match: another action, types that clash, or unrelated tags. */
  ghost predicate Excluded(r: Registry, parents: Parents, candidate: Effect, e: Effect)
  {
    || (IsAction(candidate) && IsAction(e) && candidate.action != e.action)
    || (candidate.AppliedAction? && e.AppliedAction? && TypesClash(r, candidate, e))
    || Unrelated(r, parents, candidate, e)
  }

  /** At some registered type argument both types are comparable and neither is assignable to the other. */
  ghost predicate TypesClash(r: Registry, a: Effect, b: Effect)
    requires a.AppliedAction? && b.AppliedAction?
  {
    a.action == b.action &&
    exists i :: 0 <= i < |a.args| && i < |b.args| && KindAt(r, a.action, i) == Some(TypeKind) && ClashAt(r, a.args[i], b.args[i])
  }

  predicate ClashAt(r: Registry, x: EffectArg, y: EffectArg)
  {
    x.TypeArg? && y.TypeArg? && r.comparable(x.ty, y.ty) && !r.assignable(x.ty, y.ty) && !r.assignable(y.ty, x.ty)
  }

  /** A match is possible exactly when the row is open or one of its effects is not excluded. */
  lemma MayMatchExactly(r: Registry, parents: Parents, p: TraceSpecPattern, e: Effect)
    requires GraphBacked(r, parents)
    ensures MayMatchEffect(r, p, e) <==> p.row.open.Some? || exists c :: c in p.row.effects && !Excluded(r, parents, c, e)
  {
    forall c
      ensures MayMatchCandidate(r, c, e) <==> !Excluded(r, parents, c, e)
    {
      CandidateExactly(r, parents, c, e);
    }
  }

  lemma CandidateExactly(r: Registry, parents: Parents, c: Effect, e: Effect)
    requires GraphBacked(r, parents)
    ensures MayMatchCandidate(r, c, e) <==> !Excluded(r, parents, c, e)
  {
    DisjointExactly(r, parents, c, e);
    var left, right := Closed({c}), Closed({e});
    assert c in left.effects && e in right.effects;
    assert RowsDisjoint(r, left, right) <==> EffectsDisjoint(r, c, e);
    if c.AppliedAction? && e.AppliedAction? {
      ClashExactly(r, c, e);
    }
  }

  lemma ClashExactly(r: Registry, c: Effect, e: Effect)
    requires c.AppliedAction? && e.AppliedAction?
    ensures c.action == e.action && SomeIncompatible(r, c, e) <==> TypesClash(r, c, e)
  {
    if c.action == e.action && SomeIncompatible(r, c, e) {
      var i :| 0 <= i < |c.args| && i < |e.args| && Incompatible(r, c.action, i, c.args[i], e.args[i]);
      assert ClashAt(r, c.args[i], e.args[i]);
    }
    if TypesClash(r, c, e) {
      var i :| 0 <= i < |c.args| && i < |e.args| && KindAt(r, c.action, i) == Some(TypeKind) && ClashAt(r, c.args[i], e.args[i]);
      assert Incompatible(r, c.action, i, c.args[i], e.args[i]);
    }
  }

  /** Clashing types have nothing in common. */
  ghost predicate ClashesApart(r: Registry)
  {
    forall s, t, u :: ClashAt(r, TypeArg(s), TypeArg(t)) && r.assignable(s, u) ==> !r.assignable(t, u)
  }

  lemma ClashApart(r: Registry, x: EffectArg, y: EffectArg, z: EffectArg)
    requires ClashesApart(r) && ClashAt(r, x, y)
    ensures !(ArgStands(r, Some(TypeKind), x, z) && ArgStands(r, Some(TypeKind), y, z))
  {
  }

  /** What is excluded shares no request, for every action that is requested. */
  lemma ExcludedApart(r: Registry, parents: Parents, candidate: Effect, e: Effect)
    requires GraphBacked(r, parents) && ClashesApart(r) && Plain(candidate) && IsAction(e) && Excluded(r, parents, candidate, e)
    ensures !Meet(r, parents, candidate, e)
  {
    forall x | Stands(r, parents, e, x)
      ensures !Stands(r, parents, candidate, x)
    {
      if Unrelated(r, parents, candidate, e) {
        DisjointExactly(r, parents, candidate, e);
        DisjointMeetExactly(r, parents, candidate, e);
      } else if candidate.AppliedAction? && e.AppliedAction? && TypesClash(r, candidate, e) {
        var i :| 0 <= i < |candidate.args| && i < |e.args| && KindAt(r, candidate.action, i) == Some(TypeKind)
                 && ClashAt(r, candidate.args[i], e.args[i]);
        ClashApart(r, candidate.args[i], e.args[i], x.args[i]);
      }
    }
  }
}
