/** Substituting checked type and row arguments into a summary (crates/etas_effects/src/substitution). */
module SummarySubstitution {
  import opened Prelude
  import opened Effects
  import opened Traces
  import opened SortedLists
  import opened TraceOps
  import opened TraceMapping
  import opened SummaryValues
  import opened Exits
  import opened SummaryFacts
  import opened Passes

  datatype SubstitutionError =
    | TypeError(ty: TypeId)
    | InvalidAction(action: ActionRef)
    | InvalidStructure
    | UnboundRow(row: VarId)
    | AmbiguousRow(row: VarId)
    | ResourceLimit
    | ResidualError(reference: ResidualRef)
    | UnsupportedResidual

  /**
   * What a substitution consults: checked closed types, action signatures, the iteration order of
   * effect sets and the row bound to each variable.
   */
  datatype Context = Context(
    ty: TypeId -> Option<TypeId>,
    arity: ActionRef -> Option<nat>,
    order: set<Effect> -> seq<Effect>,
    rows: map<VarId, EffectRow>
  )

  // ----- Images: what an effect or a row becomes, whatever the budget. -----

  function TypesImage(c: Context, tys: seq<TypeId>): (r: Option<seq<TypeId>>)
    ensures r.Some? ==> |r.value| == |tys|
  {
    if tys == [] then Some([])
    else
      var rest := TypesImage(c, tys[1..]);
      if c.ty(tys[0]).Some? && rest.Some? then Some([c.ty(tys[0]).value] + rest.value) else None
  }

  /** A type as the substitution maps it, where it does. */
  function TypeOf(c: Context, t: TypeId): TypeId
  {
    if c.ty(t).Some? then c.ty(t).value else t
  }

  function TypesOf(c: Context, tys: seq<TypeId>): (r: seq<TypeId>)
    ensures |r| == |tys|
  {
    if tys == [] then [] else [TypeOf(c, tys[0])] + TypesOf(c, tys[1..])
  }

  function ArgsImage(c: Context, args: seq<EffectArg>): (r: Option<seq<EffectArg>>)
    ensures r.Some? ==> |r.value| == |args|
  {
    if args == [] then Some([])
    else
      var rest := ArgsImage(c, args[1..]);
      if rest.None? then None
      else if !args[0].TypeArg? then Some([args[0]] + rest.value)
      else if c.ty(args[0].ty).Some? then Some([TypeArg(c.ty(args[0].ty).value)] + rest.value)
      else None
  }

  function TypeArgs(args: seq<EffectArg>): nat
  {
    if args == [] then 0 else (if args[0].TypeArg? then 1 else 0) + TypeArgs(args[1..])
  }

  function Image(c: Context, e: Effect): Option<Effect>
  {
    match e
    case Tag(_) => Some(e)
    case Action(a) => if c.arity(a) == Some(0) then Some(e) else None
    case AppliedAction(a, args) =>
      var mapped := ArgsImage(c, args);
      if c.arity(a) == Some(|args|) && mapped.Some? then Some(AppliedAction(a, mapped.value)) else None
    case Applied(tag, tys) =>
      var mapped := TypesImage(c, tys);
      if mapped.Some? then Some(Applied(tag, mapped.value)) else None
    case Error(ty) => if c.ty(ty).Some? then Some(Error(c.ty(ty).value)) else None
    case Var(_) => None
  }

  function EffectCost(e: Effect): nat
  {
    match e
    case AppliedAction(_, args) => 1 + TypeArgs(args)
    case Applied(_, tys) => 1 + |tys|
    case Error(_) => 2
    case _ => 1
  }

  /** The effects that reach the image of a row: its own and those of its bound tail. */
  function RowSources(c: Context, row: EffectRow): set<Effect>
  {
    row.effects + if row.open.Some? && row.open.value in c.rows then c.rows[row.open.value].effects else {}
  }

  predicate Mappable(c: Context, es: set<Effect>)
  {
    forall e :: e in es ==> Image(c, e).Some?
  }

  predicate RowMappable(c: Context, row: EffectRow)
  {
    (row.open.Some? ==> row.open.value in c.rows) && Mappable(c, RowSources(c, row))
  }

  function ImageOf(c: Context, es: set<Effect>): set<Effect>
  {
    set e | e in es && Image(c, e).Some? :: Image(c, e).value
  }

  function RowImage(c: Context, row: EffectRow): EffectRow
  {
    Closed(ImageOf(c, RowSources(c, row)))
  }

  function RowCost(c: Context, row: EffectRow): nat
  {
    1 + EffectsCost(c.order(row.effects), EffectCost)
      + if row.open.Some? && row.open.value in c.rows then EffectsCost(c.order(c.rows[row.open.value].effects), EffectCost) else 0
  }

  /** No open tail and no effect variable. */
  predicate Ground(row: EffectRow)
  {
    row.open.None? && forall e :: e in row.effects ==> !e.Var?
  }

  // ----- Images with the budget threaded through. -----

  function SubTypes(c: Context, tys: seq<TypeId>, n: nat): (r: Result<(seq<TypeId>, nat), SubstitutionError>)
    ensures r.Ok? <==> TypesImage(c, tys).Some? && n >= |tys|
    ensures r.Ok? ==> r.value == (TypesImage(c, tys).value, n - |tys|) && r.value.0 == TypesOf(c, tys)
  {
    if tys == [] then Ok(([], n))
    else if n == 0 then Err(ResourceLimit)
    else if c.ty(tys[0]).None? then Err(TypeError(tys[0]))
    else
      var rest :- SubTypes(c, tys[1..], n - 1);
      Ok(([c.ty(tys[0]).value] + rest.0, rest.1))
  }

  function SubArgs(c: Context, args: seq<EffectArg>, n: nat): (r: Result<(seq<EffectArg>, nat), SubstitutionError>)
    ensures r.Ok? <==> ArgsImage(c, args).Some? && n >= TypeArgs(args)
    ensures r.Ok? ==> r.value == (ArgsImage(c, args).value, n - TypeArgs(args))
  {
    if args == [] then Ok(([], n))
    else if args[0].TypeArg? then
      var ty :- SubTypes(c, [args[0].ty], n);
      var rest :- SubArgs(c, args[1..], ty.1);
      Ok(([TypeArg(ty.0[0])] + rest.0, rest.1))
    else
      var rest :- SubArgs(c, args[1..], n);
      Ok(([args[0]] + rest.0, rest.1))
  }

  function SubEffect(c: Context, e: Effect, n: nat): (r: Result<(Effect, nat), SubstitutionError>)
    ensures r.Ok? <==> Image(c, e).Some? && n >= EffectCost(e)
    ensures r.Ok? ==> r.value == (Image(c, e).value, n - EffectCost(e))
  {
    if n == 0 then Err(ResourceLimit)
    else match e
      case Tag(_) => Ok((e, n - 1))
      case Action(a) => if c.arity(a) == Some(0) then Ok((e, n - 1)) else Err(InvalidAction(a))
      case AppliedAction(a, args) =>
        if c.arity(a) != Some(|args|) then Err(InvalidAction(a))
        else
          var mapped :- SubArgs(c, args, n - 1);
          Ok((AppliedAction(a, mapped.0), mapped.1))
      case Applied(tag, tys) =>
        var mapped :- SubTypes(c, tys, n - 1);
        Ok((Applied(tag, mapped.0), mapped.1))
      case Error(ty) =>
        var mapped :- SubTypes(c, [ty], n - 1);
        Ok((Error(mapped.0[0]), mapped.1))
      case Var(row) => Err(UnboundRow(row))
  }

  function SubEvent(c: Context, e: ActionEvent, n: nat): Result<(Trace, nat), SubstitutionError>
  {
    var mapped :- SubEffect(c, e.action, n);
    if IsAction(mapped.0) then Ok((Event(e.(action := mapped.0)), mapped.1)) else Err(InvalidStructure)
  }

  function Step(n: nat): Result<nat, SubstitutionError>
  {
    if n == 0 then Err(ResourceLimit) else Ok(n - 1)
  }

  /** The substitution as the mapper of the trace machine. */
  function TraceMapper(c: Context): Mapper<nat, SubstitutionError>
  {
    Mapper((n: nat) => Step(n), (e: Effect, n: nat) => SubEffect(c, e, n), (e: ActionEvent, n: nat) => SubEvent(c, e, n),
           (n: nat) => InvalidStructure, c.order)
  }

  /** Effects as the substitution renames them, where it does. */
  function Renaming(c: Context): Effect -> Effect
  {
    (e: Effect) => if Image(c, e).Some? then Image(c, e).value else e
  }

  lemma TraceMapperRenames(c: Context)
    requires Enumerates(c.order)
    ensures Renames(TraceMapper(c), Renaming(c))
  {
  }

  predicate GroundActions(es: set<Effect>)
  {
    forall e :: e in es ==> !e.Var?
  }

  lemma {:induction false} MapEffectsGround(c: Context, es: seq<Effect>, n: nat)
    requires MapEffects(TraceMapper(c), es, n).Ok?
    ensures GroundActions(Elems(MapEffects(TraceMapper(c), es, n).value.0))
    decreases |es|
  {
    if es != [] {
      var head := SubEffect(c, es[0], n).value;
      MapEffectsGround(c, es[1..], head.1);
      ElemsAppend([head.0], MapEffects(TraceMapper(c), es[1..], head.1).value.0);
    }
  }

  lemma {:induction false} MapRecGround(c: Context, t: Trace, n: nat)
    requires MapRec(TraceMapper(c), t, n).Ok?
    ensures GroundActions(Actions(MapRec(TraceMapper(c), t, n).value.0))
    decreases t, 0
  {
    var m := TraceMapper(c);
    var s1 := m.checkpoint(n).value;
    if Compound(t) {
      MapAllGround(c, t.parts, Checkpoints(m, |t.parts|, s1).value);
    } else if Wrapper(t) {
      MapRecGround(c, t.inner, s1);
    } else if t.UnknownOrder? {
      MapEffectsGround(c, m.order(t.actions), s1);
    } else if t.Widened? {
      MapEffectsGround(c, m.order(t.actions), Checkpoints(m, |t.calls|, s1).value);
    }
  }

  lemma {:induction false} MapAllGround(c: Context, ts: seq<Trace>, n: nat)
    requires MapAll(TraceMapper(c), ts, n).Ok?
    ensures GroundActions(AllActions(MapAll(TraceMapper(c), ts, n).value.0))
    decreases ts, 1
  {
    if ts != [] {
      var m := TraceMapper(c);
      MapRecGround(c, ts[0], n);
      MapAllGround(c, ts[1..], MapRec(m, ts[0], n).value.1);
      var head, tail := MapRec(m, ts[0], n).value.0, MapAll(m, ts[1..], MapRec(m, ts[0], n).value.1).value.0;
      assert ([head] + tail)[1..] == tail;
    }
  }

  // ----- Mapping the escaping row against recomputing it. -----

  function HandlerImage(c: Context, h: DefaultHandler): DefaultHandler
  {
    DefaultHandler(Renaming(c)(h.action), RowImage(c, h.produced))
  }

  function HandlersImage(c: Context, hs: seq<DefaultHandler>): (r: seq<DefaultHandler>)
    ensures |r| == |hs| && forall i :: 0 <= i < |hs| ==> r[i] == HandlerImage(c, hs[i])
  {
    if hs == [] then [] else [HandlerImage(c, hs[0])] + HandlersImage(c, hs[1..])
  }

  function DefaultsImage(c: Context, d: DefaultEffects): DefaultEffects
  {
    DefaultEffects(RowImage(c, d.direct), HandlersImage(c, d.handlers))
  }

  /** What the tail of a row contributes to its image. */
  function TailImage(c: Context, row: EffectRow): set<Effect>
  {
    if row.open.Some? && row.open.value in c.rows then ImageOf(c, c.rows[row.open.value].effects) else {}
  }

  /** Every row's tail contributes only what the given effects already hold. */
  predicate TailsWithin(c: Context, es: set<Effect>, d: DefaultEffects)
  {
    TailImage(c, d.direct) <= es && forall i :: 0 <= i < |d.handlers| ==> TailImage(c, d.handlers[i].produced) <= es
  }

  predicate NoConflictingTails(d: DefaultEffects)
  {
    && (forall i :: 0 <= i < |d.handlers| ==> !TailsConflict(d.direct, d.handlers[i].produced))
    && (forall i, j :: 0 <= i < |d.handlers| && 0 <= j < |d.handlers| ==> !TailsConflict(d.handlers[i].produced, d.handlers[j].produced))
  }

  lemma ImageOfUnion(c: Context, a: set<Effect>, b: set<Effect>)
    ensures ImageOf(c, a + b) == ImageOf(c, a) + ImageOf(c, b)
  {
  }

  lemma {:induction false} NextEffect(c: Context, es: seq<Effect>, i: nat)
    requires i < |es|
    ensures EffectsCost(es[i..], EffectCost) == EffectCost(es[i]) + EffectsCost(es[i + 1..], EffectCost)
    ensures Image(c, es[i]).None? ==> !Mappable(c, Elems(es))
    ensures Mappable(c, Elems(es[..i])) && Image(c, es[i]).Some? ==> Mappable(c, Elems(es[..i + 1]))
    ensures Image(c, es[i]).Some? ==> ImageOf(c, Elems(es[..i + 1])) == ImageOf(c, Elems(es[..i])) + {Image(c, es[i]).value}
  {
    assert es[i..][1..] == es[i + 1..] && es[..i + 1] == es[..i] + [es[i]];
    ElemsAppend(es[..i], [es[i]]);
    assert Elems([es[i]]) == {es[i]} && es[i] in Elems(es);
    ImageOfUnion(c, Elems(es[..i]), {es[i]});
  }

  /** A row with a bound tail is mapped part by part. */
  lemma OpenRow(c: Context, row: EffectRow)
    requires row.open.Some? && row.open.value in c.rows
    ensures var bound := c.rows[row.open.value].effects;
            && ImageOf(c, RowSources(c, row)) == ImageOf(c, row.effects) + ImageOf(c, bound)
            && (Mappable(c, RowSources(c, row)) <==> Mappable(c, row.effects) && Mappable(c, bound))
  {
    ImageOfUnion(c, row.effects, c.rows[row.open.value].effects);
  }

  /** No image is an effect variable. */
  lemma ImageGround(c: Context, es: set<Effect>)
    ensures Ground(Closed(ImageOf(c, es)))
  {
  }

  lemma RowImageParts(c: Context, row: EffectRow)
    ensures RowImage(c, row) == Closed(ImageOf(c, row.effects) + TailImage(c, row))
  {
    if row.open.Some? && row.open.value in c.rows {
      ImageOfUnion(c, row.effects, c.rows[row.open.value].effects);
    }
  }

  /** Recomputing collects the images of all effects and of every tail. */
  lemma {:induction false} RecomputedEffects(c: Context, row: EffectRow, hs: seq<DefaultHandler>, e: Effect)
    ensures JoinProduced(row, HandlersImage(c, hs)).open == if row.open.Some? then row.open else None
    ensures e in JoinProduced(row, HandlersImage(c, hs)).effects <==>
              e in row.effects || exists i :: 0 <= i < |hs| && e in RowImage(c, hs[i].produced).effects
    decreases |hs|
  {
    if hs != [] {
      var mapped := HandlersImage(c, hs);
      assert mapped[1..] == HandlersImage(c, hs[1..]);
      RecomputedEffects(c, RowUnion(row, mapped[0].produced), hs[1..], e);
      if i :| 0 <= i < |hs| && e in RowImage(c, hs[i].produced).effects {
        if i > 0 {
          assert hs[1..][i - 1] == hs[i];
        }
      }
      if i :| 0 <= i < |hs[1..]| && e in RowImage(c, hs[1..][i].produced).effects {
        assert hs[i + 1] == hs[1..][i];
      }
    }
  }

  lemma {:induction false} JoinedTail(row: EffectRow, hs: seq<DefaultHandler>)
    ensures var tail := JoinProduced(row, hs).open;
            || tail == row.open
            || (row.open.None? && exists i :: 0 <= i < |hs| && tail == hs[i].produced.open)
    ensures JoinProduced(row, hs).open.None? ==> row.open.None? && forall i :: 0 <= i < |hs| ==> hs[i].produced.open.None?
    decreases |hs|
  {
    if hs != [] {
      JoinedTail(RowUnion(row, hs[0].produced), hs[1..]);
      assert forall i :: 0 < i < |hs| ==> hs[1..][i - 1] == hs[i];
      assert hs[0].produced.open == hs[0].produced.open;
    }
  }

  lemma AgreesWithinTails(c: Context, d: DefaultEffects)
    ensures RowImage(c, EscapingOf(d)) == EscapingOf(DefaultsImage(c, d))
       <==> TailsWithin(c, RowImage(c, EscapingOf(d)).effects, d)
  {
    var direct, recomputed := RowImage(c, EscapingOf(d)), EscapingOf(DefaultsImage(c, d));
    RecomputedEffects(c, RowImage(c, d.direct), d.handlers, Tag(0));
    RowImageParts(c, EscapingOf(d));
    RowImageParts(c, d.direct);
    if TailsWithin(c, direct.effects, d) {
      forall e
        ensures e in direct.effects <==> e in recomputed.effects
      {
        if e in direct.effects {
          DirectWithinRecomputed(c, d, e);
        }
        RecomputedWithinDirect(c, d, e);
      }
      assert direct.effects == recomputed.effects;
    } else {
      if !(TailImage(c, d.direct) <= direct.effects) {
        var e :| e in TailImage(c, d.direct) && e !in direct.effects;
        RecomputedEffects(c, RowImage(c, d.direct), d.handlers, e);
      } else {
        var i :| 0 <= i < |d.handlers| && !(TailImage(c, d.handlers[i].produced) <= direct.effects);
        var e :| e in TailImage(c, d.handlers[i].produced) && e !in direct.effects;
        RowImageParts(c, d.handlers[i].produced);
        RecomputedEffects(c, RowImage(c, d.direct), d.handlers, e);
      }
    }
  }

  lemma DirectWithinRecomputed(c: Context, d: DefaultEffects, e: Effect)
    requires e in RowImage(c, EscapingOf(d)).effects
    ensures e in EscapingOf(DefaultsImage(c, d)).effects
  {
    RecomputedEffects(c, RowImage(c, d.direct), d.handlers, e);
    RowImageParts(c, EscapingOf(d));
    RowImageParts(c, d.direct);
    if e in ImageOf(c, EscapingOf(d).effects) {
      var x :| x in EscapingOf(d).effects && Image(c, x).Some? && Image(c, x).value == e;
      JoinProducedEffects(d.direct, d.handlers, x);
      if x !in d.direct.effects {
        var i :| 0 <= i < |d.handlers| && x in d.handlers[i].produced.effects;
        RowImageParts(c, d.handlers[i].produced);
      }
    } else {
      JoinedTail(d.direct, d.handlers);
      if EscapingOf(d).open != d.direct.open {
        var i :| 0 <= i < |d.handlers| && EscapingOf(d).open == d.handlers[i].produced.open;
        RowImageParts(c, d.handlers[i].produced);
      }
    }
  }

  lemma RecomputedWithinDirect(c: Context, d: DefaultEffects, e: Effect)
    requires TailsWithin(c, RowImage(c, EscapingOf(d)).effects, d)
    ensures e in EscapingOf(DefaultsImage(c, d)).effects ==> e in RowImage(c, EscapingOf(d)).effects
  {
    RecomputedEffects(c, RowImage(c, d.direct), d.handlers, e);
    RowImageParts(c, EscapingOf(d));
    RowImageParts(c, d.direct);
    if e in ImageOf(c, d.direct.effects) {
      var x :| x in d.direct.effects && Image(c, x).Some? && Image(c, x).value == e;
      JoinProducedEffects(d.direct, d.handlers, x);
    }
    if i :| 0 <= i < |d.handlers| && e in RowImage(c, d.handlers[i].produced).effects {
      RowImageParts(c, d.handlers[i].produced);
      if e in ImageOf(c, d.handlers[i].produced.effects) {
        var x :| x in d.handlers[i].produced.effects && Image(c, x).Some? && Image(c, x).value == e;
        JoinProducedEffects(d.direct, d.handlers, x);
      }
    }
  }

  /** The row is one of the parts the escaping row is joined from. */
  predicate IsPart(d: DefaultEffects, row: EffectRow)
  {
    row == d.direct || exists i :: 0 <= i < |d.handlers| && d.handlers[i].produced == row
  }

  /** The effect is bound to the variable. */
  predicate BoundTo(c: Context, variable: Option<VarId>, x: Effect)
  {
    variable.Some? && variable.value in c.rows && x in c.rows[variable.value].effects
  }

  /**
   * What is bound to the tail of any part has the image of an effect of some part, or of one bound to the
   * tail that the joined row keeps.
   */
  ghost predicate NoTailLost(c: Context, d: DefaultEffects)
  {
    forall row, x :: IsPart(d, row) && BoundTo(c, row.open, x) && Image(c, x).Some? ==>
      exists y :: (y in EscapingOf(d).effects || BoundTo(c, EscapingOf(d).open, y)) && Image(c, y) == Image(c, x)
  }

  lemma NoTailLostWithin(c: Context, d: DefaultEffects)
    ensures NoTailLost(c, d) <==> TailsWithin(c, RowImage(c, EscapingOf(d)).effects, d)
  {
    var es := RowImage(c, EscapingOf(d)).effects;
    forall x | Image(c, x).Some?
      ensures Image(c, x).value in es
         <==> exists y :: (y in EscapingOf(d).effects || BoundTo(c, EscapingOf(d).open, y)) && Image(c, y) == Image(c, x)
    {
      if Image(c, x).value in es {
        var y :| y in RowSources(c, EscapingOf(d)) && Image(c, y).Some? && Image(c, y).value == Image(c, x).value;
        assert Image(c, y) == Image(c, x);
      }
    }
    if NoTailLost(c, d) {
      forall row | IsPart(d, row)
        ensures TailImage(c, row) <= es
      {
        TailWithin(c, row, es);
      }
      assert IsPart(d, d.direct);
      assert forall i :: 0 <= i < |d.handlers| ==> IsPart(d, d.handlers[i].produced);
    }
    if TailsWithin(c, es, d) {
      forall row, x | IsPart(d, row) && BoundTo(c, row.open, x) && Image(c, x).Some?
        ensures Image(c, x).value in es
      {
        assert Image(c, x).value in TailImage(c, row);
      }
    }
  }

  lemma TailWithin(c: Context, row: EffectRow, es: set<Effect>)
    requires forall x :: BoundTo(c, row.open, x) && Image(c, x).Some? ==> Image(c, x).value in es
    ensures TailImage(c, row) <= es
  {
  }

  /**
   * For every set of default effects, mapping the escaping row directly agrees with recomputing it from
   * the mapped parts exactly when nothing bound to a part's tail is lost with that tail.
   */
  lemma EscapingAgreesExactly(c: Context, d: DefaultEffects)
    ensures RowImage(c, EscapingOf(d)) == EscapingOf(DefaultsImage(c, d)) <==> NoTailLost(c, d)
  {
    AgreesWithinTails(c, d);
    NoTailLostWithin(c, d);
  }

  /** Without conflicting tails the two always agree. */
  lemma EscapingAgrees(c: Context, d: DefaultEffects)
    requires NoConflictingTails(d)
    ensures RowImage(c, EscapingOf(d)) == EscapingOf(DefaultsImage(c, d))
  {
    var escaping := EscapingOf(d);
    JoinedTail(d.direct, d.handlers);
    RowImageParts(c, escaping);
    forall i | 0 <= i < |d.handlers|
      ensures d.handlers[i].produced.open.None? || d.handlers[i].produced.open == escaping.open
    {
    }
    AgreesWithinTails(c, d);
  }

  /** With conflicting tails the second one is lost on the direct path, for every enumeration of effects. */
  lemma ConflictingTailsDisagree(order: set<Effect> -> seq<Effect>)
    requires Enumerates(order)
    ensures var c := Context(ty => Some(ty), a => Some(0), order, map[0 := EmptyRow, 1 := Closed({Tag(7)})]);
            var d := DefaultEffects(EffectRow({}, Some(0)), [DefaultHandler(Action(ActionRef(0, 0)), EffectRow({}, Some(1)))]);
            RowImage(c, EscapingOf(d)) == EmptyRow && EscapingOf(DefaultsImage(c, d)) == Closed({Tag(7)}) && !NoTailLost(c, d)
  {
    var c := Context(ty => Some(ty), a => Some(0), order, map[0 := EmptyRow, 1 := Closed({Tag(7)})]);
    var h := DefaultHandler(Action(ActionRef(0, 0)), EffectRow({}, Some(1)));
    var d := DefaultEffects(EffectRow({}, Some(0)), [h]);
    assert EscapingOf(d) == JoinProduced(RowUnion(d.direct, h.produced), []) == EffectRow({}, Some(0));
    var mapped := HandlersImage(c, [h]);
    assert mapped[1..] == [];
    assert RowImage(c, h.produced).effects == {Tag(7)} by {
      assert Image(c, Tag(7)) == Some(Tag(7));
      assert Tag(7) in RowSources(c, h.produced);
    }
    assert EscapingOf(DefaultsImage(c, d)) == JoinProduced(RowUnion(RowImage(c, d.direct), mapped[0].produced), []);
    EscapingAgreesExactly(c, d);
  }

  // ----- Whole summaries. -----

  function RequirementImage(c: Context, q: Requirement): Requirement
  {
    match q
    case AllowRequirement(pattern, text) => AllowRequirement(RowImage(c, pattern), text)
    case DenyRequirement(pattern, text) => DenyRequirement(RowImage(c, pattern), text)
    case BeforeRequirement(guard, a, target, b) => BeforeRequirement(RowImage(c, guard), a, RowImage(c, target), b)
    case AfterRequirement(target, a, obligation, b) => AfterRequirement(RowImage(c, target), a, RowImage(c, obligation), b)
    case _ => q
  }

  predicate GroundRequirement(q: Requirement)
  {
    match q
    case AllowRequirement(pattern, _) => Ground(pattern)
    case DenyRequirement(pattern, _) => Ground(pattern)
    case BeforeRequirement(guard, _, target, _) => Ground(guard) && Ground(target)
    case AfterRequirement(target, _, obligation, _) => Ground(target) && Ground(obligation)
    case _ => true
  }

  predicate GroundDefaults(d: DefaultEffects)
  {
    Ground(d.direct) && forall h :: h in d.handlers ==> GroundHandler(h)
  }

  predicate GroundRequests(q: Requests)
  {
    q.Available? ==>
      && (forall a :: a in q.actions ==> IsAction(a.action))
      && (forall p :: p in q.parameters ==> GroundActions(p.excluded))
  }

  predicate GroundParameterExit(x: ParameterExit)
  {
    (x.enclosingHandled.Some? ==> Ground(x.enclosingHandled.value)) && GroundActions(Actions(x.prefix))
  }

  predicate GroundExits(x: ExitSummary)
  {
    && (forall f :: f in x.exits ==> GroundActions(Actions(f.trace)))
    && (forall g :: g in x.handlerGaps ==> GroundHandlerGap(g))
    && GroundParameterExits(x.parameterExits)
  }

  predicate GroundParameterExits(ps: seq<ParameterExit>)
  {
    forall p :: p in ps ==> GroundParameterExit(p)
  }

  /** No effect row anywhere in the summary is open or holds a variable, and no trace acts on one. */
  predicate GroundSummary(s: FullSummary)
  {
    && GroundCore(s.core) && GroundRequirements(s.obligations) && GroundRequirements(s.requirements)
    && (s.exits.Some? ==> GroundExits(s.exits.value))
  }

  predicate GroundCore(s: Summary)
  {
    && GroundRequests(s.requests)
    && (s.defaults.Some? ==> GroundDefaults(s.defaults.value))
    && Ground(s.escaping) && Ground(s.requested) && Ground(s.defaultActions) && Ground(s.handled)
    && GroundActions(Actions(s.trace))
  }

  predicate GroundRequirements(qs: set<Requirement>)
  {
    forall q :: q in qs ==> GroundRequirement(q)
  }

  function GapImage(c: Context, g: HandlerGapEvidence): HandlerGapEvidence
  {
    HandlerGapEvidence(g.source, g.normalControl, RowImage(c, g.handled), RowImage(c, g.bodyEscaping))
  }

  function OutcomeImage(c: Context, o: CallableOutcome): CallableOutcome
  {
    match o
    case NonReturn => o
    case Raised(error) => Raised(TypeOf(c, error))
    case Returned(ty, seen) => Returned(TypeOf(c, ty), seen)
    case HandlerFinished(ty, seen) => HandlerFinished(TypeOf(c, ty), seen)
    case HandlerResumed(ty, seen) => HandlerResumed(TypeOf(c, ty), seen)
  }

  function ExitFactImage(c: Context, f: ExitFact): ExitFact
  {
    ExitFact(OutcomeImage(c, f.outcome), Rename(f.trace, Renaming(c)))
  }

  function OutcomeGapImage(c: Context, g: Gap): Gap
  {
    if g.ParameterCallGap? then g.(output := TypeOf(c, g.output)) else g
  }

  function ArgumentsImage(c: Context, args: seq<ExitArgument>): (r: seq<ExitArgument>)
    ensures |r| == |args| && forall i :: 0 <= i < |args| ==> r[i] == args[i].(ty := TypeOf(c, args[i].ty))
  {
    if args == [] then [] else [args[0].(ty := TypeOf(c, args[0].ty))] + ArgumentsImage(c, args[1..])
  }

  function ParameterExitImage(c: Context, x: ParameterExit): ParameterExit
  {
    var arguments := if x.exitKey.arguments.Some? then Some(ArgumentsImage(c, x.exitKey.arguments.value)) else None;
    ParameterExit(x.exitKey.(output := TypeOf(c, x.exitKey.output), arguments := arguments), x.handlerFree,
                  if x.enclosingHandled.Some? then Some(RowImage(c, x.enclosingHandled.value)) else None,
                  Rename(x.prefix, Renaming(c)))
  }

  /** Exit facts keep their places; parameter exits are recorded one by one, so equal keys merge. */
  function ExitsImage(c: Context, x: ExitSummary, ranks: Ranks, keys: SortKeys): ExitSummary
  {
    ExitSummary(Images(x.exits, ExitCharge(c)), ImageSet(x.gaps, GapCharge(c)),
                UpsertAll([], Images(x.parameterExits, ParameterExitCharge(c)), ParameterRank(ranks), MergeParameter(keys)),
                ImageSet(x.handlerGaps, HandlerGapCharge(c)))
  }

  function BindingsImage(c: Context, bs: seq<(string, TypeId)>): (r: seq<(string, TypeId)>)
    ensures |r| == |bs| && forall i :: 0 <= i < |bs| ==> r[i] == (bs[i].0, TypeOf(c, bs[i].1))
  {
    if bs == [] then [] else [(bs[0].0, TypeOf(c, bs[0].1))] + BindingsImage(c, bs[1..])
  }

  function RequestImage(c: Context, a: ActionRequest): ActionRequest
  {
    ActionRequest(Renaming(c)(a.action),
                  if a.typeBindings.Some? then Some(BindingsImage(c, a.typeBindings.value)) else None,
                  if a.signature.Some? then Some((TypesOf(c, a.signature.value.0), TypeOf(c, a.signature.value.1))) else None)
  }

  function RequestsImage(c: Context, q: Requests): Requests
  {
    if q.Unavailable? then q else Available(ImageSet(q.actions, ActionRequestCharge(c)), ImageSet(q.parameters, ParameterRequestCharge(c)))
  }

  /** The mapped core: the escaping row is recomputed exactly when there are default handlers. */
  function CoreImage(c: Context, s: Summary): Summary
  {
    var defaults := if s.defaults.Some? then Some(DefaultsImage(c, s.defaults.value)) else None;
    Summary(RequestsImage(c, s.requests), defaults,
            if defaults.Some? then EscapingOf(defaults.value) else RowImage(c, s.escaping),
            RowImage(c, s.requested), RowImage(c, s.defaultActions), RowImage(c, s.handled), Rename(s.trace, Renaming(c)))
  }

  /**
   * How references to residual checks are mapped: by checked bindings, each with an image and a cost of
   * its own, or, without bindings, not at all. `plain` says that nothing else is substituted either.
   */
  datatype Checks = Checks(bindings: Option<Bindings>, plain: bool)

  datatype Bindings = Bindings(image: ResidualRef -> Option<ResidualRef>, cost: ResidualRef -> nat)

  predicate CheckMappable(k: Checks, x: ResidualRef)
  {
    k.bindings.Some? ==> k.bindings.value.image(x).Some?
  }

  function CheckImage(k: Checks, x: ResidualRef): ResidualRef
  {
    if k.bindings.Some? && k.bindings.value.image(x).Some? then k.bindings.value.image(x).value else x
  }

  function CheckPrice(k: Checks, x: ResidualRef): nat
  {
    1 + if k.bindings.Some? then k.bindings.value.cost(x) else 0
  }

  function CheckCharge(k: Checks): Charge<ResidualRef, ResidualRef>
  {
    Charge((x: ResidualRef) => CheckMappable(k, x), (x: ResidualRef) => CheckPrice(k, x), (x: ResidualRef) => CheckImage(k, x), (x: ResidualRef) => true)
  }

  /** Checks can only be kept without bindings when nothing is substituted. */
  predicate ChecksMappable(k: Checks, xs: set<ResidualRef>)
  {
    (xs != {} && k.bindings.None? ==> k.plain) && EachCan(xs, CheckCharge(k))
  }

  /** Determinism and support are copied. */
  function SummaryImage(c: Context, k: Checks, s: FullSummary, ranks: Ranks, keys: SortKeys): FullSummary
  {
    s.(core := CoreImage(c, s.core),
       exits := if s.exits.Some? then Some(ExitsImage(c, s.exits.value, ranks, keys)) else None,
       checks := ImageSet(s.checks, CheckCharge(k)),
       obligations := ImageSet(s.obligations, RequirementCharge(c)),
       requirements := ImageSet(s.requirements, RequirementCharge(c)))
  }

  /** The escaping row of a balanced source is mapped as such, recomputed or not, and the image is balanced. */
  lemma MappedEscapingRow(c: Context, s: Summary)
    requires Balanced(s) && (s.defaults.Some? ==> NoConflictingTails(s.defaults.value))
    ensures CoreImage(c, s).escaping == RowImage(c, s.escaping) && Balanced(CoreImage(c, s))
  {
    if s.defaults.Some? {
      EscapingAgrees(c, s.defaults.value);
    }
  }

  lemma {:induction false} JoinProducedGround(row: EffectRow, hs: seq<DefaultHandler>)
    requires Ground(row) && forall h :: h in hs ==> Ground(h.produced)
    ensures Ground(JoinProduced(row, hs))
    decreases |hs|
  {
    if hs != [] {
      assert hs[0] in hs;
      JoinProducedGround(RowUnion(row, hs[0].produced), hs[1..]);
    }
  }

  lemma {:induction false} MergeAtGround(s: seq<ParameterExit>, x: ParameterExit, ranks: Ranks, keys: SortKeys)
    requires GroundParameterExit(x) && forall p :: p in s ==> GroundParameterExit(p)
    ensures forall p :: p in MergeAt(s, x, ParameterRank(ranks), MergeParameter(keys)) ==> GroundParameterExit(p)
  {
    if s != [] {
      assert s[0] in s;
      MergedGround(s[0], x, keys);
      MergeAtGround(s[1..], x, ranks, keys);
    }
  }

  lemma MergedGround(a: ParameterExit, b: ParameterExit, keys: SortKeys)
    requires GroundParameterExit(a) && GroundParameterExit(b)
    ensures GroundParameterExit(MergeParameter(keys)(a, b))
  {
    ChoiceLetters(a.prefix, b.prefix, keys);
    var joined := ChoiceOp(a.prefix, b.prefix, keys);
    forall e | e in Actions(joined)
      ensures !e.Var?
    {
      assert Act(e) in Letters(joined);
      assert Act(e) in Letters(a.prefix) || Act(e) in Letters(b.prefix);
    }
  }

  lemma UpsertGround(s: seq<ParameterExit>, x: ParameterExit, ranks: Ranks, keys: SortKeys)
    requires GroundParameterExit(x) && forall p :: p in s ==> GroundParameterExit(p)
    ensures forall p :: p in Upsert(s, x, ParameterRank(ranks), MergeParameter(keys)) ==> GroundParameterExit(p)
  {
    var pushed := SortBy(s + [x], ParameterRank(ranks));
    MergeAtGround(s, x, ranks, keys);
    SortElems(s + [x], ParameterRank(ranks));
    forall p | p in pushed
      ensures GroundParameterExit(p)
    {
      assert p in Elems(pushed);
      assert p in s + [x];
    }
  }

  lemma {:induction false} UpsertAllPush<T>(s: seq<T>, log: seq<T>, x: T, key: T -> Rank, merge: (T, T) -> T)
    ensures UpsertAll(s, log + [x], key, merge) == Upsert(UpsertAll(s, log, key, merge), x, key, merge)
    decreases |log|
  {
    var both := log + [x];
    if log == [] {
      assert both[1..] == [];
    } else {
      assert both[1..] == log[1..] + [x];
      UpsertAllPush(Upsert(s, log[0], key, merge), log[1..], x, key, merge);
    }
  }

  lemma {:induction false} UpsertAllGround(s: seq<ParameterExit>, log: seq<ParameterExit>, ranks: Ranks, keys: SortKeys)
    requires GroundParameterExits(s) && GroundParameterExits(log)
    ensures GroundParameterExits(UpsertAll(s, log, ParameterRank(ranks), MergeParameter(keys)))
    decreases |log|
  {
    if log != [] {
      assert log[0] in log;
      UpsertGround(s, log[0], ranks, keys);
      UpsertAllGround(Upsert(s, log[0], ParameterRank(ranks), MergeParameter(keys)), log[1..], ranks, keys);
    }
  }

  // ----- When each part can be mapped, and what that costs. -----

  /** Effects that can be mapped, and those whose image is an action. */
  function HasImage(c: Context): Effect -> bool
  {
    (e: Effect) => Image(c, e).Some?
  }

  function HasActionImage(c: Context): Effect -> bool
  {
    (e: Effect) => Image(c, e).Some? && IsAction(Image(c, e).value)
  }

  predicate TraceMappable(c: Context, t: Trace)
  {
    Maps(t, HasImage(c), HasActionImage(c))
  }

  function TraceCost(c: Context, t: Trace): nat
  {
    Cost(TraceMapper(c), t, EffectCost)
  }

  lemma TraceMapperCharges(c: Context)
    requires Enumerates(c.order)
    ensures Charges(TraceMapper(c), EffectCost, HasImage(c), HasActionImage(c))
  {
  }

  predicate TypeMappable(c: Context, t: TypeId)
  {
    c.ty(t).Some?
  }

  predicate RequirementMappable(c: Context, q: Requirement)
  {
    match q
    case AllowRequirement(pattern, _) => RowMappable(c, pattern)
    case DenyRequirement(pattern, _) => RowMappable(c, pattern)
    case BeforeRequirement(guard, _, target, _) => RowMappable(c, guard) && RowMappable(c, target)
    case AfterRequirement(target, _, obligation, _) => RowMappable(c, target) && RowMappable(c, obligation)
    case _ => true
  }

  function RequirementCost(c: Context, q: Requirement): nat
  {
    match q
    case AllowRequirement(pattern, _) => 1 + RowCost(c, pattern)
    case DenyRequirement(pattern, _) => 1 + RowCost(c, pattern)
    case BeforeRequirement(guard, _, target, _) => 1 + RowCost(c, guard) + RowCost(c, target)
    case AfterRequirement(target, _, obligation, _) => 1 + RowCost(c, target) + RowCost(c, obligation)
    case _ => 1
  }

  function RequirementCharge(c: Context): Charge<Requirement, Requirement>
  {
    Charge((q: Requirement) => RequirementMappable(c, q), (q: Requirement) => RequirementCost(c, q),
           (q: Requirement) => RequirementImage(c, q), (q: Requirement) => GroundRequirement(q))
  }

  predicate HandlerMappable(c: Context, h: DefaultHandler)
  {
    HasActionImage(c)(h.action) && RowMappable(c, h.produced)
  }

  function HandlerCost(c: Context, h: DefaultHandler): nat
  {
    1 + EffectCost(h.action) + RowCost(c, h.produced)
  }

  predicate GroundHandler(h: DefaultHandler)
  {
    IsAction(h.action) && Ground(h.produced)
  }

  function HandlerCharge(c: Context): Charge<DefaultHandler, DefaultHandler>
  {
    Charge((h: DefaultHandler) => HandlerMappable(c, h), (h: DefaultHandler) => HandlerCost(c, h),
           (h: DefaultHandler) => HandlerImage(c, h), (h: DefaultHandler) => GroundHandler(h))
  }

  predicate DefaultsMappable(c: Context, d: DefaultEffects)
  {
    RowMappable(c, d.direct) && AllCan(d.handlers, HandlerCharge(c))
  }

  function DefaultsCost(c: Context, d: DefaultEffects): nat
  {
    RowCost(c, d.direct) + SeqSum(d.handlers, HandlerCharge(c).cost)
  }

  predicate BindingsMappable(c: Context, bs: seq<(string, TypeId)>)
  {
    forall b :: b in bs ==> TypeMappable(c, b.1)
  }

  predicate RequestMappable(c: Context, a: ActionRequest)
  {
    && HasActionImage(c)(a.action)
    && (a.typeBindings.Some? ==> BindingsMappable(c, a.typeBindings.value))
    && (a.signature.Some? ==> TypesImage(c, a.signature.value.0).Some? && TypeMappable(c, a.signature.value.1))
  }

  function RequestCost(a: ActionRequest): nat
  {
    1 + EffectCost(a.action)
      + (if a.typeBindings.Some? then |a.typeBindings.value| else 0)
      + (if a.signature.Some? then |a.signature.value.0| + 1 else 0)
  }

  function ActionRequestCharge(c: Context): Charge<ActionRequest, ActionRequest>
  {
    Charge((a: ActionRequest) => RequestMappable(c, a), (a: ActionRequest) => RequestCost(a),
           (a: ActionRequest) => RequestImage(c, a), (a: ActionRequest) => IsAction(a.action))
  }

  function EffectSetCost(c: Context, es: set<Effect>): nat
  {
    EffectsCost(c.order(es), EffectCost)
  }

  function ParameterRequestCost(c: Context, p: ParameterRequest): nat
  {
    1 + EffectSetCost(c, p.excluded)
  }

  function ParameterRequestImage(c: Context, p: ParameterRequest): ParameterRequest
  {
    p.(excluded := ImageOf(c, p.excluded))
  }

  function ParameterRequestCharge(c: Context): Charge<ParameterRequest, ParameterRequest>
  {
    Charge((p: ParameterRequest) => Mappable(c, p.excluded), (p: ParameterRequest) => ParameterRequestCost(c, p),
           (p: ParameterRequest) => ParameterRequestImage(c, p), (p: ParameterRequest) => GroundActions(p.excluded))
  }

  predicate RequestsMappable(c: Context, q: Requests)
  {
    q.Available? ==> EachCan(q.actions, ActionRequestCharge(c)) && EachCan(q.parameters, ParameterRequestCharge(c))
  }

  ghost function RequestsCost(c: Context, q: Requests): nat
  {
    if q.Unavailable? then 0
    else SetSum(q.actions, ActionRequestCharge(c).cost) + SetSum(q.parameters, ParameterRequestCharge(c).cost)
  }

  predicate OutcomeMappable(c: Context, o: CallableOutcome)
  {
    match o
    case NonReturn => true
    case Raised(error) => TypeMappable(c, error)
    case Returned(ty, _) => TypeMappable(c, ty)
    case HandlerFinished(ty, _) => TypeMappable(c, ty)
    case HandlerResumed(ty, _) => TypeMappable(c, ty)
  }

  function OutcomeCost(o: CallableOutcome): nat
  {
    if o.NonReturn? then 0 else 1
  }

  predicate ExitFactMappable(c: Context, f: ExitFact)
  {
    OutcomeMappable(c, f.outcome) && TraceMappable(c, f.trace)
  }

  function ExitFactCost(c: Context, f: ExitFact): nat
  {
    1 + OutcomeCost(f.outcome) + TraceCost(c, f.trace)
  }

  function ExitCharge(c: Context): Charge<ExitFact, ExitFact>
  {
    Charge((f: ExitFact) => ExitFactMappable(c, f), (f: ExitFact) => ExitFactCost(c, f),
           (f: ExitFact) => ExitFactImage(c, f), (f: ExitFact) => GroundActions(Actions(f.trace)))
  }

  predicate GapMappable(c: Context, g: Gap)
  {
    g.ParameterCallGap? ==> TypeMappable(c, g.output)
  }

  function GapCost(g: Gap): nat
  {
    if g.ParameterCallGap? then 2 else 1
  }

  function GapCharge(c: Context): Charge<Gap, Gap>
  {
    Charge((g: Gap) => GapMappable(c, g), (g: Gap) => GapCost(g), (g: Gap) => OutcomeGapImage(c, g), (g: Gap) => true)
  }

  function HandlerGapCost(c: Context, g: HandlerGapEvidence): nat
  {
    1 + RowCost(c, g.handled) + RowCost(c, g.bodyEscaping)
  }

  predicate GroundHandlerGap(g: HandlerGapEvidence)
  {
    Ground(g.handled) && Ground(g.bodyEscaping)
  }

  function HandlerGapCharge(c: Context): Charge<HandlerGapEvidence, HandlerGapEvidence>
  {
    Charge((g: HandlerGapEvidence) => HandlerGapMappable(c, g), (g: HandlerGapEvidence) => HandlerGapCost(c, g),
           (g: HandlerGapEvidence) => GapImage(c, g), (g: HandlerGapEvidence) => GroundHandlerGap(g))
  }

  predicate HandlerGapMappable(c: Context, g: HandlerGapEvidence)
  {
    RowMappable(c, g.handled) && RowMappable(c, g.bodyEscaping)
  }

  predicate ArgumentsMappable(c: Context, args: seq<ExitArgument>)
  {
    forall a :: a in args ==> TypeMappable(c, a.ty)
  }

  predicate ParameterExitMappable(c: Context, x: ParameterExit)
  {
    && TypeMappable(c, x.exitKey.output)
    && (x.enclosingHandled.Some? ==> RowMappable(c, x.enclosingHandled.value))
    && (x.exitKey.arguments.Some? ==> ArgumentsMappable(c, x.exitKey.arguments.value))
    && TraceMappable(c, x.prefix)
  }

  function ParameterExitCost(c: Context, x: ParameterExit): nat
  {
    2 + (if x.enclosingHandled.Some? then RowCost(c, x.enclosingHandled.value) else 0)
      + (if x.exitKey.arguments.Some? then 2 * |x.exitKey.arguments.value| else 0)
      + TraceCost(c, x.prefix)
  }

  function ParameterExitCharge(c: Context): Charge<ParameterExit, ParameterExit>
  {
    Charge((x: ParameterExit) => ParameterExitMappable(c, x), (x: ParameterExit) => ParameterExitCost(c, x),
           (x: ParameterExit) => ParameterExitImage(c, x), (x: ParameterExit) => GroundParameterExit(x))
  }

  predicate ExitsMappable(c: Context, x: ExitSummary)
  {
    && AllCan(x.exits, ExitCharge(c)) && EachCan(x.gaps, GapCharge(c))
    && EachCan(x.handlerGaps, HandlerGapCharge(c)) && AllCan(x.parameterExits, ParameterExitCharge(c))
  }

  ghost function ExitsCost(c: Context, x: ExitSummary): nat
  {
    SeqSum(x.exits, ExitCharge(c).cost) + SetSum(x.gaps, GapCharge(c).cost)
      + SetSum(x.handlerGaps, HandlerGapCharge(c).cost) + SeqSum(x.parameterExits, ParameterExitCharge(c).cost)
  }

  predicate CoreRowsMappable(c: Context, s: Summary)
  {
    && RequestsMappable(c, s.requests)
    && RowMappable(c, s.escaping) && RowMappable(c, s.requested) && RowMappable(c, s.defaultActions) && RowMappable(c, s.handled)
    && TraceMappable(c, s.trace)
  }

  predicate CoreMappable(c: Context, s: Summary)
  {
    && CoreRowsMappable(c, s)
    && (s.defaults.Some? ==> DefaultsMappable(c, s.defaults.value))
  }

  ghost function CoreRowsCost(c: Context, s: Summary): nat
  {
    RequestsCost(c, s.requests) + RowCost(c, s.escaping) + RowCost(c, s.requested) + RowCost(c, s.defaultActions) + RowCost(c, s.handled)
      + TraceCost(c, s.trace)
  }

  ghost function CoreCost(c: Context, s: Summary): nat
  {
    CoreRowsCost(c, s) + if s.defaults.Some? then DefaultsCost(c, s.defaults.value) else 0
  }

  /** Every effect, type, row variable and event of the summary can be mapped. */
  predicate SummaryMappable(c: Context, k: Checks, s: FullSummary)
  {
    CoreMappable(c, s.core) && FactsMappable(c, k, s) && (s.exits.Some? ==> ExitsMappable(c, s.exits.value))
  }

  predicate FactsMappable(c: Context, k: Checks, s: FullSummary)
  {
    && ChecksMappable(k, s.checks)
    && EachCan(s.obligations, RequirementCharge(c)) && EachCan(s.requirements, RequirementCharge(c))
  }

  ghost function FactsCost(c: Context, k: Checks, s: FullSummary): nat
  {
    SetSum(s.checks, CheckCharge(k).cost) + SetSum(s.obligations, RequirementCharge(c).cost) + SetSum(s.requirements, RequirementCharge(c).cost)
  }

  ghost function SummaryCost(c: Context, k: Checks, s: FullSummary): nat
  {
    1 + CoreCost(c, s.core) + FactsCost(c, k, s) + if s.exits.Some? then ExitsCost(c, s.exits.value) else 0
  }

  class EffectSummarySubstitution {
    const ty: TypeId -> Option<TypeId>
    const arity: ActionRef -> Option<nat>
    const order: set<Effect> -> seq<Effect>
    const rows: seq<(VarId, EffectRow)>
    const ranks: Ranks
    const keys: SortKeys
    const bindings: Option<Bindings>
    const identityTypes: bool
    var byVariable: map<VarId, EffectRow>
    var remaining: nat

    constructor (ty: TypeId -> Option<TypeId>, arity: ActionRef -> Option<nat>, order: set<Effect> -> seq<Effect>,
                 rows: seq<(VarId, EffectRow)>, ranks: Ranks, keys: SortKeys, bindings: Option<Bindings>, identityTypes: bool, maxNodes: nat)
      ensures this.ty == ty && this.arity == arity && this.order == order && this.rows == rows
      ensures this.ranks == ranks && this.keys == keys && byVariable == map[] && remaining == maxNodes
      ensures this.bindings == bindings && this.identityTypes == identityTypes
    {
      this.ty, this.arity, this.order, this.rows := ty, arity, order, rows;
      this.ranks, this.keys, this.bindings, this.identityTypes := ranks, keys, bindings, identityTypes;
      byVariable, remaining := map[], maxNodes;
    }

    function Chk(): Checks
    {
      Checks(bindings, identityTypes && rows == [])
    }

    function Ctx(): Context
      reads this
    {
      Context(ty, arity, order, byVariable)
    }

    method Checkpoint() returns (r: Result<(), SubstitutionError>)
      modifies this`remaining
      ensures r.Ok? <==> old(remaining) > 0
      ensures remaining == if r.Ok? then old(remaining) - 1 else old(remaining)
      ensures r.Err? ==> r.error == ResourceLimit
    {
      if remaining == 0 {
        return Err(ResourceLimit);
      }
      remaining := remaining - 1;
      return Ok(());
    }

    method MapType(t: TypeId) returns (r: Result<TypeId, SubstitutionError>)
      modifies this`remaining
      ensures r.Ok? <==> old(remaining) > 0 && ty(t).Some?
      ensures r.Ok? ==> Some(r.value) == ty(t) && remaining == old(remaining) - 1
    {
      var _ :- Checkpoint();
      if ty(t).None? {
        return Err(TypeError(t));
      }
      return Ok(ty(t).value);
    }

    method MapEffect(e: Effect) returns (r: Result<Effect, SubstitutionError>)
      modifies this`remaining
      ensures r.Ok? <==> Image(Ctx(), e).Some? && old(remaining) >= EffectCost(e)
      ensures r.Ok? ==> r.value == Image(Ctx(), e).value && remaining == old(remaining) - EffectCost(e)
    {
      var mapped :- SubEffect(Ctx(), e, remaining);
      remaining := mapped.1;
      return Ok(mapped.0);
    }

    /** Maps the listed effects and adds them to a set. */
    method MapEffectList(es: seq<Effect>, start: set<Effect>) returns (r: Result<set<Effect>, SubstitutionError>)
      modifies this`remaining
      ensures r.Ok? <==> Mappable(Ctx(), Elems(es)) && old(remaining) >= EffectsCost(es, EffectCost)
      ensures r.Ok? ==> r.value == start + ImageOf(Ctx(), Elems(es)) && remaining == old(remaining) - EffectsCost(es, EffectCost)
    {
      var found := start;
      assert es[0..] == es;
      for i := 0 to |es|
        invariant Mappable(Ctx(), Elems(es[..i])) && found == start + ImageOf(Ctx(), Elems(es[..i]))
        invariant old(remaining) + EffectsCost(es[i..], EffectCost) == remaining + EffectsCost(es, EffectCost)
      {
        NextEffect(Ctx(), es, i);
        var mapped :- MapEffect(es[i]);
        found := found + {mapped};
      }
      assert es[..|es|] == es;
      return Ok(found);
    }

    /** A row succeeds exactly when it can be mapped within the budget, and becomes a ground row. */
    method MapRow(row: EffectRow) returns (r: Result<EffectRow, SubstitutionError>)
      requires Enumerates(order)
      modifies this`remaining
      ensures r.Ok? <==> RowMappable(Ctx(), row) && old(remaining) >= RowCost(Ctx(), row)
      ensures r.Ok? ==> r.value == RowImage(Ctx(), row) && remaining == old(remaining) - RowCost(Ctx(), row)
      ensures r.Ok? ==> Ground(r.value)
    {
      var _ :- Checkpoint();
      var effects :- MapEffectList(order(row.effects), {});
      if row.open.Some? {
        if row.open.value !in byVariable {
          return Err(UnboundRow(row.open.value));
        }
        var binding := byVariable[row.open.value];
        OpenRow(Ctx(), row);
        effects :- MapEffectList(order(binding.effects), effects);
      }
      ImageGround(Ctx(), RowSources(Ctx(), row));
      return Ok(Closed(effects));
    }

    method MapOneTrace(t: Trace) returns (r: Result<Trace, SubstitutionError>)
      requires Enumerates(order)
      modifies this`remaining
      ensures Paid(r.Ok?, old(remaining), remaining, TraceMappable(Ctx(), t), TraceCost(Ctx(), t))
      ensures r.Ok? ==> r.value == Rename(t, Renaming(Ctx())) && GroundActions(Actions(r.value))
    {
      var m := TraceMapper(Ctx());
      var mapped := MapTrace(m, t, remaining);
      TraceMapperCharges(Ctx());
      MapExactly(m, t, remaining, EffectCost, HasImage(Ctx()), HasActionImage(Ctx()));
      if mapped.Err? {
        return Err(mapped.error);
      }
      TraceMapperRenames(Ctx());
      MapRecRenames(m, t, remaining, Renaming(Ctx()));
      MapRecGround(Ctx(), t, remaining);
      remaining := mapped.value.1;
      return Ok(mapped.value.0);
    }

    method MapRequirement(q: Requirement) returns (r: Result<Requirement, SubstitutionError>)
      requires Enumerates(order)
      modifies this`remaining
      ensures Paid(r.Ok?, old(remaining), remaining, RequirementMappable(Ctx(), q), RequirementCost(Ctx(), q))
      ensures r.Ok? ==> r.value == RequirementImage(Ctx(), q) && GroundRequirement(r.value)
    {
      var _ :- Checkpoint();
      match q
      case AllowRequirement(pattern, text) =>
        var row :- MapRow(pattern);
        return Ok(AllowRequirement(row, text));
      case DenyRequirement(pattern, text) =>
        var row :- MapRow(pattern);
        return Ok(DenyRequirement(row, text));
      case BeforeRequirement(guard, a, target, b) =>
        var first :- MapRow(guard);
        var second :- MapRow(target);
        return Ok(BeforeRequirement(first, a, second, b));
      case AfterRequirement(target, a, obligation, b) =>
        var first :- MapRow(target);
        var second :- MapRow(obligation);
        return Ok(AfterRequirement(first, a, second, b));
      case _ =>
        return Ok(q);
    }

    method MapRequirements(source: set<Requirement>) returns (r: Result<set<Requirement>, SubstitutionError>)
      requires Enumerates(order)
      modifies this`remaining
      ensures Paid(r.Ok?, old(remaining), remaining, EachCan(source, RequirementCharge(Ctx())), SetSum(source, RequirementCharge(Ctx()).cost))
      ensures r.Ok? ==> r.value == ImageSet(source, RequirementCharge(Ctx())) && GroundRequirements(r.value)
    {
      var todo, done: set<Requirement> := source, {};
      ghost var step := RequirementCharge(Ctx());
      SetPassStart(source, step, remaining);
      while todo != {}
        invariant step == RequirementCharge(Ctx()) && SetPass(source, todo, done, step, old(remaining), remaining)
        decreases |todo|
      {
        var x :| x in todo;
        ghost var before := remaining;
        var mapped := MapRequirement(x);
        if mapped.Err? {
          SetPassStop(source, todo, done, step, old(remaining), before, x);
          return Err(mapped.error);
        }
        SetPassStep(source, todo, done, step, old(remaining), before, x, mapped.value);
        todo, done := todo - {x}, done + {mapped.value};
      }
      SetPassEnd(source, done, step, old(remaining), remaining);
      return Ok(done);
    }

    method MapHandler(h: DefaultHandler) returns (r: Result<DefaultHandler, SubstitutionError>)
      requires Enumerates(order)
      modifies this`remaining
      ensures Paid(r.Ok?, old(remaining), remaining, HandlerMappable(Ctx(), h), HandlerCost(Ctx(), h))
      ensures r.Ok? ==> r.value == HandlerImage(Ctx(), h) && GroundHandler(r.value)
    {
      var _ :- Checkpoint();
      var action :- MapEffect(h.action);
      if !IsAction(action) {
        return Err(InvalidStructure);
      }
      var produced :- MapRow(h.produced);
      return Ok(DefaultHandler(action, produced));
    }

    method MapHandlers(hs: seq<DefaultHandler>) returns (r: Result<seq<DefaultHandler>, SubstitutionError>)
      requires Enumerates(order)
      modifies this`remaining
      ensures Paid(r.Ok?, old(remaining), remaining, AllCan(hs, HandlerCharge(Ctx())), SeqSum(hs, HandlerCharge(Ctx()).cost))
      ensures r.Ok? ==> r.value == HandlersImage(Ctx(), hs) && forall h :: h in r.value ==> GroundHandler(h)
    {
      var done: seq<DefaultHandler> := [];
      ghost var step := HandlerCharge(Ctx());
      ListPassStart(hs, step, remaining);
      for i := 0 to |hs|
        invariant |done| == i && step == HandlerCharge(Ctx()) && ListPass(hs, done, step, old(remaining), remaining)
      {
        ghost var before := remaining;
        var mapped := MapHandler(hs[i]);
        if mapped.Err? {
          ListPassStop(hs, done, step, old(remaining), before);
          return Err(mapped.error);
        }
        ListPassStep(hs, done, step, old(remaining), before, mapped.value);
        done := done + [mapped.value];
      }
      ListPassEnd(hs, done, step, old(remaining), remaining);
      assert done == HandlersImage(Ctx(), hs);
      return Ok(done);
    }

    method MapDefaults(d: DefaultEffects) returns (r: Result<DefaultEffects, SubstitutionError>)
      requires Enumerates(order)
      modifies this`remaining
      ensures Paid(r.Ok?, old(remaining), remaining, DefaultsMappable(Ctx(), d), DefaultsCost(Ctx(), d))
      ensures r.Ok? ==> r.value == DefaultsImage(Ctx(), d) && GroundDefaults(r.value)
    {
      var direct :- MapRow(d.direct);
      var handlers :- MapHandlers(d.handlers);
      return Ok(DefaultEffects(direct, handlers));
    }

    method MapTypes(tys: seq<TypeId>) returns (r: Result<seq<TypeId>, SubstitutionError>)
      modifies this`remaining
      ensures Paid(r.Ok?, old(remaining), remaining, TypesImage(Ctx(), tys).Some?, |tys|)
      ensures r.Ok? ==> r.value == TypesOf(Ctx(), tys)
    {
      var mapped :- SubTypes(Ctx(), tys, remaining);
      remaining := mapped.1;
      return Ok(mapped.0);
    }

    method MapBindings(bs: seq<(string, TypeId)>) returns (r: Result<seq<(string, TypeId)>, SubstitutionError>)
      modifies this`remaining
      ensures Paid(r.Ok?, old(remaining), remaining, BindingsMappable(Ctx(), bs), |bs|)
      ensures r.Ok? ==> r.value == BindingsImage(Ctx(), bs)
    {
      var mapped: seq<(string, TypeId)> := [];
      assert bs[0..] == bs;
      for i := 0 to |bs|
        invariant remaining + |bs| == old(remaining) + |bs| - i
        invariant forall j :: 0 <= j < i ==> TypeMappable(Ctx(), bs[j].1)
        invariant |mapped| == i && forall j :: 0 <= j < i ==> mapped[j] == (bs[j].0, TypeOf(Ctx(), bs[j].1))
      {
        assert bs[i] in bs;
        var t :- MapType(bs[i].1);
        mapped := mapped + [(bs[i].0, t)];
      }
      assert mapped == BindingsImage(Ctx(), bs);
      return Ok(mapped);
    }

    method MapActionRequest(a: ActionRequest) returns (r: Result<ActionRequest, SubstitutionError>)
      modifies this`remaining
      ensures Paid(r.Ok?, old(remaining), remaining, RequestMappable(Ctx(), a), RequestCost(a))
      ensures r.Ok? ==> r.value == RequestImage(Ctx(), a) && IsAction(r.value.action)
    {
      var _ :- Checkpoint();
      var action :- MapEffect(a.action);
      if !IsAction(action) {
        return Err(InvalidStructure);
      }
      var bindings := a.typeBindings;
      if bindings.Some? {
        var mapped :- MapBindings(bindings.value);
        bindings := Some(mapped);
      }
      var signature := a.signature;
      if signature.Some? {
        var params :- MapTypes(signature.value.0);
        var output :- MapType(signature.value.1);
        signature := Some((params, output));
      }
      return Ok(ActionRequest(action, bindings, signature));
    }

    method MapActionRequests(source: set<ActionRequest>) returns (r: Result<set<ActionRequest>, SubstitutionError>)
      modifies this`remaining
      ensures Paid(r.Ok?, old(remaining), remaining, EachCan(source, ActionRequestCharge(Ctx())), SetSum(source, ActionRequestCharge(Ctx()).cost))
      ensures r.Ok? ==> r.value == ImageSet(source, ActionRequestCharge(Ctx())) && forall a :: a in r.value ==> IsAction(a.action)
    {
      var todo, done: set<ActionRequest> := source, {};
      ghost var step := ActionRequestCharge(Ctx());
      SetPassStart(source, step, remaining);
      while todo != {}
        invariant step == ActionRequestCharge(Ctx()) && SetPass(source, todo, done, step, old(remaining), remaining)
        decreases |todo|
      {
        var x :| x in todo;
        ghost var before := remaining;
        var mapped := MapActionRequest(x);
        if mapped.Err? {
          SetPassStop(source, todo, done, step, old(remaining), before, x);
          return Err(mapped.error);
        }
        SetPassStep(source, todo, done, step, old(remaining), before, x, mapped.value);
        todo, done := todo - {x}, done + {mapped.value};
      }
      SetPassEnd(source, done, step, old(remaining), remaining);
      return Ok(done);
    }

    method MapParameterRequest(p: ParameterRequest) returns (r: Result<ParameterRequest, SubstitutionError>)
      requires Enumerates(order)
      modifies this`remaining
      ensures Paid(r.Ok?, old(remaining), remaining, Mappable(Ctx(), p.excluded), ParameterRequestCost(Ctx(), p))
      ensures r.Ok? ==> r.value == ParameterRequestImage(Ctx(), p) && GroundActions(r.value.excluded)
    {
      var _ :- Checkpoint();
      var excluded :- MapEffectList(order(p.excluded), {});
      return Ok(p.(excluded := excluded));
    }

    method MapParameterRequests(source: set<ParameterRequest>) returns (r: Result<set<ParameterRequest>, SubstitutionError>)
      requires Enumerates(order)
      modifies this`remaining
      ensures Paid(r.Ok?, old(remaining), remaining, EachCan(source, ParameterRequestCharge(Ctx())), SetSum(source, ParameterRequestCharge(Ctx()).cost))
      ensures r.Ok? ==> r.value == ImageSet(source, ParameterRequestCharge(Ctx())) && forall p :: p in r.value ==> GroundActions(p.excluded)
    {
      var todo, done: set<ParameterRequest> := source, {};
      ghost var step := ParameterRequestCharge(Ctx());
      SetPassStart(source, step, remaining);
      while todo != {}
        invariant step == ParameterRequestCharge(Ctx()) && SetPass(source, todo, done, step, old(remaining), remaining)
        decreases |todo|
      {
        var x :| x in todo;
        ghost var before := remaining;
        var mapped := MapParameterRequest(x);
        if mapped.Err? {
          SetPassStop(source, todo, done, step, old(remaining), before, x);
          return Err(mapped.error);
        }
        SetPassStep(source, todo, done, step, old(remaining), before, x, mapped.value);
        todo, done := todo - {x}, done + {mapped.value};
      }
      SetPassEnd(source, done, step, old(remaining), remaining);
      return Ok(done);
    }

    method MapRequests(source: Requests) returns (r: Result<Requests, SubstitutionError>)
      requires Enumerates(order)
      modifies this`remaining
      ensures Paid(r.Ok?, old(remaining), remaining, RequestsMappable(Ctx(), source), RequestsCost(Ctx(), source))
      ensures r.Ok? ==> r.value == RequestsImage(Ctx(), source) && GroundRequests(r.value)
    {
      if source.Unavailable? {
        return Ok(Unavailable);
      }
      var actions :- MapActionRequests(source.actions);
      var parameters :- MapParameterRequests(source.parameters);
      return Ok(Available(actions, parameters));
    }

    method MapOutcome(o: CallableOutcome) returns (r: Result<CallableOutcome, SubstitutionError>)
      modifies this`remaining
      ensures Paid(r.Ok?, old(remaining), remaining, OutcomeMappable(Ctx(), o), OutcomeCost(o))
      ensures r.Ok? ==> r.value == OutcomeImage(Ctx(), o)
    {
      if o.NonReturn? {
        return Ok(o);
      }
      if o.Raised? {
        var error :- MapType(o.error);
        return Ok(Raised(error));
      }
      var mapped :- MapType(o.ty);
      return Ok(o.(ty := mapped));
    }

    method MapHandlerGap(g: HandlerGapEvidence) returns (r: Result<HandlerGapEvidence, SubstitutionError>)
      requires Enumerates(order)
      modifies this`remaining
      ensures Paid(r.Ok?, old(remaining), remaining, HandlerGapMappable(Ctx(), g), HandlerGapCost(Ctx(), g))
      ensures r.Ok? ==> r.value == GapImage(Ctx(), g) && GroundHandlerGap(r.value)
    {
      var _ :- Checkpoint();
      var handled :- MapRow(g.handled);
      var body :- MapRow(g.bodyEscaping);
      return Ok(HandlerGapEvidence(g.source, g.normalControl, handled, body));
    }

    method MapHandlerGaps(source: set<HandlerGapEvidence>) returns (r: Result<set<HandlerGapEvidence>, SubstitutionError>)
      requires Enumerates(order)
      modifies this`remaining
      ensures Paid(r.Ok?, old(remaining), remaining, EachCan(source, HandlerGapCharge(Ctx())), SetSum(source, HandlerGapCharge(Ctx()).cost))
      ensures r.Ok? ==> r.value == ImageSet(source, HandlerGapCharge(Ctx())) && forall g :: g in r.value ==> GroundHandlerGap(g)
    {
      var todo, done: set<HandlerGapEvidence> := source, {};
      ghost var step := HandlerGapCharge(Ctx());
      SetPassStart(source, step, remaining);
      while todo != {}
        invariant step == HandlerGapCharge(Ctx()) && SetPass(source, todo, done, step, old(remaining), remaining)
        decreases |todo|
      {
        var x :| x in todo;
        ghost var before := remaining;
        var mapped := MapHandlerGap(x);
        if mapped.Err? {
          SetPassStop(source, todo, done, step, old(remaining), before, x);
          return Err(mapped.error);
        }
        SetPassStep(source, todo, done, step, old(remaining), before, x, mapped.value);
        todo, done := todo - {x}, done + {mapped.value};
      }
      SetPassEnd(source, done, step, old(remaining), remaining);
      return Ok(done);
    }

    method MapGap(g: Gap) returns (r: Result<Gap, SubstitutionError>)
      modifies this`remaining
      ensures Paid(r.Ok?, old(remaining), remaining, GapMappable(Ctx(), g), GapCost(g))
      ensures r.Ok? ==> r.value == OutcomeGapImage(Ctx(), g)
    {
      var _ :- Checkpoint();
      if g.ParameterCallGap? {
        var output :- MapType(g.output);
        return Ok(g.(output := output));
      }
      return Ok(g);
    }

    method MapGaps(source: set<Gap>) returns (r: Result<set<Gap>, SubstitutionError>)
      modifies this`remaining
      ensures Paid(r.Ok?, old(remaining), remaining, EachCan(source, GapCharge(Ctx())), SetSum(source, GapCharge(Ctx()).cost))
      ensures r.Ok? ==> r.value == ImageSet(source, GapCharge(Ctx()))
    {
      var todo, done: set<Gap> := source, {};
      ghost var step := GapCharge(Ctx());
      SetPassStart(source, step, remaining);
      while todo != {}
        invariant step == GapCharge(Ctx()) && SetPass(source, todo, done, step, old(remaining), remaining)
        decreases |todo|
      {
        var x :| x in todo;
        ghost var before := remaining;
        var mapped := MapGap(x);
        if mapped.Err? {
          SetPassStop(source, todo, done, step, old(remaining), before, x);
          return Err(mapped.error);
        }
        SetPassStep(source, todo, done, step, old(remaining), before, x, mapped.value);
        todo, done := todo - {x}, done + {mapped.value};
      }
      SetPassEnd(source, done, step, old(remaining), remaining);
      return Ok(done);
    }

    method MapArguments(source: seq<ExitArgument>) returns (r: Result<seq<ExitArgument>, SubstitutionError>)
      modifies this`remaining
      ensures Paid(r.Ok?, old(remaining), remaining, ArgumentsMappable(Ctx(), source), 2 * |source|)
      ensures r.Ok? ==> r.value == ArgumentsImage(Ctx(), source)
    {
      var mapped: seq<ExitArgument> := [];
      assert source[0..] == source;
      for i := 0 to |source|
        invariant remaining + 2 * |source| == old(remaining) + 2 * (|source| - i)
        invariant forall j :: 0 <= j < i ==> TypeMappable(Ctx(), source[j].ty)
        invariant |mapped| == i && forall j :: 0 <= j < i ==> mapped[j] == source[j].(ty := TypeOf(Ctx(), source[j].ty))
      {
        assert source[i] in source;
        var _ :- Checkpoint();
        var t :- MapType(source[i].ty);
        mapped := mapped + [source[i].(ty := t)];
      }
      assert mapped == ArgumentsImage(Ctx(), source);
      return Ok(mapped);
    }

    method MapParameterExit(x: ParameterExit) returns (r: Result<ParameterExit, SubstitutionError>)
      requires Enumerates(order)
      modifies this`remaining
      ensures Paid(r.Ok?, old(remaining), remaining, ParameterExitMappable(Ctx(), x), ParameterExitCost(Ctx(), x))
      ensures r.Ok? ==> r.value == ParameterExitImage(Ctx(), x) && GroundParameterExit(r.value)
    {
      var _ :- Checkpoint();
      var output :- MapType(x.exitKey.output);
      var handled := x.enclosingHandled;
      if handled.Some? {
        var row :- MapRow(handled.value);
        handled := Some(row);
      }
      var arguments := x.exitKey.arguments;
      if arguments.Some? {
        var mapped :- MapArguments(arguments.value);
        arguments := Some(mapped);
      }
      var prefix :- MapOneTrace(x.prefix);
      return Ok(ParameterExit(x.exitKey.(output := output, arguments := arguments), x.handlerFree, handled, prefix));
    }

    method MapExitFact(f: ExitFact) returns (r: Result<ExitFact, SubstitutionError>)
      requires Enumerates(order)
      modifies this`remaining
      ensures Paid(r.Ok?, old(remaining), remaining, ExitFactMappable(Ctx(), f), ExitFactCost(Ctx(), f))
      ensures r.Ok? ==> r.value == ExitFactImage(Ctx(), f) && GroundActions(Actions(r.value.trace))
    {
      var _ :- Checkpoint();
      var outcome :- MapOutcome(f.outcome);
      var trace :- MapOneTrace(f.trace);
      return Ok(ExitFact(outcome, trace));
    }

    method MapExitFacts(source: seq<ExitFact>) returns (r: Result<seq<ExitFact>, SubstitutionError>)
      requires Enumerates(order)
      modifies this`remaining
      ensures Paid(r.Ok?, old(remaining), remaining, AllCan(source, ExitCharge(Ctx())), SeqSum(source, ExitCharge(Ctx()).cost))
      ensures r.Ok? ==> r.value == Images(source, ExitCharge(Ctx())) && forall f :: f in r.value ==> GroundActions(Actions(f.trace))
    {
      var done: seq<ExitFact> := [];
      ghost var step := ExitCharge(Ctx());
      ListPassStart(source, step, remaining);
      for i := 0 to |source|
        invariant |done| == i && step == ExitCharge(Ctx()) && ListPass(source, done, step, old(remaining), remaining)
      {
        ghost var before := remaining;
        var mapped := MapExitFact(source[i]);
        if mapped.Err? {
          ListPassStop(source, done, step, old(remaining), before);
          return Err(mapped.error);
        }
        ListPassStep(source, done, step, old(remaining), before, mapped.value);
        done := done + [mapped.value];
      }
      ListPassEnd(source, done, step, old(remaining), remaining);
      return Ok(done);
    }

    method MapParameterExits(source: seq<ParameterExit>) returns (r: Result<seq<ParameterExit>, SubstitutionError>)
      requires Enumerates(order)
      modifies this`remaining
      ensures Paid(r.Ok?, old(remaining), remaining, AllCan(source, ParameterExitCharge(Ctx())), SeqSum(source, ParameterExitCharge(Ctx()).cost))
      ensures r.Ok? ==> r.value == UpsertAll([], Images(source, ParameterExitCharge(Ctx())), ParameterRank(ranks), MergeParameter(keys))
      ensures r.Ok? ==> GroundParameterExits(r.value)
    {
      var found: seq<ParameterExit> := [];
      ghost var images: seq<ParameterExit>, step := [], ParameterExitCharge(Ctx());
      ListPassStart(source, step, remaining);
      for i := 0 to |source|
        invariant |images| == i && step == ParameterExitCharge(Ctx()) && ListPass(source, images, step, old(remaining), remaining)
        invariant found == UpsertAll([], images, ParameterRank(ranks), MergeParameter(keys))
      {
        ghost var before := remaining;
        var mapped := MapParameterExit(source[i]);
        if mapped.Err? {
          ListPassStop(source, images, step, old(remaining), before);
          return Err(mapped.error);
        }
        ListPassStep(source, images, step, old(remaining), before, mapped.value);
        UpsertAllPush([], images, mapped.value, ParameterRank(ranks), MergeParameter(keys));
        found, images := Upsert(found, mapped.value, ParameterRank(ranks), MergeParameter(keys)), images + [mapped.value];
      }
      ListPassEnd(source, images, step, old(remaining), remaining);
      UpsertAllGround([], images, ranks, keys);
      return Ok(found);
    }

    /** Exit facts are pushed as they come; parameter exits are recorded, so equal keys merge. */
    method MapExits(source: ExitSummary) returns (r: Result<ExitSummary, SubstitutionError>)
      requires Enumerates(order)
      modifies this`remaining
      ensures Paid(r.Ok?, old(remaining), remaining, ExitsMappable(Ctx(), source), ExitsCost(Ctx(), source))
      ensures r.Ok? ==> r.value == ExitsImage(Ctx(), source, ranks, keys) && GroundExits(r.value)
    {
      var exits :- MapExitFacts(source.exits);
      var gaps :- MapGaps(source.gaps);
      var handlerGaps :- MapHandlerGaps(source.handlerGaps);
      var parameterExits :- MapParameterExits(source.parameterExits);
      return Ok(ExitSummary(exits, gaps, parameterExits, handlerGaps));
    }

    /** Everything of the core but its default handlers. */
    method MapCoreRows(source: Summary) returns (r: Result<Summary, SubstitutionError>)
      requires Enumerates(order)
      modifies this`remaining
      ensures Paid(r.Ok?, old(remaining), remaining, CoreRowsMappable(Ctx(), source), CoreRowsCost(Ctx(), source))
      ensures r.Ok? ==> r.value == CoreImage(Ctx(), source.(defaults := None))
      ensures r.Ok? ==> GroundRequests(r.value.requests) && GroundActions(Actions(r.value.trace))
      ensures r.Ok? ==> Ground(r.value.escaping) && Ground(r.value.requested) && Ground(r.value.defaultActions) && Ground(r.value.handled)
    {
      var requests :- MapRequests(source.requests);
      var escaping :- MapRow(source.escaping);
      var requested :- MapRow(source.requested);
      var defaultActions :- MapRow(source.defaultActions);
      var handled :- MapRow(source.handled);
      var trace :- MapOneTrace(source.trace);
      return Ok(Summary(requests, None, escaping, requested, defaultActions, handled, trace));
    }

    /** Default handlers replace the escaping row of the mapped core by the recomputed one. */
    method AddDefaults(mapped: Summary, source: Summary) returns (r: Result<Summary, SubstitutionError>)
      requires Enumerates(order) && mapped == CoreImage(Ctx(), source.(defaults := None)) && Ground(mapped.escaping)
      modifies this`remaining
      ensures Paid(r.Ok?, old(remaining), remaining, source.defaults.Some? ==> DefaultsMappable(Ctx(), source.defaults.value),
                   if source.defaults.Some? then DefaultsCost(Ctx(), source.defaults.value) else 0)
      ensures r.Ok? ==> r.value == CoreImage(Ctx(), source) && Balanced(r.value) && Ground(r.value.escaping)
      ensures r.Ok? && r.value.defaults.Some? ==> GroundDefaults(r.value.defaults.value)
    {
      if source.defaults.None? {
        return Ok(mapped);
      }
      var defaults :- MapDefaults(source.defaults.value);
      JoinProducedGround(defaults.direct, defaults.handlers);
      return Ok(mapped.(defaults := Some(defaults), escaping := EscapingOf(defaults)));
    }

    method MapOptionalExits(source: Option<ExitSummary>) returns (r: Result<Option<ExitSummary>, SubstitutionError>)
      requires Enumerates(order)
      modifies this`remaining
      ensures Paid(r.Ok?, old(remaining), remaining, source.Some? ==> ExitsMappable(Ctx(), source.value),
                   if source.Some? then ExitsCost(Ctx(), source.value) else 0)
      ensures r.Ok? ==> r.value == (if source.Some? then Some(ExitsImage(Ctx(), source.value, ranks, keys)) else None)
      ensures r.Ok? && r.value.Some? ==> GroundExits(r.value.value)
    {
      if source.None? {
        return Ok(None);
      }
      var mapped :- MapExits(source.value);
      return Ok(Some(mapped));
    }

    method MapCheck(x: ResidualRef) returns (r: Result<ResidualRef, SubstitutionError>)
      modifies this`remaining
      ensures Paid(r.Ok?, old(remaining), remaining, CheckMappable(Chk(), x), CheckPrice(Chk(), x))
      ensures r.Ok? ==> r.value == CheckImage(Chk(), x)
    {
      var _ :- Checkpoint();
      if bindings.None? {
        return Ok(x);
      }
      var image, cost := bindings.value.image(x), bindings.value.cost(x);
      if image.None? {
        return Err(ResidualError(x));
      }
      if remaining < cost {
        return Err(ResourceLimit);
      }
      remaining := remaining - cost;
      return Ok(image.value);
    }

    method MapChecks(source: set<ResidualRef>) returns (r: Result<set<ResidualRef>, SubstitutionError>)
      modifies this`remaining
      ensures Paid(r.Ok?, old(remaining), remaining, ChecksMappable(Chk(), source), SetSum(source, CheckCharge(Chk()).cost))
      ensures r.Ok? ==> r.value == ImageSet(source, CheckCharge(Chk()))
    {
      if source != {} && bindings.None? && !(identityTypes && rows == []) {
        return Err(UnsupportedResidual);
      }
      var todo, done: set<ResidualRef> := source, {};
      ghost var step := CheckCharge(Chk());
      SetPassStart(source, step, remaining);
      while todo != {}
        invariant step == CheckCharge(Chk()) && SetPass(source, todo, done, step, old(remaining), remaining)
        decreases |todo|
      {
        var x :| x in todo;
        ghost var before := remaining;
        var mapped := MapCheck(x);
        if mapped.Err? {
          SetPassStop(source, todo, done, step, old(remaining), before, x);
          return Err(mapped.error);
        }
        SetPassStep(source, todo, done, step, old(remaining), before, x, mapped.value);
        todo, done := todo - {x}, done + {mapped.value};
      }
      SetPassEnd(source, done, step, old(remaining), remaining);
      return Ok(done);
    }

    /** The residual checks, obligations and requirements. */
    method MapFacts(source: FullSummary) returns (r: Result<(set<ResidualRef>, set<Requirement>, set<Requirement>), SubstitutionError>)
      requires Enumerates(order)
      modifies this`remaining
      ensures Paid(r.Ok?, old(remaining), remaining, FactsMappable(Ctx(), Chk(), source), FactsCost(Ctx(), Chk(), source))
      ensures r.Ok? ==>
                && r.value == (ImageSet(source.checks, CheckCharge(Chk())), ImageSet(source.obligations, RequirementCharge(Ctx())),
                               ImageSet(source.requirements, RequirementCharge(Ctx())))
                && GroundRequirements(r.value.1) && GroundRequirements(r.value.2)
    {
      var checks :- MapChecks(source.checks);
      var obligations :- MapRequirements(source.obligations);
      var requirements :- MapRequirements(source.requirements);
      return Ok((checks, obligations, requirements));
    }

    /** The core with its default handlers; the facts are mapped in between. */
    method MapCore(source: FullSummary) returns (r: Result<FullSummary, SubstitutionError>)
      requires Enumerates(order)
      modifies this`remaining
      ensures Paid(r.Ok?, old(remaining), remaining, CoreMappable(Ctx(), source.core) && FactsMappable(Ctx(), Chk(), source),
                   CoreCost(Ctx(), source.core) + FactsCost(Ctx(), Chk(), source))
      ensures r.Ok? ==> r.value == SummaryImage(Ctx(), Chk(), source.(exits := None), ranks, keys)
      ensures r.Ok? ==> GroundSummary(r.value) && Balanced(r.value.core)
    {
      var rows :- MapCoreRows(source.core);
      var facts :- MapFacts(source);
      var core :- AddDefaults(rows, source.core);
      return Ok(source.(core := core, exits := None, checks := facts.0, obligations := facts.1, requirements := facts.2));
    }

    /** A mapped summary is ground, balanced and the image of its source; success and cost are exact. */
    method MapSummary(source: FullSummary) returns (r: Result<FullSummary, SubstitutionError>)
      requires Enumerates(order)
      modifies this`remaining
      ensures Paid(r.Ok?, old(remaining), remaining, SummaryMappable(Ctx(), Chk(), source), SummaryCost(Ctx(), Chk(), source))
      ensures r.Ok? ==> r.value == SummaryImage(Ctx(), Chk(), source, ranks, keys) && GroundSummary(r.value) && Balanced(r.value.core)
    {
      var _ :- Checkpoint();
      var mapped :- MapCore(source);
      var exits :- MapOptionalExits(source.exits);
      return Ok(mapped.(exits := exits));
    }

    /**
     * Row arguments must be closed and name each variable once; the summary is then mapped under exactly
     * them. It succeeds exactly when that holds, everything can be mapped and the budget covers it all.
     */
    method Apply(source: FullSummary) returns (r: Result<FullSummary, SubstitutionError>)
      requires Enumerates(order) && byVariable == map[]
      modifies this
      ensures Paid(r.Ok?, old(remaining), remaining, UsableRows(rows) && SummaryMappable(Under(rows), Chk(), source),
                   |rows| + SummaryCost(Under(rows), Chk(), source))
      ensures r.Ok? ==> r.value == SummaryImage(Under(rows), Chk(), source, ranks, keys) && GroundSummary(r.value) && Balanced(r.value.core)
    {
      for i := 0 to |rows|
        invariant UsableRows(rows[..i]) && byVariable == RowBindings(rows[..i]) && remaining + i == old(remaining)
      {
        RowBindingsPush(rows, i);
        var (variable, row) := rows[i];
        var _ :- Checkpoint();
        if variable in byVariable {
          return Err(AmbiguousRow(variable));
        }
        byVariable := byVariable[variable := row];
        if row.open.Some? {
          return Err(UnboundRow(row.open.value));
        }
      }
      assert rows[..|rows|] == rows;
      r := MapSummary(source);
    }

    /** The context under given row arguments. */
    function Under(rows: seq<(VarId, EffectRow)>): Context
    {
      Context(ty, arity, order, RowBindings(rows))
    }
  }

  function RowBindings(rows: seq<(VarId, EffectRow)>): map<VarId, EffectRow>
  {
    if rows == [] then map[] else RowBindings(Rest(rows))[Top(rows).0 := Top(rows).1]
  }

  predicate UsableRows(rows: seq<(VarId, EffectRow)>)
  {
    DistinctVariables(rows) && forall i :: 0 <= i < |rows| ==> rows[i].1.open.None?
  }

  predicate Names(rows: seq<(VarId, EffectRow)>, v: VarId)
  {
    exists i :: 0 <= i < |rows| && rows[i].0 == v
  }

  lemma {:induction false} RowBindingsKeys(rows: seq<(VarId, EffectRow)>, v: VarId)
    ensures v in RowBindings(rows) <==> Names(rows, v)
    decreases |rows|
  {
    if rows != [] {
      RowBindingsKeys(Rest(rows), v);
      NamesPushed(rows, v);
    }
  }

  lemma NamesPushed(rows: seq<(VarId, EffectRow)>, v: VarId)
    requires rows != []
    ensures Names(rows, v) <==> Names(Rest(rows), v) || Top(rows).0 == v
  {
    if i :| 0 <= i < |Rest(rows)| && Rest(rows)[i].0 == v {
      assert rows[i].0 == v;
    }
    if i :| 0 <= i < |rows| && rows[i].0 == v {
      assert i < |Rest(rows)| ==> Rest(rows)[i] == rows[i];
    }
    assert Top(rows) == rows[|rows| - 1];
  }

  /** One more row: it is usable exactly when its variable is new and it is closed. */
  lemma RowBindingsPush(rows: seq<(VarId, EffectRow)>, i: nat)
    requires i < |rows|
    ensures RowBindings(rows[..i + 1]) == RowBindings(rows[..i])[rows[i].0 := rows[i].1]
    ensures rows[i].0 in RowBindings(rows[..i]) || rows[i].1.open.Some? ==> !UsableRows(rows)
    ensures UsableRows(rows[..i]) && rows[i].0 !in RowBindings(rows[..i]) && rows[i].1.open.None? ==> UsableRows(rows[..i + 1])
  {
    assert Rest(rows[..i + 1]) == rows[..i] && Top(rows[..i + 1]) == rows[i];
    RowBindingsKeys(rows[..i], rows[i].0);
  }

  predicate DistinctVariables(rows: seq<(VarId, EffectRow)>)
  {
    forall i, j :: 0 <= i < j < |rows| ==> rows[i].0 != rows[j].0
  }
}
