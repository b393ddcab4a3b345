/** What substitution does to every part of a summary, type by type, and its two laws. */
module SubstitutionLaws {
  import opened Prelude
  import opened Effects
  import opened Traces
  import opened SortedLists
  import opened TraceOps
  import opened TraceMapping
  import opened SummaryValues
  import opened Exits
  import opened SummaryFacts
  import opened Passes
  import opened SummarySubstitution

  // ----- Types and effects. -----

  predicate TypeGoes(c: Context, t: TypeId, u: TypeId)
  {
    c.ty(t) == Some(u)
  }

  predicate TypesGo(c: Context, ts: seq<TypeId>, us: seq<TypeId>)
  {
    |us| == |ts| && forall i :: 0 <= i < |ts| ==> TypeGoes(c, ts[i], us[i])
  }

  /** A type argument becomes the type's image, any other argument stays. */
  predicate ArgGoes(c: Context, x: EffectArg, y: EffectArg)
  {
    if x.TypeArg? then y.TypeArg? && TypeGoes(c, x.ty, y.ty) else y == x
  }

  predicate ArgsGo(c: Context, xs: seq<EffectArg>, ys: seq<EffectArg>)
  {
    |ys| == |xs| && forall i :: 0 <= i < |xs| ==> ArgGoes(c, xs[i], ys[i])
  }

  /** The same constructor and tag or action, with every type replaced by its image in place. */
  predicate EffectGoes(c: Context, e: Effect, y: Effect)
  {
    match e
    case Tag(_) => y == e
    case Action(a) => y == e && c.arity(a) == Some(0)
    case AppliedAction(a, args) => y.AppliedAction? && y.action == a && c.arity(a) == Some(|args|) && ArgsGo(c, args, y.args)
    case Applied(tag, tys) => y.Applied? && y.tag == tag && TypesGo(c, tys, y.types)
    case Error(ty) => y.Error? && TypeGoes(c, ty, y.ty)
    case Var(_) => false
  }

  /** Every type in the effect has an image, actions have their registered number of arguments, and it is no variable. */
  predicate Substitutable(c: Context, e: Effect)
  {
    match e
    case Tag(_) => true
    case Action(a) => c.arity(a) == Some(0)
    case AppliedAction(a, args) => c.arity(a) == Some(|args|) && forall i :: 0 <= i < |args| && args[i].TypeArg? ==> c.ty(args[i].ty).Some?
    case Applied(_, tys) => forall i :: 0 <= i < |tys| ==> c.ty(tys[i]).Some?
    case Error(ty) => c.ty(ty).Some?
    case Var(_) => false
  }

  lemma {:induction false} TypesImageGoes(c: Context, tys: seq<TypeId>)
    ensures TypesImage(c, tys).Some? <==> forall i :: 0 <= i < |tys| ==> c.ty(tys[i]).Some?
    ensures TypesImage(c, tys).Some? ==> TypesGo(c, tys, TypesImage(c, tys).value) && TypesOf(c, tys) == TypesImage(c, tys).value
  {
    if tys != [] {
      TypesImageGoes(c, tys[1..]);
      assert forall i :: 0 < i < |tys| ==> tys[1..][i - 1] == tys[i];
      assert forall i :: 0 <= i < |tys[1..]| ==> tys[1..][i] == tys[i + 1];
    }
  }

  lemma {:induction false} ArgsImageGoes(c: Context, args: seq<EffectArg>)
    ensures ArgsImage(c, args).Some? <==> forall i :: 0 <= i < |args| && args[i].TypeArg? ==> c.ty(args[i].ty).Some?
    ensures ArgsImage(c, args).Some? ==> ArgsGo(c, args, ArgsImage(c, args).value)
  {
    if args != [] {
      ArgsImageGoes(c, args[1..]);
      assert forall i :: 0 < i < |args| ==> args[1..][i - 1] == args[i];
      assert forall i :: 0 <= i < |args[1..]| ==> args[1..][i] == args[i + 1];
    }
  }

  /** An effect has an image exactly when it can be substituted, and the image is the substituted effect. */
  lemma ImageGoes(c: Context, e: Effect)
    ensures Image(c, e).Some? <==> Substitutable(c, e)
    ensures Image(c, e).Some? ==> EffectGoes(c, e, Image(c, e).value) && Renaming(c)(e) == Image(c, e).value
  {
    if e.AppliedAction? {
      ArgsImageGoes(c, e.args);
    } else if e.Applied? {
      TypesImageGoes(c, e.types);
    }
  }

  /** Substitution has one result. */
  lemma GoesOnce(c: Context, e: Effect, x: Effect, y: Effect)
    requires EffectGoes(c, e, x) && EffectGoes(c, e, y)
    ensures x == y
  {
    if e.AppliedAction? {
      assert x.args == y.args;
    } else if e.Applied? {
      assert x.types == y.types;
    }
  }

  /** The budgeted mapper returns the substituted effect, and fails exactly without one or without budget. */
  lemma SubEffectGoes(c: Context, e: Effect, n: nat)
    ensures SubEffect(c, e, n).Ok? <==> Substitutable(c, e) && n >= EffectCost(e)
    ensures SubEffect(c, e, n).Ok? ==> EffectGoes(c, e, SubEffect(c, e, n).value.0)
  {
    ImageGoes(c, e);
  }

  // ----- Sets, lists and rows. -----

  /** Every effect of the first set goes to one of the second, and every one of the second comes from one of the first. */
  ghost predicate EffectsGo(c: Context, xs: set<Effect>, ys: set<Effect>)
  {
    (forall x :: x in xs ==> GoesAmong(c, x, ys)) && (forall y :: y in ys ==> CameFrom(c, y, xs))
  }

  ghost predicate GoesAmong(c: Context, x: Effect, ys: set<Effect>)
  {
    exists y :: y in ys && EffectGoes(c, x, y)
  }

  ghost predicate CameFrom(c: Context, y: Effect, xs: set<Effect>)
  {
    exists x :: x in xs && EffectGoes(c, x, y)
  }

  ghost predicate RowGoes(c: Context, row: EffectRow, out: EffectRow)
  {
    && (row.open.Some? ==> row.open.value in c.rows)
    && out.open.None? && EffectsGo(c, row.effects + TailEffects(c, row), out.effects)
  }

  /** The effects bound to the row's tail. */
  function TailEffects(c: Context, row: EffectRow): set<Effect>
  {
    if row.open.Some? && row.open.value in c.rows then c.rows[row.open.value].effects else {}
  }

  lemma ImagesGo(c: Context, xs: set<Effect>)
    requires Mappable(c, xs)
    ensures EffectsGo(c, xs, ImageOf(c, xs))
  {
    forall x | x in xs
      ensures GoesAmong(c, x, ImageOf(c, xs))
    {
      ImageGoes(c, x);
      assert Image(c, x).value in ImageOf(c, xs);
    }
    forall y | y in ImageOf(c, xs)
      ensures CameFrom(c, y, xs)
    {
      var x :| x in xs && Image(c, x) == Some(y);
      ImageGoes(c, x);
    }
  }

  lemma RenamedIsImage(c: Context, xs: set<Effect>)
    requires Mappable(c, xs)
    ensures (set a | a in xs :: Renaming(c)(a)) == ImageOf(c, xs)
  {
    forall x | x in xs
      ensures Renaming(c)(x) == Image(c, x).value
    {
    }
  }

  lemma RowImageGoes(c: Context, row: EffectRow)
    requires RowMappable(c, row)
    ensures RowGoes(c, row, RowImage(c, row))
  {
    ImagesGo(c, RowSources(c, row));
  }

  // ----- Traces. -----

  /** The same trace with every action substituted: spans, sources, sites, calls and the order of parts stay. */
  ghost predicate TraceGoes(c: Context, t: Trace, u: Trace)
    decreases t, 0
  {
    match t
    case Event(e) =>
      u.Event? && u.event == e.(action := u.event.action) && EffectGoes(c, e.action, u.event.action) && IsAction(u.event.action)
    case TaskStart(site, inner) => u.TaskStart? && u.site == site && TraceGoes(c, inner, u.inner)
    case Repeat(inner) => u.Repeat? && TraceGoes(c, inner, u.inner)
    case Seq(parts) => u.Seq? && TracesGo(c, parts, u.parts)
    case Choice(parts) => u.Choice? && TracesGo(c, parts, u.parts)
    case Parallel(parts) => u.Parallel? && TracesGo(c, parts, u.parts)
    case UnknownOrder(actions) => u.UnknownOrder? && EffectsGo(c, actions, u.actions)
    case Widened(actions, calls) => u.Widened? && u.calls == calls && EffectsGo(c, actions, u.actions)
    case _ => u == t
  }

  ghost predicate TracesGo(c: Context, ts: seq<Trace>, us: seq<Trace>)
    decreases ts, 1
  {
    |us| == |ts| && (ts != [] ==> TraceGoes(c, ts[0], us[0]) && TracesGo(c, ts[1..], us[1..]))
  }

  lemma {:induction false} RenamedGoes(c: Context, t: Trace)
    requires TraceMappable(c, t)
    ensures TraceGoes(c, t, Rename(t, Renaming(c)))
    decreases t, 0
  {
    if Compound(t) {
      AllRenamedGo(c, t.parts);
    } else if Wrapper(t) {
      RenamedGoes(c, t.inner);
    } else if t.UnknownOrder? || t.Widened? {
      assert Mappable(c, t.actions);
      RenamedIsImage(c, t.actions);
      ImagesGo(c, t.actions);
    } else if t.Event? {
      ImageGoes(c, t.event.action);
    }
  }

  lemma {:induction false} AllRenamedGo(c: Context, ts: seq<Trace>)
    requires AllMap(ts, HasImage(c), HasActionImage(c))
    ensures TracesGo(c, ts, RenameAll(ts, Renaming(c)))
    decreases ts, 1
  {
    if ts != [] {
      RenamedGoes(c, ts[0]);
      AllRenamedGo(c, ts[1..]);
      assert RenameAll(ts, Renaming(c))[1..] == RenameAll(ts[1..], Renaming(c));
    }
  }

  // ----- The parts of a summary. -----

  ghost predicate RequirementGoes(c: Context, q: Requirement, r: Requirement)
  {
    match q
    case AllowRequirement(pattern, text) => r.AllowRequirement? && r.text == text && RowGoes(c, pattern, r.pattern)
    case DenyRequirement(pattern, text) => r.DenyRequirement? && r.text == text && RowGoes(c, pattern, r.pattern)
    case BeforeRequirement(guard, a, target, b) =>
      r.BeforeRequirement? && r.guardText == a && r.targetText == b && RowGoes(c, guard, r.guard) && RowGoes(c, target, r.target)
    case AfterRequirement(target, a, obligation, b) =>
      r.AfterRequirement? && r.targetText == a && r.obligationText == b && RowGoes(c, target, r.target) && RowGoes(c, obligation, r.obligation)
    case _ => r == q
  }

  ghost predicate HandlerGoes(c: Context, h: DefaultHandler, k: DefaultHandler)
  {
    EffectGoes(c, h.action, k.action) && IsAction(k.action) && RowGoes(c, h.produced, k.produced)
  }

  ghost predicate BindingsGo(c: Context, bs: seq<(string, TypeId)>, ds: seq<(string, TypeId)>)
  {
    |ds| == |bs| && forall i :: 0 <= i < |bs| ==> ds[i].0 == bs[i].0 && TypeGoes(c, bs[i].1, ds[i].1)
  }

  ghost predicate ActionRequestGoes(c: Context, a: ActionRequest, b: ActionRequest)
  {
    && EffectGoes(c, a.action, b.action) && IsAction(b.action)
    && b.typeBindings.Some? == a.typeBindings.Some? && (a.typeBindings.Some? ==> BindingsGo(c, a.typeBindings.value, b.typeBindings.value))
    && b.signature.Some? == a.signature.Some?
    && (a.signature.Some? ==>
          TypesGo(c, a.signature.value.0, b.signature.value.0) && TypeGoes(c, a.signature.value.1, b.signature.value.1))
  }

  ghost predicate ParameterRequestGoes(c: Context, p: ParameterRequest, q: ParameterRequest)
  {
    q == p.(excluded := q.excluded) && EffectsGo(c, p.excluded, q.excluded)
  }

  ghost predicate OutcomeGoes(c: Context, o: CallableOutcome, p: CallableOutcome)
  {
    match o
    case NonReturn => p == o
    case Raised(error) => p.Raised? && TypeGoes(c, error, p.error)
    case Returned(ty, seen) => p.Returned? && p.observation == seen && TypeGoes(c, ty, p.ty)
    case HandlerFinished(ty, seen) => p.HandlerFinished? && p.observation == seen && TypeGoes(c, ty, p.ty)
    case HandlerResumed(ty, seen) => p.HandlerResumed? && p.observation == seen && TypeGoes(c, ty, p.ty)
  }

  ghost predicate ExitGoes(c: Context, f: ExitFact, g: ExitFact)
  {
    OutcomeGoes(c, f.outcome, g.outcome) && TraceGoes(c, f.trace, g.trace)
  }

  ghost predicate GapGoes(c: Context, g: Gap, k: Gap)
  {
    if g.ParameterCallGap? then k.ParameterCallGap? && k.call == g.call && TypeGoes(c, g.output, k.output) else k == g
  }

  ghost predicate HandlerGapGoes(c: Context, g: HandlerGapEvidence, k: HandlerGapEvidence)
  {
    k.source == g.source && k.normalControl == g.normalControl && RowGoes(c, g.handled, k.handled) && RowGoes(c, g.bodyEscaping, k.bodyEscaping)
  }

  ghost predicate ArgumentsGo(c: Context, xs: seq<ExitArgument>, ys: seq<ExitArgument>)
  {
    |ys| == |xs| && forall i :: 0 <= i < |xs| ==> ys[i] == xs[i].(ty := ys[i].ty) && TypeGoes(c, xs[i].ty, ys[i].ty)
  }

  ghost predicate ParameterExitGoes(c: Context, x: ParameterExit, y: ParameterExit)
  {
    && y.exitKey == x.exitKey.(output := y.exitKey.output, arguments := y.exitKey.arguments)
    && TypeGoes(c, x.exitKey.output, y.exitKey.output)
    && y.exitKey.arguments.Some? == x.exitKey.arguments.Some?
    && (x.exitKey.arguments.Some? ==> ArgumentsGo(c, x.exitKey.arguments.value, y.exitKey.arguments.value))
    && y.handlerFree == x.handlerFree
    && y.enclosingHandled.Some? == x.enclosingHandled.Some?
    && (x.enclosingHandled.Some? ==> RowGoes(c, x.enclosingHandled.value, y.enclosingHandled.value))
    && TraceGoes(c, x.prefix, y.prefix)
  }

  /** Exit facts and gaps are substituted in place; parameter exits are substituted and then recorded one by one. */
  ghost predicate ExitsGo(c: Context, x: ExitSummary, y: ExitSummary, ranks: Ranks, keys: SortKeys)
  {
    && ListGoes(x.exits, y.exits, (a, b) => ExitGoes(c, a, b))
    && SetGoes(x.gaps, y.gaps, (a, b) => GapGoes(c, a, b))
    && SetGoes(x.handlerGaps, y.handlerGaps, (a, b) => HandlerGapGoes(c, a, b))
    && exists ps :: ListGoes(x.parameterExits, ps, (a, b) => ParameterExitGoes(c, a, b)) && y.parameterExits == UpsertAll([], ps, ParameterRank(ranks), MergeParameter(keys))
  }

  /** The escaping row is substituted where there are no default handlers, and recomputed where there are. */
  ghost predicate CoreGoes(c: Context, s: Summary, t: Summary)
  {
    && t.requests.Available? == s.requests.Available?
    && (s.requests.Available? ==>
          && SetGoes(s.requests.actions, t.requests.actions, (a, b) => ActionRequestGoes(c, a, b))
          && SetGoes(s.requests.parameters, t.requests.parameters, (a, b) => ParameterRequestGoes(c, a, b)))
    && t.defaults.Some? == s.defaults.Some?
    && (s.defaults.Some? ==>
          && RowGoes(c, s.defaults.value.direct, t.defaults.value.direct)
          && ListGoes(s.defaults.value.handlers, t.defaults.value.handlers, (a, b) => HandlerGoes(c, a, b)))
    && (exists row :: RowGoes(c, s.escaping, row)) && (s.defaults.None? ==> RowGoes(c, s.escaping, t.escaping)) && Balanced(t)
    && RowGoes(c, s.requested, t.requested) && RowGoes(c, s.defaultActions, t.defaultActions) && RowGoes(c, s.handled, t.handled)
    && TraceGoes(c, s.trace, t.trace)
  }

  /** The reference is the one its bindings give, or unchanged without bindings. */
  predicate CheckGoes(k: Checks, x: ResidualRef, y: ResidualRef)
  {
    if k.bindings.Some? then k.bindings.value.image(x) == Some(y) else y == x
  }

  ghost predicate SummaryGoes(c: Context, k: Checks, s: FullSummary, t: FullSummary, ranks: Ranks, keys: SortKeys)
  {
    && CoreGoes(c, s.core, t.core)
    && t.exits.Some? == s.exits.Some? && (s.exits.Some? ==> ExitsGo(c, s.exits.value, t.exits.value, ranks, keys))
    && (s.checks != {} && k.bindings.None? ==> k.plain) && SetGoes(s.checks, t.checks, (a, b) => CheckGoes(k, a, b))
    && SetGoes(s.obligations, t.obligations, (a, b) => RequirementGoes(c, a, b))
    && SetGoes(s.requirements, t.requirements, (a, b) => RequirementGoes(c, a, b))
    && t.determinism == s.determinism && t.independent == s.independent && t.support == s.support
  }

  // ----- Images are substituted. -----

  lemma RequirementImageGoes(c: Context, q: Requirement)
    requires RequirementMappable(c, q)
    ensures RequirementGoes(c, q, RequirementImage(c, q))
  {
    match q
    case AllowRequirement(pattern, _) => RowImageGoes(c, pattern);
    case DenyRequirement(pattern, _) => RowImageGoes(c, pattern);
    case BeforeRequirement(guard, _, target, _) =>
      RowImageGoes(c, guard);
      RowImageGoes(c, target);
    case AfterRequirement(target, _, obligation, _) =>
      RowImageGoes(c, target);
      RowImageGoes(c, obligation);
    case _ =>
  }

  lemma RequirementsGo(c: Context, qs: set<Requirement>)
    requires EachCan(qs, RequirementCharge(c))
    ensures SetGoes(qs, ImageSet(qs, RequirementCharge(c)), (a, b) => RequirementGoes(c, a, b))
  {
    forall q | q in qs
      ensures RequirementGoes(c, q, RequirementCharge(c).image(q))
    {
      assert RequirementCharge(c).can(q);
      RequirementImageGoes(c, q);
    }
    ImageSetGoes(qs, RequirementCharge(c), (a, b) => RequirementGoes(c, a, b));
  }

  lemma HandlerImageGoes(c: Context, h: DefaultHandler)
    requires HandlerMappable(c, h)
    ensures HandlerGoes(c, h, HandlerImage(c, h))
  {
    ImageGoes(c, h.action);
    RowImageGoes(c, h.produced);
  }

  lemma ActionRequestImageGoes(c: Context, a: ActionRequest)
    requires RequestMappable(c, a)
    ensures ActionRequestGoes(c, a, RequestImage(c, a))
  {
    ImageGoes(c, a.action);
    if a.typeBindings.Some? {
      var bs := a.typeBindings.value;
      forall i | 0 <= i < |bs|
        ensures TypeGoes(c, bs[i].1, TypeOf(c, bs[i].1))
      {
        assert bs[i] in bs;
      }
    }
    if a.signature.Some? {
      TypesImageGoes(c, a.signature.value.0);
    }
  }

  lemma RequestsGo(c: Context, q: Requests)
    requires q.Available? && RequestsMappable(c, q)
    ensures SetGoes(q.actions, RequestsImage(c, q).actions, (a, b) => ActionRequestGoes(c, a, b))
    ensures SetGoes(q.parameters, RequestsImage(c, q).parameters, (a, b) => ParameterRequestGoes(c, a, b))
  {
    forall a | a in q.actions
      ensures ActionRequestGoes(c, a, ActionRequestCharge(c).image(a))
    {
      assert ActionRequestCharge(c).can(a);
      ActionRequestImageGoes(c, a);
    }
    ImageSetGoes(q.actions, ActionRequestCharge(c), (a, b) => ActionRequestGoes(c, a, b));
    forall p | p in q.parameters
      ensures ParameterRequestGoes(c, p, ParameterRequestCharge(c).image(p))
    {
      assert ParameterRequestCharge(c).can(p);
      ImagesGo(c, p.excluded);
    }
    ImageSetGoes(q.parameters, ParameterRequestCharge(c), (a, b) => ParameterRequestGoes(c, a, b));
  }

  lemma ExitImageGoes(c: Context, f: ExitFact)
    requires ExitFactMappable(c, f)
    ensures ExitGoes(c, f, ExitFactImage(c, f))
  {
    RenamedGoes(c, f.trace);
  }

  lemma HandlerGapImageGoes(c: Context, g: HandlerGapEvidence)
    requires HandlerGapMappable(c, g)
    ensures HandlerGapGoes(c, g, GapImage(c, g))
  {
    RowImageGoes(c, g.handled);
    RowImageGoes(c, g.bodyEscaping);
  }

  lemma ArgumentsImageGo(c: Context, args: seq<ExitArgument>)
    requires ArgumentsMappable(c, args)
    ensures ArgumentsGo(c, args, ArgumentsImage(c, args))
  {
    forall i | 0 <= i < |args|
      ensures TypeGoes(c, args[i].ty, TypeOf(c, args[i].ty))
    {
      assert args[i] in args;
    }
  }

  lemma ParameterExitImageGoes(c: Context, x: ParameterExit)
    requires ParameterExitMappable(c, x)
    ensures ParameterExitGoes(c, x, ParameterExitImage(c, x))
  {
    RenamedGoes(c, x.prefix);
    if x.enclosingHandled.Some? {
      RowImageGoes(c, x.enclosingHandled.value);
    }
    if x.exitKey.arguments.Some? {
      ArgumentsImageGo(c, x.exitKey.arguments.value);
    }
  }

  lemma ExitListGoes(c: Context, x: ExitSummary)
    requires ExitsMappable(c, x)
    ensures ListGoes(x.exits, Images(x.exits, ExitCharge(c)), (a, b) => ExitGoes(c, a, b))
    ensures ListGoes(x.parameterExits, Images(x.parameterExits, ParameterExitCharge(c)), (a, b) => ParameterExitGoes(c, a, b))
  {
    forall i | 0 <= i < |x.exits|
      ensures ExitGoes(c, x.exits[i], ExitCharge(c).image(x.exits[i]))
    {
      assert ExitCharge(c).can(x.exits[i]);
      ExitImageGoes(c, x.exits[i]);
    }
    forall i | 0 <= i < |x.parameterExits|
      ensures ParameterExitGoes(c, x.parameterExits[i], ParameterExitCharge(c).image(x.parameterExits[i]))
    {
      assert ParameterExitCharge(c).can(x.parameterExits[i]);
      ParameterExitImageGoes(c, x.parameterExits[i]);
    }
  }

  lemma GapSetsGo(c: Context, x: ExitSummary)
    requires ExitsMappable(c, x)
    ensures SetGoes(x.gaps, ImageSet(x.gaps, GapCharge(c)), (a, b) => GapGoes(c, a, b))
    ensures SetGoes(x.handlerGaps, ImageSet(x.handlerGaps, HandlerGapCharge(c)), (a, b) => HandlerGapGoes(c, a, b))
  {
    forall g | g in x.gaps
      ensures GapGoes(c, g, GapCharge(c).image(g))
    {
      assert GapCharge(c).can(g);
    }
    ImageSetGoes(x.gaps, GapCharge(c), (a, b) => GapGoes(c, a, b));
    forall g | g in x.handlerGaps
      ensures HandlerGapGoes(c, g, HandlerGapCharge(c).image(g))
    {
      assert HandlerGapCharge(c).can(g);
      HandlerGapImageGoes(c, g);
    }
    ImageSetGoes(x.handlerGaps, HandlerGapCharge(c), (a, b) => HandlerGapGoes(c, a, b));
  }

  lemma ExitsImageGo(c: Context, x: ExitSummary, ranks: Ranks, keys: SortKeys)
    requires ExitsMappable(c, x)
    ensures ExitsGo(c, x, ExitsImage(c, x, ranks, keys), ranks, keys)
  {
    ExitListGoes(c, x);
    GapSetsGo(c, x);
    var ps := Images(x.parameterExits, ParameterExitCharge(c));
    assert ListGoes(x.parameterExits, ps, (a, b) => ParameterExitGoes(c, a, b));
  }

  lemma DefaultsImageGo(c: Context, d: DefaultEffects)
    requires DefaultsMappable(c, d)
    ensures RowGoes(c, d.direct, DefaultsImage(c, d).direct)
    ensures ListGoes(d.handlers, DefaultsImage(c, d).handlers, (a, b) => HandlerGoes(c, a, b))
  {
    RowImageGoes(c, d.direct);
    forall i | 0 <= i < |d.handlers|
      ensures HandlerGoes(c, d.handlers[i], DefaultsImage(c, d).handlers[i])
    {
      assert HandlerCharge(c).can(d.handlers[i]);
      HandlerImageGoes(c, d.handlers[i]);
    }
  }

  lemma CoreImageGoes(c: Context, s: Summary)
    requires CoreMappable(c, s)
    ensures CoreGoes(c, s, CoreImage(c, s))
  {
    if s.requests.Available? {
      RequestsGo(c, s.requests);
    }
    if s.defaults.Some? {
      DefaultsImageGo(c, s.defaults.value);
    }
    RowImageGoes(c, s.escaping);
    RowImageGoes(c, s.requested);
    RowImageGoes(c, s.defaultActions);
    RowImageGoes(c, s.handled);
    RenamedGoes(c, s.trace);
  }

  /** Every part of a mapped summary is the substituted part of the source. */
  lemma MappedSummaryGoes(c: Context, k: Checks, s: FullSummary, ranks: Ranks, keys: SortKeys)
    requires SummaryMappable(c, k, s)
    ensures SummaryGoes(c, k, s, SummaryImage(c, k, s, ranks, keys), ranks, keys)
  {
    CoreImageGoes(c, s.core);
    if s.exits.Some? {
      ExitsImageGo(c, s.exits.value, ranks, keys);
    }
    RequirementsGo(c, s.obligations);
    RequirementsGo(c, s.requirements);
    ChecksGo(k, s.checks);
  }

  lemma ChecksGo(k: Checks, xs: set<ResidualRef>)
    requires ChecksMappable(k, xs)
    ensures SetGoes(xs, ImageSet(xs, CheckCharge(k)), (a, b) => CheckGoes(k, a, b))
  {
    forall x | x in xs
      ensures CheckGoes(k, x, CheckCharge(k).image(x))
    {
      assert CheckCharge(k).can(x);
    }
    ImageSetGoes(xs, CheckCharge(k), (a, b) => CheckGoes(k, a, b));
  }

  // ----- Substituting nothing changes nothing. -----

  ghost predicate Identity(c: Context)
  {
    c.rows == map[] && forall t: TypeId :: c.ty(t) == Some(t)
  }

  lemma IdentityEffect(c: Context, e: Effect)
    requires Identity(c) && Image(c, e).Some?
    ensures Image(c, e) == Some(e)
  {
    ImageGoes(c, e);
    var y := Image(c, e).value;
    if e.AppliedAction? {
      assert y.args == e.args;
    } else if e.Applied? {
      assert y.types == e.types;
    }
  }

  lemma IdentityEffects(c: Context, xs: set<Effect>)
    requires Identity(c) && Mappable(c, xs)
    ensures ImageOf(c, xs) == xs
  {
    forall x | x in xs
      ensures Image(c, x) == Some(x)
    {
      IdentityEffect(c, x);
    }
  }

  lemma IdentityRow(c: Context, row: EffectRow)
    requires Identity(c) && RowMappable(c, row)
    ensures RowImage(c, row) == row
  {
    assert row.open.None? && RowSources(c, row) == row.effects;
    IdentityEffects(c, row.effects);
  }

  lemma {:induction false} IdentityTrace(c: Context, t: Trace)
    requires Identity(c) && TraceMappable(c, t)
    ensures Rename(t, Renaming(c)) == t
    decreases t, 0
  {
    if Compound(t) {
      IdentityTraces(c, t.parts);
    } else if Wrapper(t) {
      IdentityTrace(c, t.inner);
    } else if t.UnknownOrder? || t.Widened? {
      assert Mappable(c, t.actions);
      RenamedIsImage(c, t.actions);
      IdentityEffects(c, t.actions);
    } else if t.Event? {
      IdentityEffect(c, t.event.action);
    }
  }

  lemma {:induction false} IdentityTraces(c: Context, ts: seq<Trace>)
    requires Identity(c) && AllMap(ts, HasImage(c), HasActionImage(c))
    ensures RenameAll(ts, Renaming(c)) == ts
    decreases ts, 1
  {
    if ts != [] {
      IdentityTrace(c, ts[0]);
      IdentityTraces(c, ts[1..]);
      assert ts == [ts[0]] + ts[1..];
    }
  }

  lemma IdentityRequirement(c: Context, q: Requirement)
    requires Identity(c) && RequirementMappable(c, q)
    ensures RequirementImage(c, q) == q
  {
    match q
    case AllowRequirement(pattern, _) => IdentityRow(c, pattern);
    case DenyRequirement(pattern, _) => IdentityRow(c, pattern);
    case BeforeRequirement(guard, _, target, _) =>
      IdentityRow(c, guard);
      IdentityRow(c, target);
    case AfterRequirement(target, _, obligation, _) =>
      IdentityRow(c, target);
      IdentityRow(c, obligation);
    case _ =>
  }

  lemma IdentityActionRequest(c: Context, a: ActionRequest)
    requires Identity(c) && RequestMappable(c, a)
    ensures RequestImage(c, a) == a
  {
    IdentityEffect(c, a.action);
    if a.typeBindings.Some? {
      assert BindingsImage(c, a.typeBindings.value) == a.typeBindings.value;
    }
    if a.signature.Some? {
      TypesImageGoes(c, a.signature.value.0);
      assert TypesOf(c, a.signature.value.0) == a.signature.value.0;
    }
  }

  lemma IdentityParameterExit(c: Context, x: ParameterExit)
    requires Identity(c) && ParameterExitMappable(c, x)
    ensures ParameterExitImage(c, x) == x
  {
    IdentityTrace(c, x.prefix);
    if x.enclosingHandled.Some? {
      IdentityRow(c, x.enclosingHandled.value);
    }
    if x.exitKey.arguments.Some? {
      var args := x.exitKey.arguments.value;
      assert ArgumentsImage(c, args) == args;
    }
  }

  lemma IdentityHandler(c: Context, h: DefaultHandler)
    requires Identity(c) && HandlerMappable(c, h)
    ensures HandlerImage(c, h) == h
  {
    IdentityEffect(c, h.action);
    IdentityRow(c, h.produced);
  }

  lemma IdentityRequirements(c: Context, qs: set<Requirement>)
    requires Identity(c) && EachCan(qs, RequirementCharge(c))
    ensures ImageSet(qs, RequirementCharge(c)) == qs
  {
    forall q | q in qs
      ensures RequirementCharge(c).image(q) == q
    {
      assert RequirementCharge(c).can(q);
      IdentityRequirement(c, q);
    }
    FixedSet(qs, RequirementCharge(c));
  }

  lemma IdentityRequests(c: Context, q: Requests)
    requires Identity(c) && RequestsMappable(c, q)
    ensures RequestsImage(c, q) == q
  {
    if q.Available? {
      forall a | a in q.actions
        ensures ActionRequestCharge(c).image(a) == a
      {
        assert ActionRequestCharge(c).can(a);
        IdentityActionRequest(c, a);
      }
      FixedSet(q.actions, ActionRequestCharge(c));
      forall p | p in q.parameters
        ensures ParameterRequestCharge(c).image(p) == p
      {
        assert ParameterRequestCharge(c).can(p);
        IdentityEffects(c, p.excluded);
      }
      FixedSet(q.parameters, ParameterRequestCharge(c));
    }
  }

  lemma IdentityGaps(c: Context, x: ExitSummary)
    requires Identity(c) && ExitsMappable(c, x)
    ensures ImageSet(x.gaps, GapCharge(c)) == x.gaps && ImageSet(x.handlerGaps, HandlerGapCharge(c)) == x.handlerGaps
  {
    FixedSet(x.gaps, GapCharge(c));
    forall g | g in x.handlerGaps
      ensures HandlerGapCharge(c).image(g) == g
    {
      assert HandlerGapCharge(c).can(g);
      IdentityRow(c, g.handled);
      IdentityRow(c, g.bodyEscaping);
    }
    FixedSet(x.handlerGaps, HandlerGapCharge(c));
  }

  lemma IdentityExitLists(c: Context, x: ExitSummary)
    requires Identity(c) && ExitsMappable(c, x)
    ensures Images(x.exits, ExitCharge(c)) == x.exits && Images(x.parameterExits, ParameterExitCharge(c)) == x.parameterExits
  {
    forall i | 0 <= i < |x.exits|
      ensures ExitCharge(c).image(x.exits[i]) == x.exits[i]
    {
      assert ExitCharge(c).can(x.exits[i]);
      IdentityTrace(c, x.exits[i].trace);
    }
    forall i | 0 <= i < |x.parameterExits|
      ensures ParameterExitCharge(c).image(x.parameterExits[i]) == x.parameterExits[i]
    {
      assert ParameterExitCharge(c).can(x.parameterExits[i]);
      IdentityParameterExit(c, x.parameterExits[i]);
    }
  }

  /** Recording a sorted list entry by entry gives the list back. */
  lemma {:induction false} SortedRecorded<T>(s: seq<T>, key: T -> Rank, merge: (T, T) -> T)
    requires Strictly(s, key)
    ensures UpsertAll([], s, key, merge) == s
  {
    if s != [] {
      var front, last := Rest(s), Top(s);
      assert s == front + [last];
      SortedRecorded(front, key, merge);
      UpsertAllPush([], front, last, key, merge);
      LookupNone(front, key(last), key);
      SortSorted(s, key);
    }
  }

  lemma IdentityExits(c: Context, x: ExitSummary, ranks: Ranks, keys: SortKeys)
    requires Identity(c) && ExitsMappable(c, x) && Strictly(x.parameterExits, ParameterRank(ranks))
    ensures ExitsImage(c, x, ranks, keys) == x
  {
    IdentityGaps(c, x);
    IdentityExitLists(c, x);
    SortedRecorded(x.parameterExits, ParameterRank(ranks), MergeParameter(keys));
  }

  lemma IdentityDefaults(c: Context, d: DefaultEffects)
    requires Identity(c) && DefaultsMappable(c, d)
    ensures DefaultsImage(c, d) == d
  {
    IdentityRow(c, d.direct);
    forall i | 0 <= i < |d.handlers|
      ensures HandlersImage(c, d.handlers)[i] == d.handlers[i]
    {
      assert HandlerCharge(c).can(d.handlers[i]);
      IdentityHandler(c, d.handlers[i]);
    }
    assert HandlersImage(c, d.handlers) == d.handlers;
  }

  lemma IdentityCore(c: Context, s: Summary)
    requires Identity(c) && CoreMappable(c, s) && Balanced(s)
    ensures CoreImage(c, s) == s
  {
    IdentityRequests(c, s.requests);
    if s.defaults.Some? {
      IdentityDefaults(c, s.defaults.value);
    }
    IdentityRow(c, s.escaping);
    IdentityRow(c, s.requested);
    IdentityRow(c, s.defaultActions);
    IdentityRow(c, s.handled);
    IdentityTrace(c, s.trace);
  }

  /** Under identity types and no rows a well-formed summary that can be mapped comes back as it was. */
  lemma IdentityKeeps(c: Context, k: Checks, s: FullSummary, ranks: Ranks, keys: SortKeys)
    requires Identity(c) && k.bindings.None? && SummaryMappable(c, k, s) && WellFormed(s, ranks)
    ensures SummaryImage(c, k, s, ranks, keys) == s
  {
    IdentityCore(c, s.core);
    if s.exits.Some? {
      IdentityExits(c, s.exits.value, ranks, keys);
    }
    IdentityRequirements(c, s.obligations);
    IdentityRequirements(c, s.requirements);
    FixedSet(s.checks, CheckCharge(k));
  }

  // ----- Substituting twice is substituting once. -----

  /** First one context's types, then the other's. */
  function Composed(c: Context, d: Context): Context
  {
    c.(ty := (t: TypeId) => if c.ty(t).Some? then d.ty(c.ty(t).value) else None)
  }

  lemma {:induction false} ComposedTypes(c: Context, d: Context, tys: seq<TypeId>)
    ensures TypesImage(Composed(c, d), tys) == if TypesImage(c, tys).Some? then TypesImage(d, TypesImage(c, tys).value) else None
  {
    if tys != [] {
      ComposedTypes(c, d, tys[1..]);
      if TypesImage(c, tys).Some? {
        assert TypesImage(c, tys).value[1..] == TypesImage(c, tys[1..]).value;
      }
    }
  }

  lemma {:induction false} ComposedArgs(c: Context, d: Context, args: seq<EffectArg>)
    ensures ArgsImage(Composed(c, d), args) == if ArgsImage(c, args).Some? then ArgsImage(d, ArgsImage(c, args).value) else None
  {
    if args != [] {
      ComposedArgs(c, d, args[1..]);
      if ArgsImage(c, args).Some? {
        assert ArgsImage(c, args).value[1..] == ArgsImage(c, args[1..]).value;
      }
    }
  }

  lemma ComposedEffect(c: Context, d: Context, e: Effect)
    requires d.arity == c.arity
    ensures Image(Composed(c, d), e) == if Image(c, e).Some? then Image(d, Image(c, e).value) else None
  {
    if e.AppliedAction? {
      ComposedArgs(c, d, e.args);
    } else if e.Applied? {
      ComposedTypes(c, d, e.types);
    }
  }

  lemma ComposedEffects(c: Context, d: Context, xs: set<Effect>)
    requires d.arity == c.arity
    ensures ImageOf(Composed(c, d), xs) == ImageOf(d, ImageOf(c, xs))
  {
    forall y
      ensures y in ImageOf(Composed(c, d), xs) <==> y in ImageOf(d, ImageOf(c, xs))
    {
      if y in ImageOf(Composed(c, d), xs) {
        var x :| x in xs && Image(Composed(c, d), x) == Some(y);
        ComposedEffect(c, d, x);
        assert Image(c, x).value in ImageOf(c, xs);
      }
      if y in ImageOf(d, ImageOf(c, xs)) {
        var z :| z in ImageOf(c, xs) && Image(d, z) == Some(y);
        var x :| x in xs && Image(c, x) == Some(z);
        ComposedEffect(c, d, x);
      }
    }
  }

  /** Every row: substituting under one context and then another is substituting under the composed types. */
  lemma ComposedRow(c: Context, d: Context, row: EffectRow)
    requires d.arity == c.arity
    ensures RowImage(d, RowImage(c, row)) == RowImage(Composed(c, d), row)
  {
    ComposedEffects(c, d, RowSources(c, row));
    assert RowSources(d, RowImage(c, row)) == RowImage(c, row).effects;
  }

  /** Every trace whose actions can be substituted, likewise. */
  lemma {:induction false} ComposedTrace(c: Context, d: Context, t: Trace)
    requires d.arity == c.arity && forall a :: a in Actions(t) ==> Image(Composed(c, d), a).Some?
    ensures Rename(Rename(t, Renaming(c)), Renaming(d)) == Rename(t, Renaming(Composed(c, d)))
    decreases t, 0
  {
    if Compound(t) {
      ComposedTraces(c, d, t.parts);
    } else if Wrapper(t) {
      ComposedTrace(c, d, t.inner);
    } else if t.Event? {
      ComposedName(c, d, t.event.action);
    } else if t.UnknownOrder? || t.Widened? {
      ComposedNames(c, d, t.actions);
    }
  }

  lemma ComposedName(c: Context, d: Context, e: Effect)
    requires d.arity == c.arity && Image(Composed(c, d), e).Some?
    ensures Renaming(d)(Renaming(c)(e)) == Renaming(Composed(c, d))(e)
  {
    ComposedEffect(c, d, e);
  }

  lemma ComposedNames(c: Context, d: Context, xs: set<Effect>)
    requires d.arity == c.arity && forall a :: a in xs ==> Image(Composed(c, d), a).Some?
    ensures (set b | b in (set a | a in xs :: Renaming(c)(a)) :: Renaming(d)(b)) == set a | a in xs :: Renaming(Composed(c, d))(a)
  {
    forall a | a in xs
      ensures Renaming(d)(Renaming(c)(a)) == Renaming(Composed(c, d))(a)
    {
      ComposedName(c, d, a);
    }
    var once := set a | a in xs :: Renaming(c)(a);
    forall a | a in xs
      ensures Renaming(c)(a) in once
    {
    }
  }

  lemma {:induction false} ComposedTraces(c: Context, d: Context, ts: seq<Trace>)
    requires d.arity == c.arity && forall a :: a in AllActions(ts) ==> Image(Composed(c, d), a).Some?
    ensures RenameAll(RenameAll(ts, Renaming(c)), Renaming(d)) == RenameAll(ts, Renaming(Composed(c, d)))
    decreases ts, 1
  {
    if ts != [] {
      ComposedTrace(c, d, ts[0]);
      ComposedTraces(c, d, ts[1..]);
      assert RenameAll(ts, Renaming(c))[1..] == RenameAll(ts[1..], Renaming(c));
    }
  }
}
