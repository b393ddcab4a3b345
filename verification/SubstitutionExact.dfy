/** Substitution succeeds exactly where a substituted form exists. */
module SubstitutionExact {
  import opened Prelude
  import opened Effects
  import opened Traces
  import opened SummaryValues
  import opened SummaryFacts
  import opened SortedLists
  import opened Exits
  import opened TraceOps
  import opened TraceMapping
  import opened Passes
  import opened SummarySubstitution
  import opened SubstitutionLaws

  lemma GoesHasImage(c: Context, e: Effect, y: Effect)
    requires EffectGoes(c, e, y)
    ensures Image(c, e) == Some(y)
  {
    ImageGoes(c, e);
    GoesOnce(c, e, y, Image(c, e).value);
  }

  lemma EffectsHaveImages(c: Context, xs: set<Effect>, ys: set<Effect>)
    requires EffectsGo(c, xs, ys)
    ensures Mappable(c, xs)
  {
    forall x | x in xs
      ensures Image(c, x).Some?
    {
      EffectHasImage(c, x, ys);
    }
  }

  lemma EffectHasImage(c: Context, x: Effect, ys: set<Effect>)
    requires GoesAmong(c, x, ys)
    ensures Image(c, x).Some?
  {
    var y :| y in ys && EffectGoes(c, x, y);
    GoesHasImage(c, x, y);
  }

  lemma RowHasImage(c: Context, row: EffectRow, out: EffectRow)
    requires RowGoes(c, row, out)
    ensures RowMappable(c, row)
  {
    EffectsHaveImages(c, row.effects + TailEffects(c, row), out.effects);
  }

  lemma {:induction false} TraceHasImage(c: Context, t: Trace, u: Trace)
    requires TraceGoes(c, t, u)
    ensures TraceMappable(c, t)
    decreases t, 0
  {
    if Compound(t) {
      TracesHaveImages(c, t.parts, u.parts);
    } else if Wrapper(t) {
      TraceHasImage(c, t.inner, u.inner);
    } else if t.UnknownOrder? || t.Widened? {
      EffectsHaveImages(c, t.actions, u.actions);
    } else if t.Event? {
      GoesHasImage(c, t.event.action, u.event.action);
    }
  }

  lemma {:induction false} TracesHaveImages(c: Context, ts: seq<Trace>, us: seq<Trace>)
    requires TracesGo(c, ts, us)
    ensures AllMap(ts, HasImage(c), HasActionImage(c))
    decreases ts, 1
  {
    if ts != [] {
      TraceHasImage(c, ts[0], us[0]);
      TracesHaveImages(c, ts[1..], us[1..]);
    }
  }

  lemma RequirementHasImage(c: Context, q: Requirement, r: Requirement)
    requires RequirementGoes(c, q, r)
    ensures RequirementMappable(c, q)
  {
    match q
    case AllowRequirement(pattern, _) => RowHasImage(c, pattern, r.pattern);
    case DenyRequirement(pattern, _) => RowHasImage(c, pattern, r.pattern);
    case BeforeRequirement(guard, _, target, _) =>
      RowHasImage(c, guard, r.guard);
      RowHasImage(c, target, r.target);
    case AfterRequirement(target, _, obligation, _) =>
      RowHasImage(c, target, r.target);
      RowHasImage(c, obligation, r.obligation);
    case _ =>
  }

  lemma ActionRequestHasImage(c: Context, a: ActionRequest, b: ActionRequest)
    requires ActionRequestGoes(c, a, b)
    ensures RequestMappable(c, a)
  {
    GoesHasImage(c, a.action, b.action);
    if a.typeBindings.Some? {
      var bs := a.typeBindings.value;
      forall x | x in bs
        ensures TypeMappable(c, x.1)
      {
        var i :| 0 <= i < |bs| && bs[i] == x;
        assert TypeGoes(c, bs[i].1, b.typeBindings.value[i].1);
      }
    }
    if a.signature.Some? {
      TypesImageGoes(c, a.signature.value.0);
    }
  }

  lemma ParameterExitHasImage(c: Context, x: ParameterExit, y: ParameterExit)
    requires ParameterExitGoes(c, x, y)
    ensures ParameterExitMappable(c, x)
  {
    TraceHasImage(c, x.prefix, y.prefix);
    if x.enclosingHandled.Some? {
      RowHasImage(c, x.enclosingHandled.value, y.enclosingHandled.value);
    }
    if x.exitKey.arguments.Some? {
      var args := x.exitKey.arguments.value;
      forall a | a in args
        ensures TypeMappable(c, a.ty)
      {
        var i :| 0 <= i < |args| && args[i] == a;
        assert TypeGoes(c, args[i].ty, y.exitKey.arguments.value[i].ty);
      }
    }
  }

  // ----- Sets and lists. -----

  lemma SetHasImages<T(!new), U(!new), V>(xs: set<T>, ys: set<U>, goes: (T, U) -> bool, step: Charge<T, V>)
    requires SetGoes(xs, ys, goes) && forall x, y :: goes(x, y) ==> step.can(x)
    ensures EachCan(xs, step)
  {
    forall x | x in xs
      ensures step.can(x)
    {
      assert GoesInto(x, ys, goes);
      var y :| y in ys && goes(x, y);
    }
  }

  lemma RequirementsHaveImages(c: Context, xs: set<Requirement>, ys: set<Requirement>)
    requires SetGoes(xs, ys, (a, b) => RequirementGoes(c, a, b))
    ensures EachCan(xs, RequirementCharge(c))
  {
    var goes := (a: Requirement, b: Requirement) => RequirementGoes(c, a, b);
    forall x, y | goes(x, y)
      ensures RequirementCharge(c).can(x)
    {
      RequirementHasImage(c, x, y);
    }
    SetHasImages(xs, ys, goes, RequirementCharge(c));
  }

  lemma RequestsHaveImages(c: Context, q: Requests, r: Requests)
    requires q.Available? && r.Available?
    requires SetGoes(q.actions, r.actions, (a, b) => ActionRequestGoes(c, a, b))
    requires SetGoes(q.parameters, r.parameters, (a, b) => ParameterRequestGoes(c, a, b))
    ensures RequestsMappable(c, q)
  {
    var actionGoes := (a: ActionRequest, b: ActionRequest) => ActionRequestGoes(c, a, b);
    forall x, y | actionGoes(x, y)
      ensures ActionRequestCharge(c).can(x)
    {
      ActionRequestHasImage(c, x, y);
    }
    SetHasImages(q.actions, r.actions, actionGoes, ActionRequestCharge(c));
    var parameterGoes := (a: ParameterRequest, b: ParameterRequest) => ParameterRequestGoes(c, a, b);
    forall x, y | parameterGoes(x, y)
      ensures ParameterRequestCharge(c).can(x)
    {
      EffectsHaveImages(c, x.excluded, y.excluded);
    }
    SetHasImages(q.parameters, r.parameters, parameterGoes, ParameterRequestCharge(c));
  }

  lemma GapsHaveImages(c: Context, x: ExitSummary, y: ExitSummary)
    requires SetGoes(x.gaps, y.gaps, (a, b) => GapGoes(c, a, b))
    requires SetGoes(x.handlerGaps, y.handlerGaps, (a, b) => HandlerGapGoes(c, a, b))
    ensures EachCan(x.gaps, GapCharge(c)) && EachCan(x.handlerGaps, HandlerGapCharge(c))
  {
    SetHasImages(x.gaps, y.gaps, (a: Gap, b: Gap) => GapGoes(c, a, b), GapCharge(c));
    var goes := (a: HandlerGapEvidence, b: HandlerGapEvidence) => HandlerGapGoes(c, a, b);
    forall a, b | goes(a, b)
      ensures HandlerGapCharge(c).can(a)
    {
      RowHasImage(c, a.handled, b.handled);
      RowHasImage(c, a.bodyEscaping, b.bodyEscaping);
    }
    SetHasImages(x.handlerGaps, y.handlerGaps, goes, HandlerGapCharge(c));
  }

  lemma ExitsHaveImages(c: Context, x: ExitSummary, y: ExitSummary, ranks: Ranks, keys: SortKeys)
    requires ExitsGo(c, x, y, ranks, keys)
    ensures ExitsMappable(c, x)
  {
    GapsHaveImages(c, x, y);
    forall i | 0 <= i < |x.exits|
      ensures ExitCharge(c).can(x.exits[i])
    {
      assert ExitGoes(c, x.exits[i], y.exits[i]);
      TraceHasImage(c, x.exits[i].trace, y.exits[i].trace);
    }
    var ps :| ListGoes(x.parameterExits, ps, (a, b) => ParameterExitGoes(c, a, b))
              && y.parameterExits == UpsertAll([], ps, ParameterRank(ranks), MergeParameter(keys));
    forall i | 0 <= i < |x.parameterExits|
      ensures ParameterExitCharge(c).can(x.parameterExits[i])
    {
      assert ParameterExitGoes(c, x.parameterExits[i], ps[i]);
      ParameterExitHasImage(c, x.parameterExits[i], ps[i]);
    }
  }

  lemma DefaultsHaveImages(c: Context, d: DefaultEffects, e: DefaultEffects)
    requires RowGoes(c, d.direct, e.direct) && ListGoes(d.handlers, e.handlers, (a, b) => HandlerGoes(c, a, b))
    ensures DefaultsMappable(c, d)
  {
    RowHasImage(c, d.direct, e.direct);
    forall i | 0 <= i < |d.handlers|
      ensures HandlerCharge(c).can(d.handlers[i])
    {
      assert HandlerGoes(c, d.handlers[i], e.handlers[i]);
      GoesHasImage(c, d.handlers[i].action, e.handlers[i].action);
      RowHasImage(c, d.handlers[i].produced, e.handlers[i].produced);
    }
  }

  lemma CoreHasImage(c: Context, s: Summary, t: Summary)
    requires CoreGoes(c, s, t)
    ensures CoreMappable(c, s)
  {
    if s.requests.Available? {
      RequestsHaveImages(c, s.requests, t.requests);
    }
    if s.defaults.Some? {
      DefaultsHaveImages(c, s.defaults.value, t.defaults.value);
    }
    var row :| RowGoes(c, s.escaping, row);
    RowHasImage(c, s.escaping, row);
    RowHasImage(c, s.requested, t.requested);
    RowHasImage(c, s.defaultActions, t.defaultActions);
    RowHasImage(c, s.handled, t.handled);
    TraceHasImage(c, s.trace, t.trace);
  }

  lemma ChecksHaveImages(k: Checks, xs: set<ResidualRef>, ys: set<ResidualRef>)
    requires SetGoes(xs, ys, (a, b) => CheckGoes(k, a, b))
    ensures EachCan(xs, CheckCharge(k))
  {
    SetHasImages(xs, ys, (a: ResidualRef, b: ResidualRef) => CheckGoes(k, a, b), CheckCharge(k));
  }

  /**
   * A whole summary can be substituted exactly when it has a substituted form: every type has an image,
   * every action its registered arguments, every open tail a row, and every check its binding.
   */
  lemma SummaryMapsExactly(c: Context, k: Checks, s: FullSummary, ranks: Ranks, keys: SortKeys)
    ensures SummaryMappable(c, k, s) <==> exists t :: SummaryGoes(c, k, s, t, ranks, keys)
  {
    if SummaryMappable(c, k, s) {
      MappedSummaryGoes(c, k, s, ranks, keys);
    }
    if t :| SummaryGoes(c, k, s, t, ranks, keys) {
      CoreHasImage(c, s.core, t.core);
      if s.exits.Some? {
        ExitsHaveImages(c, s.exits.value, t.exits.value, ranks, keys);
      }
      RequirementsHaveImages(c, s.obligations, t.obligations);
      RequirementsHaveImages(c, s.requirements, t.requirements);
      ChecksHaveImages(k, s.checks, t.checks);
    }
  }

  /** A row can be substituted exactly when its tail is bound and each of its effects can be. */
  lemma RowMapsExactly(c: Context, row: EffectRow)
    ensures RowMappable(c, row) <==>
              && (row.open.Some? ==> row.open.value in c.rows)
              && forall e :: e in row.effects + TailEffects(c, row) ==> Substitutable(c, e)
  {
    forall e
      ensures Image(c, e).Some? <==> Substitutable(c, e)
    {
      ImageGoes(c, e);
    }
  }
}
