/** Trace-spec clauses and their static per-clause outcomes (trace_spec/model.rs, trace_spec/analysis.rs). */
module TraceSpecs {
  import opened Prelude
  import opened Effects
  import opened Traces
  import opened Words
  import opened TraceWorklists
  import opened TraceMonitor
  import opened Coverage

  type ClauseId = nat

  datatype TraceSpecClause =
    | Allow(pattern: TraceSpecPattern, source: Option<ClauseId>)
    | Deny(pattern: TraceSpecPattern, source: Option<ClauseId>)
    | BeforeClause(guard: TraceSpecPattern, target: TraceSpecPattern, source: Option<ClauseId>)
    | AfterClause(target: TraceSpecPattern, obligation: TraceSpecPattern, source: Option<ClauseId>)
    | Limit

  function SourceClause(c: TraceSpecClause): Option<ClauseId>
  {
    if c.Limit? then None else c.source
  }

  datatype Verdict = Proven | Violated | Unsupported

  datatype TemporalUncertainty = OutcomeEvidence | OrderedActions | OpenRequestedActions

  datatype TemporalVerdict =
    | TemporalProven
    | TemporalViolated
    | TemporalUnsupported(reason: TemporalUncertainty)

  function FromMonitor(r: MonitorResult, requestedOpen: bool): TemporalVerdict
  {
    match r
    case Satisfied => if requestedOpen then TemporalUnsupported(OpenRequestedActions) else TemporalProven
    case MonitorViolation => TemporalViolated
    case NeedsOutcomeEvidence => TemporalUnsupported(OutcomeEvidence)
    case Unknown => TemporalUnsupported(OrderedActions)
  }

  datatype ClauseOutcome =
    | TemporalOutcome(source: Option<ClauseId>, guard: TraceSpecPattern, target: TraceSpecPattern, temporal: TemporalVerdict)
    | DenialOutcome(source: Option<ClauseId>, pattern: TraceSpecPattern, requested: EffectRow, unresolvedCalls: bool, denial: Verdict)

  /** What pattern matching needs: the registry and the spec solver. */
  datatype Matching = Matching(registry: Registry, satisfies: (TypeId, ArgBound) -> bool)

  function PatternOf(x: Matching, p: TraceSpecPattern): Pattern
  {
    AsPattern(x.registry, x.satisfies, p)
  }

  function AnalyzeDenial(p: Pattern, callbacks: bool, requested: EffectRow): Verdict
  {
    if exists a :: a in requested.effects && p.must(a) then Violated
    else if requested.open.Some? || callbacks || exists a :: a in requested.effects && p.may(a) then Unsupported
    else Proven
  }

  function Temporal(x: Matching, source: Option<ClauseId>, guard: TraceSpecPattern, target: TraceSpecPattern, t: Trace, requested: EffectRow): ClauseOutcome
  {
    var monitor := Monitor(PatternOf(x, guard), PatternOf(x, target));
    TemporalOutcome(source, guard, target, FromMonitor(RequireBefore(monitor, t), requested.open.Some?))
  }

  function OutcomeOf(x: Matching, c: TraceSpecClause, t: Trace, requested: EffectRow): Option<ClauseOutcome>
  {
    match c
    case Deny(pattern, source) =>
      Some(DenialOutcome(source, pattern, requested, Calls(t) != [], AnalyzeDenial(PatternOf(x, pattern), Calls(t) != [], requested)))
    case BeforeClause(guard, target, source) => Some(Temporal(x, source, guard, target, t, requested))
    case AfterClause(target, obligation, source) => Some(Temporal(x, source, target, obligation, t, requested))
    case Allow(_, _) => None
    case Limit => None
  }

  predicate MatchesClause(o: ClauseOutcome, c: TraceSpecClause)
  {
    o.source == SourceClause(c) &&
    match o
    case DenialOutcome(_, pattern, _, _, _) => c.Deny? && pattern == c.pattern
    case TemporalOutcome(_, guard, target, _) =>
      (c.BeforeClause? && guard == c.guard && target == c.target) ||
      (c.AfterClause? && guard == c.target && target == c.obligation)
  }

  /** An outcome stands exactly at the denials and temporal clauses, and belongs to its clause in its direction. */
  predicate OutcomeFits(o: Option<ClauseOutcome>, c: TraceSpecClause)
  {
    (o.Some? <==> c.Deny? || c.BeforeClause? || c.AfterClause?) && (o.Some? ==> MatchesClause(o.value, c))
  }

  predicate OutcomesFit(os: seq<Option<ClauseOutcome>>, cs: seq<TraceSpecClause>)
  {
    |os| == |cs| && forall k :: 0 <= k < |cs| ==> OutcomeFits(os[k], cs[k])
  }

  predicate AlternativesFit(os: seq<seq<Option<ClauseOutcome>>>, alternatives: seq<seq<TraceSpecClause>>)
  {
    |os| == |alternatives| && forall j :: 0 <= j < |os| ==> OutcomesFit(os[j], alternatives[j])
  }

  lemma OutcomeBelongs(x: Matching, c: TraceSpecClause, t: Trace, requested: EffectRow)
    ensures OutcomeFits(OutcomeOf(x, c, t, requested), c)
  {
  }

  lemma {:induction false} ClauseOutcomesBelong(x: Matching, clauses: seq<TraceSpecClause>, t: Trace, requested: EffectRow)
    ensures OutcomesFit(ClauseOutcomes(x, clauses, t, requested), clauses)
  {
    if clauses != [] {
      OutcomeBelongs(x, clauses[0], t, requested);
      ClauseOutcomesBelong(x, clauses[1..], t, requested);
    }
  }

  /** Outcomes stand exactly at the denials and temporal clauses of all alternatives, each belonging to its clause. */
  lemma {:induction false} OutcomesBelong(x: Matching, alternatives: seq<seq<TraceSpecClause>>, t: Trace, requested: EffectRow)
    ensures AlternativesFit(AlternativeOutcomes(x, alternatives, t, requested), alternatives)
  {
    if alternatives != [] {
      ClauseOutcomesBelong(x, alternatives[0], t, requested);
      OutcomesBelong(x, alternatives[1..], t, requested);
    }
  }

  /** The nested loops give one outcome per clause, in place. */
  method AnalyzeClauseGroups(x: Matching, conformances: seq<seq<seq<TraceSpecClause>>>, t: Trace, requested: EffectRow)
    returns (r: seq<seq<seq<Option<ClauseOutcome>>>>)
    ensures |r| == |conformances|
    ensures forall i :: 0 <= i < |r| ==> r[i] == AlternativeOutcomes(x, conformances[i], t, requested)
  {
    r := [];
    for i := 0 to |conformances|
      invariant |r| == i
      invariant forall a :: 0 <= a < i ==> r[a] == AlternativeOutcomes(x, conformances[a], t, requested)
    {
      var alternatives := AnalyzeAlternatives(x, conformances[i], t, requested);
      r := r + [alternatives];
    }
  }

  function ClauseOutcomes(x: Matching, clauses: seq<TraceSpecClause>, t: Trace, requested: EffectRow): (r: seq<Option<ClauseOutcome>>)
    ensures |r| == |clauses| && forall k :: 0 <= k < |r| ==> r[k] == OutcomeOf(x, clauses[k], t, requested)
  {
    if clauses == [] then [] else [OutcomeOf(x, clauses[0], t, requested)] + ClauseOutcomes(x, clauses[1..], t, requested)
  }

  function AlternativeOutcomes(x: Matching, alternatives: seq<seq<TraceSpecClause>>, t: Trace, requested: EffectRow): (r: seq<seq<Option<ClauseOutcome>>>)
    ensures |r| == |alternatives| && forall j :: 0 <= j < |r| ==> r[j] == ClauseOutcomes(x, alternatives[j], t, requested)
  {
    if alternatives == [] then []
    else [ClauseOutcomes(x, alternatives[0], t, requested)] + AlternativeOutcomes(x, alternatives[1..], t, requested)
  }

  method AnalyzeAlternatives(x: Matching, alternatives: seq<seq<TraceSpecClause>>, t: Trace, requested: EffectRow)
    returns (r: seq<seq<Option<ClauseOutcome>>>)
    ensures r == AlternativeOutcomes(x, alternatives, t, requested)
  {
    r := [];
    for j := 0 to |alternatives|
      invariant |r| == j && forall b :: 0 <= b < j ==> r[b] == ClauseOutcomes(x, alternatives[b], t, requested)
    {
      var outcomes: seq<Option<ClauseOutcome>> := [];
      for k := 0 to |alternatives[j]|
        invariant |outcomes| == k
        invariant forall c :: 0 <= c < k ==> outcomes[c] == OutcomeOf(x, alternatives[j][c], t, requested)
      {
        outcomes := outcomes + [OutcomeOf(x, alternatives[j][k], t, requested)];
      }
      r := r + [outcomes];
    }
  }

  // ----- Soundness of denial and temporal verdicts. -----

  /**
   * The actions a run may request: the recorded ones, and others only when the row is open or a
   * callback is unresolved.
   */
  ghost predicate Requests(all: set<Effect>, requested: EffectRow, callbacks: bool)
  {
    requested.effects <= all && (requested.open.None? && !callbacks ==> all == requested.effects)
  }

  ghost predicate Denied(all: set<Effect>, truth: Effect -> bool)
  {
    forall a :: a in all ==> !truth(a)
  }

  /** A decided denial holds (or fails) for every request set and every resolution of the pattern. */
  lemma DenialSound(p: Pattern, callbacks: bool, requested: EffectRow, all: set<Effect>, truth: Effect -> bool)
    requires Requests(all, requested, callbacks) && Resolves(truth, p)
    ensures AnalyzeDenial(p, callbacks, requested).Proven? ==> Denied(all, truth)
    ensures AnalyzeDenial(p, callbacks, requested).Violated? ==> !Denied(all, truth)
  {
    if AnalyzeDenial(p, callbacks, requested).Violated? {
      var a :| a in requested.effects && p.must(a);
      assert a in all && truth(a);
    }
  }

  /** On closed rows without callbacks an unsupported denial really has both answers. */
  lemma DenialExact(p: Pattern, requested: EffectRow)
    requires Coherent(p) && requested.open.None? && AnalyzeDenial(p, false, requested).Unsupported?
    ensures Resolves(p.must, p) && Denied(requested.effects, p.must)
    ensures Resolves(p.may, p) && !Denied(requested.effects, p.may)
  {
    var a :| a in requested.effects && p.may(a);
  }

  ghost predicate AlwaysSafe(m: Monitor, t: Trace)
  {
    forall w, g, h :: In(w, t) && Resolves(g, m.guard) && Resolves(h, m.target) ==> Safe(w, NoGuard, g, h)
  }

  /** A proven temporal clause holds on every word; a violated one fails on some word, whatever is uncertain. */
  lemma {:induction false} TemporalSound(x: Matching, guard: TraceSpecPattern, target: TraceSpecPattern, source: Option<ClauseId>, t: Trace, requested: EffectRow)
    ensures Temporal(x, source, guard, target, t, requested).temporal.TemporalProven? ==>
              requested.open.None? && AlwaysSafe(Monitor(PatternOf(x, guard), PatternOf(x, target)), t)
    ensures Temporal(x, source, guard, target, t, requested).temporal.TemporalViolated? && NoEmptyChoice(t) ==>
              Breaks(Monitor(PatternOf(x, guard), PatternOf(x, target)), t, NoGuard)
  {
    var m := Monitor(PatternOf(x, guard), PatternOf(x, target));
    var verdict := Temporal(x, source, guard, target, t, requested).temporal;
    if verdict.TemporalProven? {
      forall w, g, h | In(w, t) && Resolves(g, m.guard) && Resolves(h, m.target)
        ensures Safe(w, NoGuard, g, h)
      {
        RequireBeforeSound(m, t, w, g, h);
      }
    }
    if verdict.TemporalViolated? && NoEmptyChoice(t) {
      var w := ViolationWord(m, t);
      assert Unsafe(m, w, NoGuard);
    }
  }
}
