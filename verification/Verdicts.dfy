/** Static dispositions of trace conformances (trace_spec/analysis.rs). */
module Verdicts {
  import opened Prelude
  import opened Effects
  import opened TraceMonitor
  import opened Coverage
  import opened TraceSpecs

  // ----- Recorded analysis facts. -----

  datatype ClauseKind = AllowKind(permissionIndex: nat, originIndex: nat) | DenyKind | TemporalKind | LimitKind

  datatype Permission = Permission(pattern: TraceSpecPattern, origin: nat, source: Option<ClauseId>)

  datatype PermissionOutcome = PermissionOutcome(
    permissions: seq<Permission>,
    requested: EffectRow,
    unresolvedCalls: bool,
    uncovered: seq<(Effect, bool)>,
    unresolved: bool
  )

  datatype SourceConformance = SourceConformance(
    item: nat,
    position: nat,
    clauseIds: seq<seq<Option<ClauseId>>>,
    clauseKinds: seq<seq<ClauseKind>>
  )

  datatype Analysis = Analysis(
    sources: map<nat, SourceConformance>,
    clauseOutcomes: map<nat, seq<seq<seq<Option<ClauseOutcome>>>>>,
    permissionOutcomes: map<nat, seq<seq<Option<PermissionOutcome>>>>
  )

  datatype AnalysisError = InvalidSourceSites | LimitExceeded(limit: nat)

  datatype Uncertainty = DenialSelector | Temporal(reason: TemporalUncertainty) | UnsupportedLimit

  datatype ClauseDisposition =
    | ClauseProven
    | ClauseViolated
    | ClauseUnsupported(why: Uncertainty)
    | AlternativePermission

  function At<T>(s: seq<T>, i: nat): Option<T>
  {
    if i < |s| then Some(s[i]) else None
  }

  function PermissionFor(a: Analysis, source: SourceConformance, alternative: nat): Option<PermissionOutcome>
  {
    if source.item !in a.permissionOutcomes then None
    else
      var conformance := At(a.permissionOutcomes[source.item], source.position);
      if conformance.None? then None
      else
        var found := At(conformance.value, alternative);
        if found.None? then None else found.value
  }

  function CheckedPermissionFact(a: Analysis, index: nat, alternative: nat): Result<PermissionOutcome, AnalysisError>
  {
    if index !in a.sources || alternative >= |a.sources[index].clauseIds| then Err(InvalidSourceSites)
    else
      var found := PermissionFor(a, a.sources[index], alternative);
      if found.None? then Err(InvalidSourceSites) else Ok(found.value)
  }

  function PermissionVerdict(p: PermissionOutcome): Verdict
  {
    if exists i :: 0 <= i < |p.uncovered| && !p.uncovered[i].1 then Violated
    else if p.unresolved || p.uncovered != [] then Unsupported
    else Proven
  }

  /** The recorded outcome of one clause; the outer option is a missing record. */
  function ClauseResult(a: Analysis, source: SourceConformance, alternative: nat, clause: nat): Option<Option<ClauseOutcome>>
  {
    if source.item !in a.clauseOutcomes then None
    else
      var conformance := At(a.clauseOutcomes[source.item], source.position);
      if conformance.None? then None
      else
        var clauses := At(conformance.value, alternative);
        if clauses.None? then None else At(clauses.value, clause)
  }

  function AllowFact(a: Analysis, source: SourceConformance, alternative: nat, kind: ClauseKind): Result<ClauseDisposition, AnalysisError>
    requires kind.AllowKind? && alternative < |source.clauseIds|
  {
    var permission := PermissionFor(a, source, alternative);
    if permission.None? || kind.originIndex >= |source.clauseIds[alternative]|
       || kind.permissionIndex >= |permission.value.permissions|
    then Err(InvalidSourceSites)
    else
      var found := permission.value.permissions[kind.permissionIndex];
      if found.origin != kind.originIndex || found.source != source.clauseIds[alternative][kind.originIndex]
      then Err(InvalidSourceSites)
      else Ok(AlternativePermission)
  }

  function CheckedClauseFact(a: Analysis, index: nat, alternative: nat, clause: nat): Result<ClauseDisposition, AnalysisError>
  {
    if index !in a.sources then Err(InvalidSourceSites)
    else
      var source := a.sources[index];
      if alternative >= |source.clauseKinds| || clause >= |source.clauseKinds[alternative]|
         || alternative >= |source.clauseIds| || clause >= |source.clauseIds[alternative]|
      then Err(InvalidSourceSites)
      else
        var kind, id := source.clauseKinds[alternative][clause], source.clauseIds[alternative][clause];
        var result := ClauseResult(a, source, alternative, clause);
        if result.None? then Err(InvalidSourceSites)
        else if kind.DenyKind? && result.value.Some? && result.value.value.DenialOutcome? && result.value.value.source == id then
          match result.value.value.denial
          case Proven => Ok(ClauseProven)
          case Violated => Ok(ClauseViolated)
          case Unsupported => Ok(ClauseUnsupported(DenialSelector))
        else if kind.TemporalKind? && result.value.Some? && result.value.value.TemporalOutcome? && result.value.value.source == id then
          match result.value.value.temporal
          case TemporalProven => Ok(ClauseProven)
          case TemporalViolated => Ok(ClauseViolated)
          case TemporalUnsupported(reason) => Ok(ClauseUnsupported(Uncertainty.Temporal(reason)))
        else if kind.AllowKind? && result.value.None? then AllowFact(a, source, alternative, kind)
        else if kind.LimitKind? && result.value.None? then Ok(ClauseUnsupported(UnsupportedLimit))
        else Err(InvalidSourceSites)
  }

  // ----- Three-valued disjunctive normal form. -----

  datatype AlternativeFacts = AlternativeFacts(permission: Verdict, clauses: seq<ClauseDisposition>)

  /** Conjunction: one violation decides, otherwise one unknown leaves it open. */
  function Conjunction(f: AlternativeFacts): Verdict
  {
    if f.permission.Violated? || ClauseViolated in f.clauses then Violated
    else if f.permission.Unsupported? || SomeUnsupported(f.clauses) then Unsupported
    else Proven
  }

  predicate SomeUnsupported(ds: seq<ClauseDisposition>)
  {
    exists d :: d in ds && d.ClauseUnsupported?
  }

  lemma SomeUnsupportedPush(ds: seq<ClauseDisposition>, d: ClauseDisposition)
    ensures SomeUnsupported(ds + [d]) <==> SomeUnsupported(ds) || d.ClauseUnsupported?
    ensures ClauseViolated in ds + [d] <==> ClauseViolated in ds || d == ClauseViolated
  {
    assert forall x :: x in ds + [d] <==> x in ds || x == d;
  }

  function Verdicts(fs: seq<AlternativeFacts>): seq<Verdict>
  {
    seq(|fs|, i requires 0 <= i < |fs| => Conjunction(fs[i]))
  }

  /** Disjunction: one proven alternative decides, otherwise one unknown leaves it open. */
  function Disjunction(vs: seq<Verdict>): Verdict
  {
    if Proven in vs then Proven else if Unsupported in vs then Unsupported else Violated
  }

  // ----- The loops of the source. -----

  /** The facts of one alternative, or the first error met while collecting them. */
  function FactsOf(a: Analysis, index: nat, alternative: nat, limit: nat): Result<AlternativeFacts, AnalysisError>
  {
    if index !in a.sources || alternative >= |a.sources[index].clauseIds| then Err(InvalidSourceSites)
    else
      var count := |a.sources[index].clauseIds[alternative]|;
      if count == 0 then Err(InvalidSourceSites)
      else if count > limit then Err(LimitExceeded(limit))
      else
        var permission :- CheckedPermissionFact(a, index, alternative);
        var clauses :- ClauseFactsFrom(a, index, alternative, 0, count);
        Ok(AlternativeFacts(PermissionVerdict(permission), clauses))
  }

  function ClauseFactsFrom(a: Analysis, index: nat, alternative: nat, from: nat, count: nat): Result<seq<ClauseDisposition>, AnalysisError>
    requires from <= count
    decreases count - from
  {
    if from == count then Ok([])
    else
      var head :- CheckedClauseFact(a, index, alternative, from);
      var tail :- ClauseFactsFrom(a, index, alternative, from + 1, count);
      Ok([head] + tail)
  }

  /** The loop runs on after a violation: a fact that is missing later is an error all the same. */
  method CheckedAlternativeDisposition(a: Analysis, index: nat, alternative: nat, limit: nat) returns (r: Result<Verdict, AnalysisError>)
    ensures var facts := FactsOf(a, index, alternative, limit);
            r == if facts.Err? then Err(facts.error) else Ok(Conjunction(facts.value))
  {
    if index !in a.sources || alternative >= |a.sources[index].clauseIds| {
      return Err(InvalidSourceSites);
    }
    var count := |a.sources[index].clauseIds[alternative]|;
    if count == 0 {
      return Err(InvalidSourceSites);
    }
    if count > limit {
      return Err(LimitExceeded(limit));
    }
    var permission := CheckedPermissionFact(a, index, alternative);
    if permission.Err? {
      return Err(permission.error);
    }
    var verdict := PermissionVerdict(permission.value);
    var violated, unsupported := verdict.Violated?, verdict.Unsupported?;
    ghost var done: seq<ClauseDisposition> := [];
    PrependNone(ClauseFactsFrom(a, index, alternative, 0, count));
    for i := 0 to count
      invariant |done| == i
      invariant violated <==> verdict.Violated? || ClauseViolated in done
      invariant unsupported <==> verdict.Unsupported? || SomeUnsupported(done)
      invariant ClauseFactsFrom(a, index, alternative, 0, count) == Prepend(done, ClauseFactsFrom(a, index, alternative, i, count))
    {
      var fact := CheckedClauseFact(a, index, alternative, i);
      if fact.Err? {
        return Err(fact.error);
      }
      PrependStep(done, fact.value, ClauseFactsFrom(a, index, alternative, i + 1, count));
      SomeUnsupportedPush(done, fact.value);
      done := done + [fact.value];
      match fact.value
      case ClauseProven =>
      case AlternativePermission =>
      case ClauseViolated => violated := true;
      case ClauseUnsupported(_) => unsupported := true;
    }
    assert done + [] == done;
    r := Ok(if violated then Violated else if unsupported then Unsupported else Proven);
  }

  ghost function Prepend<T, E>(done: seq<T>, r: Result<seq<T>, E>): Result<seq<T>, E>
  {
    if r.Ok? then Ok(done + r.value) else r
  }

  lemma PrependNone<T, E>(r: Result<seq<T>, E>)
    ensures Prepend([], r) == r
  {
    if r.Ok? {
      assert [] + r.value == r.value;
    }
  }

  lemma PrependStep<T, E>(done: seq<T>, x: T, r: Result<seq<T>, E>)
    ensures Prepend(done, Prepend([x], r)) == Prepend(done + [x], r)
  {
    if r.Ok? {
      assert done + ([x] + r.value) == (done + [x]) + r.value;
    }
  }

  /** The facts of all alternatives from `from` on, under the remaining work budget. */
  function ConformanceFactsFrom(a: Analysis, index: nat, from: nat, remaining: nat, limit: nat): Result<seq<AlternativeFacts>, AnalysisError>
    requires index in a.sources && from <= |a.sources[index].clauseIds|
    decreases |a.sources[index].clauseIds| - from
  {
    var groups := a.sources[index].clauseIds;
    if from == |groups| then Ok([])
    else if remaining < |groups[from]| + 1 then Err(LimitExceeded(limit))
    else
      var head :- FactsOf(a, index, from, limit);
      var tail :- ConformanceFactsFrom(a, index, from + 1, remaining - |groups[from]| - 1, limit);
      Ok([head] + tail)
  }

  function ConformanceFacts(a: Analysis, index: nat, limit: nat): Result<seq<AlternativeFacts>, AnalysisError>
  {
    if index !in a.sources || a.sources[index].clauseIds == [] then Err(InvalidSourceSites)
    else ConformanceFactsFrom(a, index, 0, limit, limit)
  }

  method CheckedConformanceDisposition(a: Analysis, index: nat, limit: nat) returns (r: Result<Verdict, AnalysisError>)
    ensures var facts := ConformanceFacts(a, index, limit);
            r == if facts.Err? then Err(facts.error) else Ok(Disjunction(Verdicts(facts.value)))
  {
    if index !in a.sources {
      return Err(InvalidSourceSites);
    }
    var groups := a.sources[index].clauseIds;
    if groups == [] {
      return Err(InvalidSourceSites);
    }
    var remaining: nat := limit;
    var proven, unsupported := false, false;
    ghost var done: seq<AlternativeFacts> := [];
    PrependNone(ConformanceFactsFrom(a, index, 0, limit, limit));
    for i := 0 to |groups|
      invariant |done| == i
      invariant proven <==> Proven in Verdicts(done)
      invariant unsupported <==> Unsupported in Verdicts(done)
      invariant ConformanceFacts(a, index, limit) == Prepend(done, ConformanceFactsFrom(a, index, i, remaining, limit))
    {
      if remaining < |groups[i]| + 1 {
        return Err(LimitExceeded(limit));
      }
      var next := remaining - |groups[i]| - 1;
      var verdict := CheckedAlternativeDisposition(a, index, i, limit);
      if verdict.Err? {
        return Err(verdict.error);
      }
      ghost var facts := FactsOf(a, index, i, limit).value;
      PrependStep(done, facts, ConformanceFactsFrom(a, index, i + 1, next, limit));
      VerdictsPush(done, facts);
      done := done + [facts];
      remaining := next;
      match verdict.value
      case Proven => proven := true;
      case Unsupported => unsupported := true;
      case Violated =>
    }
    assert done + [] == done;
    r := Ok(if proven then Proven else if unsupported then Unsupported else Violated);
  }

  lemma VerdictsPush(done: seq<AlternativeFacts>, f: AlternativeFacts)
    ensures Verdicts(done + [f]) == Verdicts(done) + [Conjunction(f)]
  {
  }

  // ----- Exactness over all resolutions. -----

  /** A resolution decides each permission set and each clause of a conformance. */
  datatype Resolution = Resolution(permission: nat -> bool, clause: (nat, nat) -> bool)

  predicate Agrees(v: Verdict, truth: bool)
  {
    (v.Proven? ==> truth) && (v.Violated? ==> !truth)
  }

  predicate ClauseAgrees(d: ClauseDisposition, truth: bool)
  {
    (d.ClauseProven? ==> truth) && (d.ClauseViolated? ==> !truth)
  }

  ghost predicate Consistent(fs: seq<AlternativeFacts>, r: Resolution)
  {
    && (forall i :: 0 <= i < |fs| ==> Agrees(fs[i].permission, r.permission(i)))
    && (forall i, j :: 0 <= i < |fs| && 0 <= j < |fs[i].clauses| ==> ClauseAgrees(fs[i].clauses[j], r.clause(i, j)))
  }

  /** Allow clauses count through the permission of their alternative only. */
  ghost predicate AlternativeHolds(f: AlternativeFacts, i: nat, r: Resolution)
  {
    r.permission(i) && forall j :: 0 <= j < |f.clauses| && !f.clauses[j].AlternativePermission? ==> r.clause(i, j)
  }

  ghost predicate Holds(fs: seq<AlternativeFacts>, r: Resolution)
  {
    exists i :: 0 <= i < |fs| && AlternativeHolds(fs[i], i, r)
  }

  /** Every unknown resolved to `unknown`. */
  function Uniform(fs: seq<AlternativeFacts>, unknown: bool): Resolution
  {
    Resolution(
      (i: nat) => if i < |fs| then fs[i].permission.Proven? || (unknown && fs[i].permission.Unsupported?) else unknown,
      (i: nat, j: nat) => if i < |fs| && j < |fs[i].clauses|
                then fs[i].clauses[j].ClauseProven? || (unknown && fs[i].clauses[j].ClauseUnsupported?)
                else unknown)
  }

  lemma UniformConsistent(fs: seq<AlternativeFacts>, unknown: bool)
    ensures Consistent(fs, Uniform(fs, unknown))
  {
  }

  /** Resolving an unknown to false can only lose, resolving it to true can only win. */
  lemma HoldsMonotone(fs: seq<AlternativeFacts>, r: Resolution)
    requires Consistent(fs, r)
    ensures Holds(fs, Uniform(fs, false)) ==> Holds(fs, r)
    ensures Holds(fs, r) ==> Holds(fs, Uniform(fs, true))
  {
    forall i | 0 <= i < |fs|
      ensures AlternativeHolds(fs[i], i, Uniform(fs, false)) ==> AlternativeHolds(fs[i], i, r)
      ensures AlternativeHolds(fs[i], i, r) ==> AlternativeHolds(fs[i], i, Uniform(fs, true))
    {
      assert Agrees(fs[i].permission, r.permission(i));
      forall j | 0 <= j < |fs[i].clauses|
        ensures Uniform(fs, false).clause(i, j) ==> r.clause(i, j)
        ensures !fs[i].clauses[j].AlternativePermission? && r.clause(i, j) ==> Uniform(fs, true).clause(i, j)
      {
        assert ClauseAgrees(fs[i].clauses[j], r.clause(i, j));
      }
    }
  }

  lemma ConjunctionUniform(fs: seq<AlternativeFacts>, i: nat)
    requires i < |fs|
    ensures Conjunction(fs[i]).Proven? <==> AlternativeHolds(fs[i], i, Uniform(fs, false))
    ensures !Conjunction(fs[i]).Violated? <==> AlternativeHolds(fs[i], i, Uniform(fs, true))
  {
    var f := fs[i];
    forall j | 0 <= j < |f.clauses|
      ensures f.clauses[j] in f.clauses
    {
    }
    if AlternativeHolds(f, i, Uniform(fs, false)) {
      forall d | d in f.clauses
        ensures !d.ClauseUnsupported? && !d.ClauseViolated?
      {
        var j :| 0 <= j < |f.clauses| && f.clauses[j] == d;
        assert !d.AlternativePermission? ==> Uniform(fs, false).clause(i, j);
      }
    }
    if AlternativeHolds(f, i, Uniform(fs, true)) {
      forall d | d in f.clauses
        ensures !d.ClauseViolated?
      {
        var j :| 0 <= j < |f.clauses| && f.clauses[j] == d;
        assert !d.AlternativePermission? ==> Uniform(fs, true).clause(i, j);
      }
    }
  }

  lemma DisjunctionUniform(fs: seq<AlternativeFacts>)
    ensures Disjunction(Verdicts(fs)).Proven? <==> Holds(fs, Uniform(fs, false))
    ensures !Disjunction(Verdicts(fs)).Violated? <==> Holds(fs, Uniform(fs, true))
  {
    var vs := Verdicts(fs);
    forall i | 0 <= i < |fs|
      ensures vs[i].Proven? <==> AlternativeHolds(fs[i], i, Uniform(fs, false))
      ensures !vs[i].Violated? <==> AlternativeHolds(fs[i], i, Uniform(fs, true))
    {
      ConjunctionUniform(fs, i);
    }
    if Holds(fs, Uniform(fs, false)) {
      var i :| 0 <= i < |fs| && AlternativeHolds(fs[i], i, Uniform(fs, false));
      assert vs[i] in vs;
    }
    if Holds(fs, Uniform(fs, true)) {
      var i :| 0 <= i < |fs| && AlternativeHolds(fs[i], i, Uniform(fs, true));
      assert vs[i] in vs && vs[i] != Violated;
    }
    if Proven in vs {
      var i :| 0 <= i < |vs| && vs[i] == Proven;
      assert AlternativeHolds(fs[i], i, Uniform(fs, false));
    }
    if Proven in vs || Unsupported in vs {
      var i :| 0 <= i < |vs| && vs[i] != Violated;
      assert AlternativeHolds(fs[i], i, Uniform(fs, true));
    }
  }

  /**
   * The static verdict is exact: proven means the conformance holds in every resolution, violated
   * that it fails in every one, unsupported that there are both.
   */
  lemma VerdictExact(fs: seq<AlternativeFacts>)
    ensures Disjunction(Verdicts(fs)).Proven? <==> forall r :: Consistent(fs, r) ==> Holds(fs, r)
    ensures Disjunction(Verdicts(fs)).Violated? <==> forall r :: Consistent(fs, r) ==> !Holds(fs, r)
    ensures Disjunction(Verdicts(fs)).Unsupported? <==>
              (exists r :: Consistent(fs, r) && Holds(fs, r)) && (exists r :: Consistent(fs, r) && !Holds(fs, r))
  {
    DisjunctionUniform(fs);
    UniformConsistent(fs, false);
    UniformConsistent(fs, true);
    forall r | Consistent(fs, r)
      ensures Holds(fs, Uniform(fs, false)) ==> Holds(fs, r)
      ensures Holds(fs, r) ==> Holds(fs, Uniform(fs, true))
    {
      HoldsMonotone(fs, r);
    }
  }

  /** `g` knows at least what `f` knows. */
  ghost predicate Refines(f: seq<AlternativeFacts>, g: seq<AlternativeFacts>)
  {
    && |f| == |g|
    && (forall i :: 0 <= i < |f| ==>
          |f[i].clauses| == |g[i].clauses| && (f[i].permission.Unsupported? || f[i].permission == g[i].permission))
    && (forall i, j :: 0 <= i < |f| && 0 <= j < |f[i].clauses| ==>
          f[i].clauses[j] == g[i].clauses[j] || (f[i].clauses[j].ClauseUnsupported? && !g[i].clauses[j].AlternativePermission?))
  }

  /** Learning more never flips a decided verdict. */
  lemma RefinementKeepsDecisions(f: seq<AlternativeFacts>, g: seq<AlternativeFacts>)
    requires Refines(f, g) && !Disjunction(Verdicts(f)).Unsupported?
    ensures Disjunction(Verdicts(g)) == Disjunction(Verdicts(f))
  {
    VerdictExact(f);
    VerdictExact(g);
    forall r | Consistent(g, r)
      ensures Consistent(f, r) && (Holds(f, r) <==> Holds(g, r))
    {
      RefinedResolution(f, g, r);
    }
    UniformConsistent(g, false);
  }

  lemma RefinedResolution(f: seq<AlternativeFacts>, g: seq<AlternativeFacts>, r: Resolution)
    requires Refines(f, g) && Consistent(g, r)
    ensures Consistent(f, r) && (Holds(f, r) <==> Holds(g, r))
  {
    forall i | 0 <= i < |f|
      ensures Agrees(f[i].permission, r.permission(i))
      ensures AlternativeHolds(f[i], i, r) <==> AlternativeHolds(g[i], i, r)
    {
      assert Agrees(g[i].permission, r.permission(i));
      forall j | 0 <= j < |f[i].clauses|
        ensures f[i].clauses[j].AlternativePermission? <==> g[i].clauses[j].AlternativePermission?
      {
      }
    }
    forall i, j | 0 <= i < |f| && 0 <= j < |f[i].clauses|
      ensures ClauseAgrees(f[i].clauses[j], r.clause(i, j))
    {
      assert ClauseAgrees(g[i].clauses[j], r.clause(i, j));
    }
  }

  // ----- Permissions of an alternative. -----

  predicate SomeMust(ps: seq<Pattern>, a: Effect)
  {
    exists i :: 0 <= i < |ps| && ps[i].must(a)
  }

  predicate SomeMay(ps: seq<Pattern>, a: Effect)
  {
    exists i :: 0 <= i < |ps| && ps[i].may(a)
  }

  /** The requested actions without a proven match, each with whether a match is possible. */
  function Uncovered(ps: seq<Pattern>, actions: seq<Effect>): seq<(Effect, bool)>
  {
    if actions == [] then []
    else if SomeMust(ps, actions[0]) then Uncovered(ps, actions[1..])
    else [(actions[0], SomeMay(ps, actions[0]))] + Uncovered(ps, actions[1..])
  }

  /** Every permission points at a clause. */
  predicate Sited(permissions: seq<(TraceSpecPattern, nat)>, clauses: nat)
  {
    forall i :: 0 <= i < |permissions| ==> permissions[i].1 < clauses
  }

  /** The permissions are recorded in place, each with the source of its clause. */
  predicate PermissionsListed(recorded: seq<Permission>, permissions: seq<(TraceSpecPattern, nat)>, sources: seq<Option<ClauseId>>)
  {
    && |recorded| == |permissions| && Sited(permissions, |sources|)
    && forall i :: 0 <= i < |recorded| ==> recorded[i] == Permission(permissions[i].0, permissions[i].1, sources[permissions[i].1])
  }

  /**
   * `analyze_permissions`. `actions` are the requested effects in set order, `sources` the source
   * clause of each clause of the alternative.
   */
  method AnalyzePermissions(ps: seq<Pattern>, permissions: seq<(TraceSpecPattern, nat)>, sources: seq<Option<ClauseId>>,
                            requested: EffectRow, actions: seq<Effect>, unresolvedCalls: bool, limit: nat)
    returns (r: Option<PermissionOutcome>)
    requires |ps| == |permissions| && Elems(actions) == requested.effects
    ensures r.Some? <==> (permissions == [] || SearchCost(ps, actions) <= limit) && Sited(permissions, |sources|)
    ensures r.Some? ==> RecordedFor(r.value, ps, actions) && PermissionsListed(r.value.permissions, permissions, sources)
    ensures r.Some? ==> r.value.requested == requested && r.value.unresolvedCalls == unresolvedCalls
  {
    var uncovered: seq<(Effect, bool)> := [];
    if permissions != [] {
      var found := CollectUncovered(ps, actions, limit);
      if found.None? {
        return None;
      }
      uncovered := found.value;
    }
    var recorded: seq<Permission> := [];
    for i := 0 to |permissions|
      invariant |recorded| == i
      invariant forall j :: 0 <= j < i ==>
                  permissions[j].1 < |sources| && recorded[j] == Permission(permissions[j].0, permissions[j].1, sources[permissions[j].1])
    {
      if permissions[i].1 >= |sources| {
        return None;
      }
      recorded := recorded + [Permission(permissions[i].0, permissions[i].1, sources[permissions[i].1])];
    }
    r := Some(PermissionOutcome(recorded, requested, unresolvedCalls, uncovered,
                                permissions != [] && (requested.open.Some? || unresolvedCalls)));
  }

  predicate Fits(p: Pattern, a: Effect, must: bool)
  {
    if must then p.must(a) else p.may(a)
  }

  /** The patterns tried up to and with the first match. */
  function Tried(ps: seq<Pattern>, a: Effect, must: bool): (n: nat)
    ensures n <= |ps|
  {
    if ps == [] then 0 else if Fits(ps[0], a, must) then 1 else 1 + Tried(ps[1..], a, must)
  }

  /** The patterns tried for one action: for a sure match, and for a possible one where there is none. */
  function ActionCost(ps: seq<Pattern>, a: Effect): nat
  {
    Tried(ps, a, true) + if SomeMust(ps, a) then 0 else Tried(ps, a, false)
  }

  function SearchCost(ps: seq<Pattern>, actions: seq<Effect>): nat
  {
    if actions == [] then 0 else ActionCost(ps, actions[0]) + SearchCost(ps, actions[1..])
  }

  /** Two units per pattern and action always suffice. */
  lemma {:induction false} SearchCostBound(ps: seq<Pattern>, actions: seq<Effect>)
    ensures SearchCost(ps, actions) <= 2 * |ps| * |actions|
    decreases |actions|
  {
    if actions != [] {
      SearchCostBound(ps, actions[1..]);
      assert 2 * |ps| * |actions| == 2 * |ps| + 2 * |ps| * |actions[1..]|;
    }
  }

  /** The actions no permission surely covers, each with whether one may; fails exactly when the budget is too small. */
  method CollectUncovered(ps: seq<Pattern>, actions: seq<Effect>, limit: nat) returns (r: Option<seq<(Effect, bool)>>)
    ensures r.Some? <==> SearchCost(ps, actions) <= limit
    ensures r.Some? ==> r.value == Uncovered(ps, actions)
  {
    var remaining: nat := limit;
    var uncovered: seq<(Effect, bool)> := [];
    assert actions[0..] == actions;
    for k := 0 to |actions|
      invariant uncovered + Uncovered(ps, actions[k..]) == Uncovered(ps, actions)
      invariant remaining + SearchCost(ps, actions) == limit + SearchCost(ps, actions[k..])
    {
      assert actions[k..][1..] == actions[k + 1..];
      var matched, left := FindMatch(ps, actions[k], remaining, true);
      if left.None? {
        return None;
      }
      remaining := left.value;
      if !matched {
        var uncertain, left2 := FindMatch(ps, actions[k], remaining, false);
        if left2.None? {
          return None;
        }
        remaining := left2.value;
        uncovered := uncovered + [(actions[k], uncertain)];
      }
    }
    return Some(uncovered);
  }

  /** One budget unit per pattern tried; stops at the first match. */
  method FindMatch(ps: seq<Pattern>, a: Effect, budget: nat, must: bool) returns (found: bool, left: Option<nat>)
    ensures left == if Tried(ps, a, must) <= budget then Some(budget - Tried(ps, a, must)) else None
    ensures left.Some? ==> found == (if must then SomeMust(ps, a) else SomeMay(ps, a))
  {
    var remaining: nat := budget;
    assert ps[0..] == ps;
    for i := 0 to |ps|
      invariant remaining + Tried(ps, a, must) == budget + Tried(ps[i..], a, must)
      invariant forall j :: 0 <= j < i ==> !Fits(ps[j], a, must)
    {
      assert ps[i..][1..] == ps[i + 1..];
      if remaining == 0 {
        return false, None;
      }
      remaining := remaining - 1;
      if Fits(ps[i], a, must) {
        return true, Some(remaining);
      }
    }
    return false, Some(remaining);
  }

  /** Truth of each pattern on each action, between its must and its may. */
  ghost predicate ResolveAll(truth: (nat, Effect) -> bool, ps: seq<Pattern>)
  {
    forall i: nat, a: Effect :: i < |ps| ==> (ps[i].must(a) ==> truth(i, a)) && (truth(i, a) ==> ps[i].may(a))
  }

  /** Without an allow clause everything is permitted. */
  ghost predicate Permitted(all: set<Effect>, truth: (nat, Effect) -> bool, patterns: nat)
  {
    patterns == 0 || forall a :: a in all ==> PermittedOne(a, truth, patterns)
  }

  ghost predicate PermittedOne(a: Effect, truth: (nat, Effect) -> bool, patterns: nat)
  {
    exists i: nat :: i < patterns && truth(i, a)
  }

  lemma {:induction false} UncoveredMembers(ps: seq<Pattern>, actions: seq<Effect>, a: Effect, uncertain: bool)
    ensures (a, uncertain) in Uncovered(ps, actions) <==> a in actions && !SomeMust(ps, a) && uncertain == SomeMay(ps, a)
  {
    if actions != [] {
      UncoveredMembers(ps, actions[1..], a, uncertain);
    }
  }

  ghost predicate RecordedFor(p: PermissionOutcome, ps: seq<Pattern>, actions: seq<Effect>)
  {
    && Elems(actions) == p.requested.effects
    && p.uncovered == (if ps == [] then [] else Uncovered(ps, actions))
    && p.unresolved == (ps != [] && (p.requested.open.Some? || p.unresolvedCalls))
  }

  /** A decided permission verdict is right for every request set and every resolution. */
  lemma PermissionSound(p: PermissionOutcome, ps: seq<Pattern>, actions: seq<Effect>, all: set<Effect>, truth: (nat, Effect) -> bool)
    requires RecordedFor(p, ps, actions)
    requires Requests(all, p.requested, p.unresolvedCalls) && ResolveAll(truth, ps)
    ensures PermissionVerdict(p).Proven? ==> Permitted(all, truth, |ps|)
    ensures PermissionVerdict(p).Violated? ==> !Permitted(all, truth, |ps|)
  {
    if PermissionVerdict(p).Violated? {
      var i :| 0 <= i < |p.uncovered| && !p.uncovered[i].1;
      var a := p.uncovered[i].0;
      assert p.uncovered[i] == (a, false) && (a, false) in Uncovered(ps, actions);
      UncoveredMembers(ps, actions, a, false);
      assert a in Elems(actions);
      assert forall j: nat :: j < |ps| ==> !truth(j, a);
    }
    if PermissionVerdict(p).Proven? && ps != [] {
      forall a | a in all
        ensures PermittedOne(a, truth, |ps|)
      {
        assert a in Elems(actions);
        UncoveredMembers(ps, actions, a, SomeMay(ps, a));
        var j: nat :| j < |ps| && ps[j].must(a);
        assert truth(j, a);
      }
    }
  }

  /** On closed rows without callbacks an unsupported permission verdict really has both answers. */
  lemma PermissionExact(p: PermissionOutcome, ps: seq<Pattern>, actions: seq<Effect>)
    requires RecordedFor(p, ps, actions) && forall i :: 0 <= i < |ps| ==> Coherent(ps[i])
    requires p.requested.open.None? && !p.unresolvedCalls && PermissionVerdict(p).Unsupported?
    ensures ResolveAll(AllMust(ps), ps) && !Permitted(p.requested.effects, AllMust(ps), |ps|)
    ensures ResolveAll(AllMay(ps), ps) && Permitted(p.requested.effects, AllMay(ps), |ps|)
  {
    var low, high := AllMust(ps), AllMay(ps);
    assert ResolveAll(low, ps);
    assert ResolveAll(high, ps);
    var a, uncertain := p.uncovered[0].0, p.uncovered[0].1;
    assert (a, uncertain) in Uncovered(ps, actions);
    UncoveredMembers(ps, actions, a, uncertain);
    assert a in Elems(actions);
    assert forall i: nat :: i < |ps| ==> !low(i, a);
    forall b | b in p.requested.effects
      ensures exists i: nat :: i < |ps| && high(i, b)
    {
      assert b in Elems(actions);
      UncoveredMembers(ps, actions, b, false);
      assert (b, false) !in p.uncovered;
      assert SomeMust(ps, b) || SomeMay(ps, b);
      var i: nat :| i < |ps| && (ps[i].may(b) || ps[i].must(b));
      assert high(i, b);
    }
  }

  /** Every uncertain match resolved to no match, or to a match. */
  function AllMust(ps: seq<Pattern>): (nat, Effect) -> bool
  {
    (i: nat, a: Effect) => i < |ps| && ps[i].must(a)
  }

  function AllMay(ps: seq<Pattern>): (nat, Effect) -> bool
  {
    (i: nat, a: Effect) => i < |ps| && ps[i].may(a)
  }
}
