/** What a static verdict on a recorded conformance means for the words and requests of the analysed code. */
module Conformance {
  import opened Prelude
  import opened Effects
  import opened Traces
  import opened Words
  import opened TraceMonitor
  import opened Coverage
  import opened TraceSpecs
  import opened Verdicts
  import opened TraceOps
  import opened BuiltTraces
  import opened TraceWorklists

  /**
   * What is analysed of one item: its trace, what it requests, and which requests its default handlers
   * take. Normalizing an alternative, the iteration order of sets and the search limit are given.
   */
  datatype Item = Item(
    matching: Matching,
    normalize: seq<TraceSpecClause> -> Option<seq<(TraceSpecPattern, nat)>>,
    order: set<Effect> -> seq<Effect>,
    searchLimit: nat,
    trace: Trace,
    requested: EffectRow,
    defaults: EffectRow
  )

  datatype Subject = Subject(item: Item, alternatives: seq<seq<TraceSpecClause>>)

  /** The permissions are the patterns of the allow clauses, each with the place of such a clause. */
  predicate Normal(ps: seq<(TraceSpecPattern, nat)>, cs: seq<TraceSpecClause>)
  {
    && (forall k :: 0 <= k < |ps| ==> ps[k].1 < |cs| && cs[ps[k].1].Allow? && cs[ps[k].1].pattern == ps[k].0)
    && (forall c :: c in cs && c.Allow? ==> Listed(ps, c.pattern))
  }

  predicate Listed(ps: seq<(TraceSpecPattern, nat)>, p: TraceSpecPattern)
  {
    exists k :: 0 <= k < |ps| && ps[k].0 == p
  }

  ghost predicate Lawful(x: Item)
  {
    Enumerates(x.order) && forall cs :: x.normalize(cs).Some? ==> Normal(x.normalize(cs).value, cs)
  }

  /** One way the code may turn out: what it requests, which patterns match what, which limits hold. */
  datatype World = World(all: set<Effect>, matches: (TraceSpecPattern, Effect) -> bool, limits: (nat, nat) -> bool)

  function Matches(world: World, p: TraceSpecPattern): Effect -> bool
  {
    (a: Effect) => world.matches(p, a)
  }

  /** The world requests what the row allows and decides every uncertain match one way or the other. */
  ghost predicate Possible(world: World, x: Item)
  {
    Requests(world.all, x.requested, Calls(x.trace) != []) && forall p :: Resolves(Matches(world, p), PatternOf(x.matching, p))
  }

  /** A request that no default handler takes. */
  predicate Unhandled(x: Item, a: Effect)
  {
    !CoveredBy(x.matching.registry, x.defaults.effects, a)
  }

  /** Without an allow clause everything is permitted; otherwise each unhandled request is allowed by one. */
  ghost predicate PermissionTrue(x: Item, cs: seq<TraceSpecClause>, world: World)
  {
    AllowsNothing(cs) || forall a :: a in world.all && Unhandled(x, a) ==> AllowedIn(world, cs, a)
  }

  predicate AllowsNothing(cs: seq<TraceSpecClause>)
  {
    forall c :: c in cs ==> !c.Allow?
  }

  ghost predicate AllowedIn(world: World, cs: seq<TraceSpecClause>, a: Effect)
  {
    exists c :: c in cs && c.Allow? && world.matches(c.pattern, a)
  }

  /** What each clause asks of the requests and of every word. */
  ghost predicate ClauseTrue(c: TraceSpecClause, t: Trace, world: World, limit: bool)
  {
    match c
    case Allow(_, _) => true
    case Deny(pattern, _) => forall a :: a in world.all ==> !world.matches(pattern, a)
    case BeforeClause(guard, target, _) => forall w :: In(w, t) ==> Preceded(w, Matches(world, target), Matches(world, guard))
    case AfterClause(target, obligation, _) => forall w :: In(w, t) ==> Preceded(w, Matches(world, obligation), Matches(world, target))
    case Limit => limit
  }

  ghost predicate AlternativeTrue(x: Subject, i: nat, world: World)
    requires i < |x.alternatives|
  {
    && PermissionTrue(x.item, x.alternatives[i], world)
    && forall j :: 0 <= j < |x.alternatives[i]| ==> ClauseTrue(x.alternatives[i][j], x.item.trace, world, world.limits(i, j))
  }

  // ----- What the analysis records about a conformance. -----

  predicate KindFits(kind: ClauseKind, c: TraceSpecClause)
  {
    match c
    case Allow(_, _) => kind.AllowKind?
    case Deny(_, _) => kind.DenyKind?
    case BeforeClause(_, _, _) => kind.TemporalKind?
    case AfterClause(_, _, _) => kind.TemporalKind?
    case Limit => kind.LimitKind?
  }

  function ClauseOutcomeOf(x: Subject, c: TraceSpecClause): Option<ClauseOutcome>
  {
    OutcomeOf(x.item.matching, c, x.item.trace, x.item.requested)
  }

  /** Permissions are analysed on the requests that default handlers leave; clauses on all of them. */
  function PermissionRow(x: Item): EffectRow
  {
    SubtractHandled(x.matching.registry, x.requested, x.defaults)
  }

  function PatternsOf(x: Matching, ps: seq<(TraceSpecPattern, nat)>): (r: seq<Pattern>)
    ensures |r| == |ps| && forall i :: 0 <= i < |ps| ==> r[i] == PatternOf(x, ps[i].0)
  {
    if ps == [] then [] else [PatternOf(x, ps[0].0)] + PatternsOf(x, ps[1..])
  }

  function SourcesIn(cs: seq<TraceSpecClause>): (r: seq<Option<ClauseId>>)
    ensures |r| == |cs| && forall i :: 0 <= i < |cs| ==> r[i] == SourceClause(cs[i])
  {
    if cs == [] then [] else [SourceClause(cs[0])] + SourcesIn(cs[1..])
  }

  /** The outcome of an alternative's permissions: none when it has no normal form or the search is too long. */
  ghost predicate PermissionRecorded(o: Option<PermissionOutcome>, x: Item, cs: seq<TraceSpecClause>)
  {
    var normal := x.normalize(cs);
    if normal.None? then o.None?
    else
      var ps, row := PatternsOf(x.matching, normal.value), PermissionRow(x);
      && (o.Some? <==> normal.value == [] || SearchCost(ps, x.order(row.effects)) <= x.searchLimit)
      && (o.Some? ==>
            && RecordedFor(o.value, ps, x.order(row.effects)) && PermissionsListed(o.value.permissions, normal.value, SourcesIn(cs))
            && o.value.requested == row && o.value.unresolvedCalls == (Calls(x.trace) != []))
  }

  ghost predicate PermissionsRecorded(os: seq<Option<PermissionOutcome>>, x: Item, alternatives: seq<seq<TraceSpecClause>>)
  {
    |os| == |alternatives| && forall i :: 0 <= i < |os| ==> PermissionRecorded(os[i], x, alternatives[i])
  }

  method AnalyzeAlternative(x: Item, cs: seq<TraceSpecClause>, row: EffectRow, unresolved: bool) returns (o: Option<PermissionOutcome>)
    requires Lawful(x) && row == PermissionRow(x) && unresolved == (Calls(x.trace) != [])
    ensures PermissionRecorded(o, x, cs)
  {
    var normal := x.normalize(cs);
    if normal.None? {
      return None;
    }
    o := AnalyzePermissions(PatternsOf(x.matching, normal.value), normal.value, SourcesIn(cs), row, x.order(row.effects), unresolved, x.searchLimit);
  }

  /** The permissions of every alternative of every conformance of the item, in place. */
  method CollectPermissionOutcomes(x: Item, conformances: seq<seq<seq<TraceSpecClause>>>) returns (r: seq<seq<Option<PermissionOutcome>>>)
    requires Lawful(x)
    ensures |r| == |conformances| && forall i :: 0 <= i < |r| ==> PermissionsRecorded(r[i], x, conformances[i])
  {
    var row := SubtractHandled(x.matching.registry, x.requested, x.defaults);
    var unresolved := HasParameterCalls(x.trace);
    r := [];
    for i := 0 to |conformances|
      invariant |r| == i && forall k :: 0 <= k < i ==> PermissionsRecorded(r[k], x, conformances[k])
    {
      var outcomes: seq<Option<PermissionOutcome>> := [];
      for j := 0 to |conformances[i]|
        invariant |outcomes| == j && forall k :: 0 <= k < j ==> PermissionRecorded(outcomes[k], x, conformances[i][k])
      {
        var o := AnalyzeAlternative(x, conformances[i][j], row, unresolved);
        outcomes := outcomes + [o];
      }
      r := r + [outcomes];
    }
  }

  /** The outcomes recorded under the index are those of the subject. */
  ghost predicate Recorded(a: Analysis, index: nat, x: Subject)
  {
    && index in a.sources
    && var source := a.sources[index];
    && |source.clauseIds| == |x.alternatives| == |source.clauseKinds|
    && (forall i :: 0 <= i < |x.alternatives| ==> |source.clauseIds[i]| == |x.alternatives[i]| == |source.clauseKinds[i]|)
    && (forall i, j :: 0 <= i < |x.alternatives| && 0 <= j < |x.alternatives[i]| ==> KindFits(source.clauseKinds[i][j], x.alternatives[i][j]))
    && source.item in a.clauseOutcomes && source.position < |a.clauseOutcomes[source.item]|
    && a.clauseOutcomes[source.item][source.position] == AlternativeOutcomes(x.item.matching, x.alternatives, x.item.trace, x.item.requested)
    && source.item in a.permissionOutcomes && source.position < |a.permissionOutcomes[source.item]|
    && PermissionsRecorded(a.permissionOutcomes[source.item][source.position], x.item, x.alternatives)
  }

  /** What the verdict of one clause is read as. */
  function DispositionOf(o: Option<ClauseOutcome>, c: TraceSpecClause): ClauseDisposition
  {
    if o.None? then if c.Allow? then AlternativePermission else ClauseUnsupported(UnsupportedLimit)
    else match o.value
      case DenialOutcome(_, _, _, _, Proven) => ClauseProven
      case DenialOutcome(_, _, _, _, Violated) => ClauseViolated
      case DenialOutcome(_, _, _, _, Unsupported) => ClauseUnsupported(DenialSelector)
      case TemporalOutcome(_, _, _, TemporalProven) => ClauseProven
      case TemporalOutcome(_, _, _, TemporalViolated) => ClauseViolated
      case TemporalOutcome(_, _, _, TemporalUnsupported(reason)) => ClauseUnsupported(Uncertainty.Temporal(reason))
  }

  lemma ClauseFactRead(a: Analysis, index: nat, x: Subject, i: nat, j: nat)
    requires Recorded(a, index, x) && i < |x.alternatives| && j < |x.alternatives[i]| && CheckedClauseFact(a, index, i, j).Ok?
    ensures CheckedClauseFact(a, index, i, j).value == DispositionOf(ClauseOutcomeOf(x, x.alternatives[i][j]), x.alternatives[i][j])
  {
    var source, c := a.sources[index], x.alternatives[i][j];
    assert KindFits(source.clauseKinds[i][j], c);
    assert ClauseResult(a, source, i, j) == Some(ClauseOutcomeOf(x, c));
  }

  /** What is found for one clause is what its verdict is read as. */
  ghost predicate ClausesReadWell(a: Analysis, index: nat, x: Subject, i: nat)
    requires i < |x.alternatives|
  {
    forall j :: 0 <= j < |x.alternatives[i]| && CheckedClauseFact(a, index, i, j).Ok? ==>
      CheckedClauseFact(a, index, i, j).value == DispositionOf(ClauseOutcomeOf(x, x.alternatives[i][j]), x.alternatives[i][j])
  }

  lemma {:induction false} ClauseFactsRead(a: Analysis, index: nat, x: Subject, i: nat, from: nat)
    requires i < |x.alternatives| && ClausesReadWell(a, index, x, i) && from <= |x.alternatives[i]|
    requires ClauseFactsFrom(a, index, i, from, |x.alternatives[i]|).Ok?
    ensures var facts, cs := ClauseFactsFrom(a, index, i, from, |x.alternatives[i]|).value, x.alternatives[i];
            |facts| == |cs| - from && forall j :: from <= j < |cs| ==> facts[j - from] == DispositionOf(ClauseOutcomeOf(x, cs[j]), cs[j])
    decreases |x.alternatives[i]| - from
  {
    if from < |x.alternatives[i]| {
      ClauseFactsRead(a, index, x, i, from + 1);
    }
  }

  /** The facts of one alternative are those of its clauses and its permission. */
  ghost predicate FactsFit(f: AlternativeFacts, a: Analysis, index: nat, x: Subject, i: nat)
    requires index in a.sources && i < |x.alternatives|
  {
    var p, cs := PermissionFor(a, a.sources[index], i), x.alternatives[i];
    && p.Some? && f.permission == PermissionVerdict(p.value)
    && |f.clauses| == |cs| && forall j :: 0 <= j < |cs| ==> f.clauses[j] == DispositionOf(ClauseOutcomeOf(x, cs[j]), cs[j])
  }

  lemma FactsRead(a: Analysis, index: nat, x: Subject, i: nat, limit: nat)
    requires Recorded(a, index, x) && i < |x.alternatives| && FactsOf(a, index, i, limit).Ok?
    ensures FactsFit(FactsOf(a, index, i, limit).value, a, index, x, i)
  {
    forall j | 0 <= j < |x.alternatives[i]| && CheckedClauseFact(a, index, i, j).Ok?
      ensures CheckedClauseFact(a, index, i, j).value == DispositionOf(ClauseOutcomeOf(x, x.alternatives[i][j]), x.alternatives[i][j])
    {
      ClauseFactRead(a, index, x, i, j);
    }
    ClauseFactsRead(a, index, x, i, 0);
  }

  /** The facts of all alternatives from the given one on. */
  ghost predicate AllFactsFit(fs: seq<AlternativeFacts>, a: Analysis, index: nat, x: Subject, from: nat)
    requires index in a.sources && from <= |x.alternatives|
  {
    |fs| == |x.alternatives| - from && forall k :: 0 <= k < |fs| ==> FactsFit(fs[k], a, index, x, from + k)
  }

  lemma AllFactsFitCons(f: AlternativeFacts, fs: seq<AlternativeFacts>, a: Analysis, index: nat, x: Subject, from: nat)
    requires index in a.sources && from < |x.alternatives| && FactsFit(f, a, index, x, from) && AllFactsFit(fs, a, index, x, from + 1)
    ensures AllFactsFit([f] + fs, a, index, x, from)
  {
    forall k | 0 <= k < |[f] + fs|
      ensures FactsFit(([f] + fs)[k], a, index, x, from + k)
    {
      if k > 0 {
        assert ([f] + fs)[k] == fs[k - 1] && FactsFit(fs[k - 1], a, index, x, from + 1 + (k - 1));
      }
    }
  }

  /** What is found for one alternative fits it. */
  ghost predicate ReadsWell(a: Analysis, index: nat, x: Subject, limit: nat)
  {
    && index in a.sources && |a.sources[index].clauseIds| == |x.alternatives|
    && forall i :: 0 <= i < |x.alternatives| && FactsOf(a, index, i, limit).Ok? ==> FactsFit(FactsOf(a, index, i, limit).value, a, index, x, i)
  }

  lemma RecordedReadsWell(a: Analysis, index: nat, x: Subject, limit: nat)
    requires Recorded(a, index, x)
    ensures ReadsWell(a, index, x, limit)
  {
    forall i | 0 <= i < |x.alternatives| && FactsOf(a, index, i, limit).Ok?
      ensures FactsFit(FactsOf(a, index, i, limit).value, a, index, x, i)
    {
      FactsRead(a, index, x, i, limit);
    }
  }

  lemma {:induction false} ConformanceFactsRead(a: Analysis, index: nat, x: Subject, from: nat, remaining: nat, limit: nat)
    requires ReadsWell(a, index, x, limit) && from <= |x.alternatives| && ConformanceFactsFrom(a, index, from, remaining, limit).Ok?
    ensures AllFactsFit(ConformanceFactsFrom(a, index, from, remaining, limit).value, a, index, x, from)
    decreases |x.alternatives| - from
  {
    if from < |x.alternatives| {
      var rest := remaining - |a.sources[index].clauseIds[from]| - 1;
      ConformanceFactsRead(a, index, x, from + 1, rest, limit);
      AllFactsFitCons(FactsOf(a, index, from, limit).value, ConformanceFactsFrom(a, index, from + 1, rest, limit).value, a, index, x, from);
    }
  }

  // ----- Each recorded verdict agrees with the world. -----

  lemma ClauseVerdictAgrees(x: Subject, c: TraceSpecClause, world: World, limit: bool)
    requires Possible(world, x.item)
    ensures DispositionOf(ClauseOutcomeOf(x, c), c).ClauseProven? ==> ClauseTrue(c, x.item.trace, world, limit)
    ensures DispositionOf(ClauseOutcomeOf(x, c), c).ClauseViolated? && NoEmptyChoice(x.item.trace) ==> !ClauseTrue(c, x.item.trace, world, limit)
  {
    match c
    case Deny(pattern, _) =>
      DenialSound(PatternOf(x.item.matching, pattern), Calls(x.item.trace) != [], x.item.requested, world.all, Matches(world, pattern));
    case BeforeClause(guard, target, source) => TemporalVerdictAgrees(x, guard, target, source, world);
    case AfterClause(target, obligation, source) => TemporalVerdictAgrees(x, target, obligation, source, world);
    case _ =>
  }

  lemma TemporalVerdictAgrees(x: Subject, earlier: TraceSpecPattern, later: TraceSpecPattern, source: Option<ClauseId>, world: World)
    requires Possible(world, x.item)
    ensures var verdict := TraceSpecs.Temporal(x.item.matching, source, earlier, later, x.item.trace, x.item.requested).temporal;
            && (verdict.TemporalProven? ==> forall w :: In(w, x.item.trace) ==> Preceded(w, Matches(world, later), Matches(world, earlier)))
            && (verdict.TemporalViolated? && NoEmptyChoice(x.item.trace) ==> exists w :: In(w, x.item.trace) && !Preceded(w, Matches(world, later), Matches(world, earlier)))
  {
    var m := Monitor(PatternOf(x.item.matching, earlier), PatternOf(x.item.matching, later));
    TemporalSound(x.item.matching, earlier, later, source, x.item.trace, x.item.requested);
    var g, h := Matches(world, earlier), Matches(world, later);
    assert Resolves(g, m.guard) && Resolves(h, m.target);
    forall w
      ensures Safe(w, NoGuard, g, h) <==> Preceded(w, h, g)
    {
      SafeByPosition(w, NoGuard, g, h);
    }
    if TraceSpecs.Temporal(x.item.matching, source, earlier, later, x.item.trace, x.item.requested).temporal.TemporalViolated? && NoEmptyChoice(x.item.trace) {
      var w :| In(w, x.item.trace) && Unsafe(m, w, NoGuard);
      assert !Safe(w, NoGuard, g, h);
    }
  }

  /** The truth of each permission in the world. */
  function TruthOf(world: World, ps: seq<(TraceSpecPattern, nat)>): (nat, Effect) -> bool
  {
    (i: nat, a: Effect) => i < |ps| && world.matches(ps[i].0, a)
  }

  lemma PermissionsResolved(x: Item, world: World, ps: seq<(TraceSpecPattern, nat)>)
    requires Possible(world, x)
    ensures ResolveAll(TruthOf(world, ps), PatternsOf(x.matching, ps))
  {
    var patterns, truth := PatternsOf(x.matching, ps), TruthOf(world, ps);
    forall i: nat, a: Effect | i < |ps|
      ensures (patterns[i].must(a) ==> truth(i, a)) && (truth(i, a) ==> patterns[i].may(a))
    {
      assert Resolves(Matches(world, ps[i].0), PatternOf(x.matching, ps[i].0));
      assert Matches(world, ps[i].0)(a) == world.matches(ps[i].0, a);
    }
  }

  /** The requests of the world that no default handler takes. */
  function Left(x: Item, world: World): set<Effect>
  {
    set a | a in world.all && Unhandled(x, a)
  }

  lemma LeftRequests(x: Item, world: World)
    requires Possible(world, x)
    ensures Requests(Left(x, world), PermissionRow(x), Calls(x.trace) != [])
  {
  }

  lemma PermittedExactly(x: Item, ps: seq<(TraceSpecPattern, nat)>, cs: seq<TraceSpecClause>, world: World)
    requires Normal(ps, cs)
    ensures Permitted(Left(x, world), TruthOf(world, ps), |ps|) <==> PermissionTrue(x, cs, world)
  {
    AllowClausesExactly(ps, cs);
    forall a: Effect
      ensures AllowedIn(world, cs, a) <==> PermittedOne(a, TruthOf(world, ps), |ps|)
    {
      AllowedExactly(ps, cs, world, a);
    }
    PermittedAsAllowed(x, cs, world, TruthOf(world, ps), |ps|);
  }

  lemma PermittedAsAllowed(x: Item, cs: seq<TraceSpecClause>, world: World, truth: (nat, Effect) -> bool, patterns: nat)
    requires patterns == 0 <==> AllowsNothing(cs)
    requires forall a :: AllowedIn(world, cs, a) <==> PermittedOne(a, truth, patterns)
    ensures Permitted(Left(x, world), truth, patterns) <==> PermissionTrue(x, cs, world)
  {
  }

  lemma PermissionVerdictAgrees(o: Option<PermissionOutcome>, x: Item, cs: seq<TraceSpecClause>, world: World)
    requires Lawful(x) && Possible(world, x) && o.Some? && PermissionRecorded(o, x, cs)
    ensures Agrees(PermissionVerdict(o.value), PermissionTrue(x, cs, world))
  {
    var ps := x.normalize(cs).value;
    PermissionsResolved(x, world, ps);
    LeftRequests(x, world);
    PermittedExactly(x, ps, cs, world);
    PermissionSound(o.value, PatternsOf(x.matching, ps), x.order(PermissionRow(x).effects), Left(x, world), TruthOf(world, ps));
  }

  /** To be allowed by the normal form is to be allowed by a clause. */
  lemma AllowedExactly(ps: seq<(TraceSpecPattern, nat)>, cs: seq<TraceSpecClause>, world: World, a: Effect)
    requires Normal(ps, cs)
    ensures AllowedIn(world, cs, a) <==> PermittedOne(a, TruthOf(world, ps), |ps|)
  {
    if k: nat :| k < |ps| && TruthOf(world, ps)(k, a) {
      var c := cs[ps[k].1];
      assert c in cs && world.matches(c.pattern, a);
    }
    if c :| c in cs && c.Allow? && world.matches(c.pattern, a) {
      var k: nat :| k < |ps| && ps[k].0 == c.pattern;
      assert TruthOf(world, ps)(k, a);
    }
  }

  lemma AllowClausesExactly(ps: seq<(TraceSpecPattern, nat)>, cs: seq<TraceSpecClause>)
    requires Normal(ps, cs)
    ensures ps == [] <==> AllowsNothing(cs)
  {
    if ps != [] {
      assert cs[ps[0].1] in cs;
    }
  }

  /**
   * Requests that default handlers take need no permission: when they take all of a closed row, every
   * analysed alternative is permitted, whatever it allows.
   */
  lemma HandledNeedNoPermission(o: Option<PermissionOutcome>, x: Item, cs: seq<TraceSpecClause>)
    requires Lawful(x) && o.Some? && PermissionRecorded(o, x, cs)
    requires x.requested.open.None? && Calls(x.trace) == [] && forall a :: a in x.requested.effects ==> !Unhandled(x, a)
    ensures PermissionVerdict(o.value).Proven?
  {
    var row := PermissionRow(x);
    assert row.effects == {};
    assert Elems(x.order(row.effects)) == row.effects;
    NonEmptyElems(x.order(row.effects));
  }

  /** A reported violation may be taken at its word: it is no temporal one behind an empty choice. */
  predicate Trusted(x: Subject, c: TraceSpecClause)
  {
    NoEmptyChoice(x.item.trace) || !DispositionOf(ClauseOutcomeOf(x, c), c).ClauseViolated?
  }

  /** The truth of every permission and clause in the world, as a resolution of the recorded facts. */
  ghost function TruthIn(world: World, x: Subject): Resolution
  {
    Resolution(
      (i: nat) => i < |x.alternatives| && PermissionTrue(x.item, x.alternatives[i], world),
      (i: nat, j: nat) => i < |x.alternatives| && j < |x.alternatives[i]| && Trusted(x, x.alternatives[i][j])
                          && ClauseTrue(x.alternatives[i][j], x.item.trace, world, world.limits(i, j)))
  }

  /**
   * In every world a proven conformance has an alternative that holds: each request that no default
   * handler takes is allowed, no request is denied, and every word keeps the order clauses. Of a violated
   * one no alternative holds.
   */
  lemma VerdictMeansTruth(a: Analysis, index: nat, x: Subject, limit: nat, world: World)
    requires Lawful(x.item) && Recorded(a, index, x) && ConformanceFacts(a, index, limit).Ok? && Possible(world, x.item)
    ensures var verdict := Disjunction(Verdicts.Verdicts(ConformanceFacts(a, index, limit).value));
            && (verdict.Proven? ==> exists i :: 0 <= i < |x.alternatives| && AlternativeTrue(x, i, world))
            && (verdict.Violated? && NoEmptyChoice(x.item.trace) ==> forall i :: 0 <= i < |x.alternatives| ==> !AlternativeTrue(x, i, world))
  {
    var fs := ConformanceFacts(a, index, limit).value;
    RecordedReadsWell(a, index, x, limit);
    ConformanceFactsRead(a, index, x, 0, limit, limit);
    FactsAgree(fs, a, index, x, world);
    VerdictExact(fs);
    forall i | 0 <= i < |x.alternatives|
      ensures AlternativeHolds(fs[i], i, TruthIn(world, x)) ==> AlternativeTrue(x, i, world)
      ensures NoEmptyChoice(x.item.trace) && AlternativeTrue(x, i, world) ==> AlternativeHolds(fs[i], i, TruthIn(world, x))
    {
      AlternativeRead(fs[i], a, index, x, i, world);
    }
  }

  /** On every trace the analysis builds, a verdict decides the conformance in both directions. */
  lemma BuiltVerdictMeansTruth(a: Analysis, index: nat, x: Subject, limit: nat, world: World, build: Build, keys: SortKeys)
    requires Lawful(x.item) && Recorded(a, index, x) && ConformanceFacts(a, index, limit).Ok? && Possible(world, x.item)
    requires Accepted(build) && x.item.trace == TraceOf(build, keys)
    ensures var verdict := Disjunction(Verdicts.Verdicts(ConformanceFacts(a, index, limit).value));
            && (verdict.Proven? ==> exists i :: 0 <= i < |x.alternatives| && AlternativeTrue(x, i, world))
            && (verdict.Violated? ==> forall i :: 0 <= i < |x.alternatives| ==> !AlternativeTrue(x, i, world))
  {
    BuiltHasNoEmptyChoice(build, keys);
    VerdictMeansTruth(a, index, x, limit, world);
  }

  lemma FactsAgree(fs: seq<AlternativeFacts>, a: Analysis, index: nat, x: Subject, world: World)
    requires Lawful(x.item) && Recorded(a, index, x) && Possible(world, x.item)
    requires |fs| == |x.alternatives| && forall i :: 0 <= i < |fs| ==> FactsFit(fs[i], a, index, x, i)
    ensures Consistent(fs, TruthIn(world, x))
  {
    var r := TruthIn(world, x);
    forall i | 0 <= i < |fs|
      ensures Agrees(fs[i].permission, r.permission(i))
    {
      assert FactsFit(fs[i], a, index, x, i);
      PermissionVerdictAgrees(PermissionFor(a, a.sources[index], i), x.item, x.alternatives[i], world);
    }
    forall i, j | 0 <= i < |fs| && 0 <= j < |fs[i].clauses|
      ensures ClauseAgrees(fs[i].clauses[j], r.clause(i, j))
    {
      assert FactsFit(fs[i], a, index, x, i);
      ClauseVerdictAgrees(x, x.alternatives[i][j], world, world.limits(i, j));
    }
  }

  lemma AlternativeRead(f: AlternativeFacts, a: Analysis, index: nat, x: Subject, i: nat, world: World)
    requires index in a.sources && i < |x.alternatives| && FactsFit(f, a, index, x, i) && Possible(world, x.item)
    ensures AlternativeHolds(f, i, TruthIn(world, x)) ==> AlternativeTrue(x, i, world)
    ensures NoEmptyChoice(x.item.trace) && AlternativeTrue(x, i, world) ==> AlternativeHolds(f, i, TruthIn(world, x))
  {
    var r, cs := TruthIn(world, x), x.alternatives[i];
    forall j | 0 <= j < |cs|
      ensures f.clauses[j].AlternativePermission? <==> cs[j].Allow?
      ensures r.clause(i, j) <==> Trusted(x, cs[j]) && ClauseTrue(cs[j], x.item.trace, world, world.limits(i, j))
    {
      assert f.clauses[j] == DispositionOf(ClauseOutcomeOf(x, cs[j]), cs[j]);
    }
  }
}
