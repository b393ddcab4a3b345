/** When a recorded conformance gets a verdict, and exactly which one. */
module ConformanceExact {
  import opened Prelude
  import opened Effects
  import opened Traces
  import opened TraceMonitor
  import opened Coverage
  import opened TraceSpecs
  import opened Verdicts
  import opened Conformance
  import MonitorRuns
  import Rounds

  // ----- What surely holds and what surely fails, clause by clause. -----

  predicate SurelyMatches(x: Item, p: TraceSpecPattern, a: Effect)
  {
    MatchesEffect(x.matching.registry, x.matching.satisfies, p, a)
  }

  predicate CanMatch(x: Item, p: TraceSpecPattern, a: Effect)
  {
    MayMatchEffect(x.matching.registry, p, a)
  }

  /** Nothing beyond the recorded actions can be requested. */
  predicate Closed(x: Item)
  {
    x.requested.open.None? && forall l :: l in Letters(x.trace) ==> l.Act?
  }

  /** Some way through the trace, from its start, ends like this under the two patterns. */
  ghost predicate Meets(x: Item, earlier: TraceSpecPattern, later: TraceSpecPattern, o: MonitorRuns.End)
  {
    MonitorRuns.Ways(Monitor(PatternOf(x.matching, earlier), PatternOf(x.matching, later)), x.trace, NoGuard, o)
  }

  ghost predicate OrderSure(x: Item, earlier: TraceSpecPattern, later: TraceSpecPattern)
  {
    && x.requested.open.None?
    && !Meets(x, earlier, later, Rounds.Bad) && !Meets(x, earlier, later, Rounds.Stuck)
    && forall a :: Act(a) in Letters(x.trace) ==> !SurelyMatches(x, later, a)
  }

  ghost predicate Sure(x: Item, c: TraceSpecClause)
  {
    match c
    case Allow(_, _) => true
    case Deny(p, _) => Closed(x) && forall a :: a in x.requested.effects ==> !CanMatch(x, p, a) && !SurelyMatches(x, p, a)
    case BeforeClause(guard, target, _) => OrderSure(x, guard, target)
    case AfterClause(target, obligation, _) => OrderSure(x, target, obligation)
    case Limit => false
  }

  ghost predicate Broken(x: Item, c: TraceSpecClause)
  {
    match c
    case Allow(_, _) => false
    case Deny(p, _) => exists a :: a in x.requested.effects && SurelyMatches(x, p, a)
    case BeforeClause(guard, target, _) => Meets(x, guard, target, Rounds.Bad)
    case AfterClause(target, obligation, _) => Meets(x, target, obligation, Rounds.Bad)
    case Limit => false
  }

  predicate SurelyAllowed(x: Item, cs: seq<TraceSpecClause>, a: Effect)
  {
    exists c :: c in cs && c.Allow? && SurelyMatches(x, c.pattern, a)
  }

  predicate PerhapsAllowed(x: Item, cs: seq<TraceSpecClause>, a: Effect)
  {
    exists c :: c in cs && c.Allow? && CanMatch(x, c.pattern, a)
  }

  /** Nothing is asked, or each request no default handler takes surely matches an allow clause. */
  predicate PermissionSure(x: Item, cs: seq<TraceSpecClause>)
  {
    AllowsNothing(cs) ||
    (Closed(x) && forall a :: a in x.requested.effects && Unhandled(x, a) ==> SurelyAllowed(x, cs, a))
  }

  /** Something is asked, and some request no default handler takes can match no allow clause. */
  predicate PermissionBroken(x: Item, cs: seq<TraceSpecClause>)
  {
    !AllowsNothing(cs) &&
    exists a :: a in x.requested.effects && Unhandled(x, a) && !SurelyAllowed(x, cs, a) && !PerhapsAllowed(x, cs, a)
  }

  ghost predicate AlternativeSure(x: Item, cs: seq<TraceSpecClause>)
  {
    PermissionSure(x, cs) && forall c :: c in cs ==> Sure(x, c)
  }

  ghost predicate AlternativeBroken(x: Item, cs: seq<TraceSpecClause>)
  {
    PermissionBroken(x, cs) || exists c :: c in cs && Broken(x, c)
  }

  // ----- Verdicts of clauses. -----

  lemma CallsAreLetters(t: Trace)
    ensures Calls(t) == [] <==> forall l :: l in Letters(t) ==> l.Act?
  {
    if Calls(t) != [] {
      MonitorRuns.CallsHaveLetters(t);
    }
  }

  lemma OrderVerdict(x: Item, earlier: TraceSpecPattern, later: TraceSpecPattern, source: Option<ClauseId>)
    ensures var v := TraceSpecs.Temporal(x.matching, source, earlier, later, x.trace, x.requested).temporal;
            && (v.TemporalProven? <==> OrderSure(x, earlier, later))
            && (v.TemporalViolated? <==> Meets(x, earlier, later, Rounds.Bad))
  {
    var m := Monitor(PatternOf(x.matching, earlier), PatternOf(x.matching, later));
    MonitorRuns.RequireBeforeExactly(m, x.trace);
    forall a
      ensures m.target.must(a) == SurelyMatches(x, later, a)
    {
    }
  }

  lemma ClauseVerdict(x: Subject, c: TraceSpecClause)
    ensures var d := DispositionOf(ClauseOutcomeOf(x, c), c);
            && (d.AlternativePermission? <==> c.Allow?)
            && (d.ClauseProven? || d.AlternativePermission? <==> Sure(x.item, c))
            && (d.ClauseViolated? <==> Broken(x.item, c))
  {
    match c
    case Deny(p, _) => DenialVerdict(x.item, p);
    case BeforeClause(guard, target, source) => OrderVerdict(x.item, guard, target, source);
    case AfterClause(target, obligation, source) => OrderVerdict(x.item, target, obligation, source);
    case _ =>
  }

  lemma DenialVerdict(x: Item, p: TraceSpecPattern)
    ensures var v := AnalyzeDenial(PatternOf(x.matching, p), Calls(x.trace) != [], x.requested);
            && (v.Proven? <==> Closed(x) && forall a :: a in x.requested.effects ==> !CanMatch(x, p, a) && !SurelyMatches(x, p, a))
            && (v.Violated? <==> exists a :: a in x.requested.effects && SurelyMatches(x, p, a))
  {
    CallsAreLetters(x.trace);
    var pattern := PatternOf(x.matching, p);
    assert forall a :: pattern.must(a) == SurelyMatches(x, p, a) && pattern.may(a) == CanMatch(x, p, a);
  }

  // ----- Verdicts of permissions. -----

  lemma AllowedBySome(x: Item, ps: seq<(TraceSpecPattern, nat)>, cs: seq<TraceSpecClause>, a: Effect)
    requires Normal(ps, cs)
    ensures SomeMust(PatternsOf(x.matching, ps), a) <==> SurelyAllowed(x, cs, a)
    ensures SomeMay(PatternsOf(x.matching, ps), a) <==> PerhapsAllowed(x, cs, a)
  {
    var patterns := PatternsOf(x.matching, ps);
    forall k | 0 <= k < |ps|
      ensures patterns[k].must(a) == SurelyMatches(x, ps[k].0, a) && patterns[k].may(a) == CanMatch(x, ps[k].0, a)
      ensures cs[ps[k].1] in cs
    {
    }
    forall c | c in cs && c.Allow?
      ensures exists k :: 0 <= k < |patterns| && ps[k].0 == c.pattern
    {
      assert Listed(ps, c.pattern);
    }
  }

  lemma PermissionVerdictExactly(o: PermissionOutcome, x: Item, cs: seq<TraceSpecClause>)
    requires Lawful(x) && PermissionRecorded(Some(o), x, cs)
    ensures PermissionVerdict(o).Proven? <==> PermissionSure(x, cs)
    ensures PermissionVerdict(o).Violated? <==> PermissionBroken(x, cs)
  {
    var ps := x.normalize(cs).value;
    var patterns, row := PatternsOf(x.matching, ps), PermissionRow(x);
    var actions := x.order(row.effects);
    AllowClausesExactly(ps, cs);
    CallsAreLetters(x.trace);
    forall a
      ensures SomeMust(patterns, a) <==> SurelyAllowed(x, cs, a)
      ensures SomeMay(patterns, a) <==> PerhapsAllowed(x, cs, a)
      ensures a in actions <==> a in x.requested.effects && Unhandled(x, a)
    {
      AllowedBySome(x, ps, cs, a);
      assert a in Elems(actions) <==> a in row.effects;
    }
    assert row.open == x.requested.open;
    if ps != [] {
      UncoveredRead(o, patterns, actions);
    }
  }

  /** The two questions asked of the uncovered actions. */
  lemma UncoveredRead(o: PermissionOutcome, ps: seq<Pattern>, actions: seq<Effect>)
    requires RecordedFor(o, ps, actions) && ps != []
    ensures o.uncovered == [] <==> forall a :: a in actions ==> SomeMust(ps, a)
    ensures (exists i :: 0 <= i < |o.uncovered| && !o.uncovered[i].1) <==> exists a :: a in actions && !SomeMust(ps, a) && !SomeMay(ps, a)
  {
    forall a, uncertain
      ensures (a, uncertain) in o.uncovered <==> a in actions && !SomeMust(ps, a) && uncertain == SomeMay(ps, a)
    {
      UncoveredMembers(ps, actions, a, uncertain);
    }
    if o.uncovered != [] {
      assert (o.uncovered[0].0, o.uncovered[0].1) in o.uncovered;
    }
    if i :| 0 <= i < |o.uncovered| && !o.uncovered[i].1 {
      assert (o.uncovered[i].0, false) in o.uncovered;
    }
    if a :| a in actions && !SomeMust(ps, a) {
      assert (a, SomeMay(ps, a)) in o.uncovered;
    }
    if a :| a in actions && !SomeMust(ps, a) && !SomeMay(ps, a) {
      assert (a, false) in o.uncovered;
    }
  }

  // ----- When there is a verdict. -----

  /** Each clause is recorded with its source, and each allow clause with its place in the normal form. */
  ghost predicate Indexed(a: Analysis, index: nat, x: Subject)
  {
    && Lawful(x.item) && Recorded(a, index, x)
    && (forall i :: 0 <= i < |x.alternatives| ==> x.item.normalize(x.alternatives[i]).Some?)
    && forall i, j :: 0 <= i < |x.alternatives| && 0 <= j < |x.alternatives[i]| ==> SiteIndexed(a.sources[index], x, i, j)
  }

  ghost predicate SiteIndexed(source: SourceConformance, x: Subject, i: nat, j: nat)
    requires i < |x.alternatives| && j < |x.alternatives[i]| && i < |source.clauseIds| && j < |source.clauseIds[i]|
    requires i < |source.clauseKinds| && j < |source.clauseKinds[i]| && x.item.normalize(x.alternatives[i]).Some?
  {
    var kind, ps := source.clauseKinds[i][j], x.item.normalize(x.alternatives[i]).value;
    && source.clauseIds[i][j] == SourceClause(x.alternatives[i][j])
    && (x.alternatives[i][j].Allow? ==>
          && kind.AllowKind? && kind.permissionIndex < |ps|
          && ps[kind.permissionIndex] == (x.alternatives[i][j].pattern, kind.originIndex))
  }

  /** The permissions of the alternative are searched within the limit. */
  predicate Searchable(x: Item, cs: seq<TraceSpecClause>)
    requires x.normalize(cs).Some?
  {
    x.normalize(cs).value == [] ||
    SearchCost(PatternsOf(x.matching, x.normalize(cs).value), x.order(PermissionRow(x).effects)) <= x.searchLimit
  }

  /** Every clause and every alternative costs one. */
  function Cost(groups: seq<seq<TraceSpecClause>>): nat
  {
    if groups == [] then 0 else |groups[0]| + 1 + Cost(groups[1..])
  }

  lemma AllowFactFound(a: Analysis, index: nat, x: Subject, i: nat, j: nat)
    requires Indexed(a, index, x) && i < |x.alternatives| && j < |x.alternatives[i]|
    requires x.alternatives[i][j].Allow? && PermissionFor(a, a.sources[index], i).Some?
    ensures AllowFact(a, a.sources[index], i, a.sources[index].clauseKinds[i][j]).Ok?
  {
    var source, cs := a.sources[index], x.alternatives[i];
    assert SiteIndexed(source, x, i, j);
    var kind, ps := source.clauseKinds[i][j], x.item.normalize(cs).value;
    var p := kind.permissionIndex;
    assert ps[p].1 < |cs|;
    assert PermissionRecorded(a.permissionOutcomes[source.item][source.position][i], x.item, cs);
    assert SiteIndexed(source, x, i, ps[p].1);
  }

  lemma ClauseFactFound(a: Analysis, index: nat, x: Subject, i: nat, j: nat)
    requires Indexed(a, index, x) && i < |x.alternatives| && j < |x.alternatives[i]| && PermissionFor(a, a.sources[index], i).Some?
    ensures CheckedClauseFact(a, index, i, j).Ok?
  {
    var source, c := a.sources[index], x.alternatives[i][j];
    assert KindFits(source.clauseKinds[i][j], c);
    assert SiteIndexed(source, x, i, j);
    assert ClauseResult(a, source, i, j) == Some(ClauseOutcomeOf(x, c));
    OutcomeBelongs(x.item.matching, c, x.item.trace, x.item.requested);
    if c.Allow? {
      AllowFactFound(a, index, x, i, j);
    }
    OutcomeRead(a, index, i, j, ClauseOutcomeOf(x, c), c);
  }

  lemma OutcomeRead(a: Analysis, index: nat, i: nat, j: nat, o: Option<ClauseOutcome>, c: TraceSpecClause)
    requires index in a.sources
    requires i < |a.sources[index].clauseIds| && j < |a.sources[index].clauseIds[i]|
    requires i < |a.sources[index].clauseKinds| && j < |a.sources[index].clauseKinds[i]|
    requires KindFits(a.sources[index].clauseKinds[i][j], c) && a.sources[index].clauseIds[i][j] == SourceClause(c)
    requires ClauseResult(a, a.sources[index], i, j) == Some(o) && OutcomeFits(o, c)
    requires c.Allow? ==> AllowFact(a, a.sources[index], i, a.sources[index].clauseKinds[i][j]).Ok?
    ensures CheckedClauseFact(a, index, i, j).Ok?
  {
  }

  lemma {:induction false} ClauseFactsFound(a: Analysis, index: nat, x: Subject, i: nat, from: nat)
    requires i < |x.alternatives| && from <= |x.alternatives[i]|
    requires forall j :: 0 <= j < |x.alternatives[i]| ==> CheckedClauseFact(a, index, i, j).Ok?
    ensures ClauseFactsFrom(a, index, i, from, |x.alternatives[i]|).Ok?
    decreases |x.alternatives[i]| - from
  {
    if from < |x.alternatives[i]| {
      ClauseFactsFound(a, index, x, i, from + 1);
    }
  }

  lemma FactsFound(a: Analysis, index: nat, x: Subject, i: nat, limit: nat)
    requires Indexed(a, index, x) && i < |x.alternatives| && |x.alternatives[i]| <= limit
    ensures FactsOf(a, index, i, limit).Ok? <==> x.alternatives[i] != [] && Searchable(x.item, x.alternatives[i])
  {
    var source, cs := a.sources[index], x.alternatives[i];
    var o := a.permissionOutcomes[source.item][source.position][i];
    assert PermissionRecorded(o, x.item, cs);
    assert PermissionFor(a, source, i) == o;
    assert o.Some? <==> Searchable(x.item, cs);
    if o.Some? {
      forall j | 0 <= j < |cs|
        ensures CheckedClauseFact(a, index, i, j).Ok?
      {
        ClauseFactFound(a, index, x, i, j);
      }
      ClauseFactsFound(a, index, x, i, 0);
    }
  }

  predicate Readable(x: Subject, i: nat)
    requires i < |x.alternatives|
  {
    var cs := x.alternatives[i];
    cs != [] && x.item.normalize(cs).Some? && Searchable(x.item, cs)
  }

  predicate AllReadable(x: Subject, from: nat)
  {
    forall i :: from <= i < |x.alternatives| ==> Readable(x, i)
  }

  ghost predicate FoundWhenReadable(a: Analysis, index: nat, x: Subject, limit: nat)
  {
    && index in a.sources && |a.sources[index].clauseIds| == |x.alternatives|
    && (forall i :: 0 <= i < |x.alternatives| ==> |a.sources[index].clauseIds[i]| == |x.alternatives[i]|)
    && forall i :: 0 <= i < |x.alternatives| && |x.alternatives[i]| <= limit ==> (FactsOf(a, index, i, limit).Ok? <==> Readable(x, i))
  }

  lemma {:induction false} FactsFoundFrom(a: Analysis, index: nat, x: Subject, from: nat, remaining: nat, limit: nat)
    requires FoundWhenReadable(a, index, x, limit) && from <= |x.alternatives| && remaining <= limit
    ensures var r := ConformanceFactsFrom(a, index, from, remaining, limit);
            && (r.Ok? <==> Cost(x.alternatives[from..]) <= remaining && AllReadable(x, from))
            && (AllReadable(x, from) && r.Err? ==> r == Err(LimitExceeded(limit)))
    decreases |x.alternatives| - from
  {
    if from < |x.alternatives| {
      var cs := x.alternatives[from];
      assert x.alternatives[from..][1..] == x.alternatives[from + 1..];
      assert AllReadable(x, from) <==> Readable(x, from) && AllReadable(x, from + 1);
      if remaining >= |cs| + 1 {
        assert FactsOf(a, index, from, limit).Ok? <==> Readable(x, from);
        FactsFoundFrom(a, index, x, from + 1, remaining - |cs| - 1, limit);
      }
    }
  }

  /**
   * An indexed conformance gets a verdict exactly when it has alternatives, none is empty, the permissions
   * of each are searched within the limit, and its clauses and alternatives together do not exceed it.
   */
  lemma VerdictExistsExactly(a: Analysis, index: nat, x: Subject, limit: nat)
    requires Indexed(a, index, x)
    ensures ConformanceFacts(a, index, limit).Ok? <==>
              x.alternatives != [] && AllReadable(x, 0) && Cost(x.alternatives) <= limit
    ensures x.alternatives != [] && AllReadable(x, 0) && Cost(x.alternatives) > limit ==>
              ConformanceFacts(a, index, limit) == Err(LimitExceeded(limit))
  {
    forall i | 0 <= i < |x.alternatives| && |x.alternatives[i]| <= limit
      ensures FactsOf(a, index, i, limit).Ok? <==> Readable(x, i)
    {
      FactsFound(a, index, x, i, limit);
    }
    assert x.alternatives[0..] == x.alternatives;
    FactsFoundFrom(a, index, x, 0, limit, limit);
  }

  // ----- Which verdict. -----

  lemma ConjunctionExactly(f: AlternativeFacts, a: Analysis, index: nat, x: Subject, i: nat)
    requires Indexed(a, index, x) && i < |x.alternatives| && FactsFit(f, a, index, x, i)
    ensures Conjunction(f).Proven? <==> AlternativeSure(x.item, x.alternatives[i])
    ensures Conjunction(f).Violated? <==> AlternativeBroken(x.item, x.alternatives[i])
  {
    var source, cs := a.sources[index], x.alternatives[i];
    var o := PermissionFor(a, source, i);
    assert PermissionRecorded(o, x.item, cs);
    PermissionVerdictExactly(o.value, x.item, cs);
    forall j | 0 <= j < |cs|
      ensures cs[j] in cs && f.clauses[j] in f.clauses
      ensures f.clauses[j].ClauseProven? || f.clauses[j].AlternativePermission? <==> Sure(x.item, cs[j])
      ensures f.clauses[j].ClauseViolated? <==> Broken(x.item, cs[j])
    {
      ClauseVerdict(x, cs[j]);
    }
    ConjunctionRead(f, x.item, cs);
  }

  lemma ConjunctionRead(f: AlternativeFacts, x: Item, cs: seq<TraceSpecClause>)
    requires |f.clauses| == |cs|
    requires f.permission.Proven? <==> PermissionSure(x, cs)
    requires f.permission.Violated? <==> PermissionBroken(x, cs)
    requires forall j :: 0 <= j < |cs| ==> (f.clauses[j].ClauseProven? || f.clauses[j].AlternativePermission? <==> Sure(x, cs[j]))
    requires forall j :: 0 <= j < |cs| ==> (f.clauses[j].ClauseViolated? <==> Broken(x, cs[j]))
    ensures Conjunction(f).Proven? <==> AlternativeSure(x, cs)
    ensures Conjunction(f).Violated? <==> AlternativeBroken(x, cs)
  {
    if c :| c in cs && Broken(x, c) {
      var j :| 0 <= j < |cs| && cs[j] == c;
      assert f.clauses[j] in f.clauses;
    }
    if ClauseViolated in f.clauses {
      var j :| 0 <= j < |f.clauses| && f.clauses[j] == ClauseViolated;
      assert cs[j] in cs;
    }
    if d :| d in f.clauses && d.ClauseUnsupported? {
      var j :| 0 <= j < |f.clauses| && f.clauses[j] == d;
      assert cs[j] in cs && !Sure(x, cs[j]);
    }
    if c :| c in cs && !Sure(x, c) {
      var j :| 0 <= j < |cs| && cs[j] == c;
      assert f.clauses[j] in f.clauses;
    }
  }

  /** Each alternative's conjunction is what its parts say. */
  ghost predicate ConjunctionsRead(vs: seq<Verdict>, x: Subject)
  {
    && |vs| == |x.alternatives|
    && (forall i :: 0 <= i < |vs| ==> (vs[i].Proven? <==> AlternativeSure(x.item, x.alternatives[i])))
    && (forall i :: 0 <= i < |vs| ==> (vs[i].Violated? <==> AlternativeBroken(x.item, x.alternatives[i])))
  }

  lemma ConjunctionsExactly(a: Analysis, index: nat, x: Subject, limit: nat)
    requires Indexed(a, index, x) && ConformanceFacts(a, index, limit).Ok?
    ensures ConjunctionsRead(Verdicts.Verdicts(ConformanceFacts(a, index, limit).value), x)
  {
    var fs := ConformanceFacts(a, index, limit).value;
    RecordedReadsWell(a, index, x, limit);
    ConformanceFactsRead(a, index, x, 0, limit, limit);
    var vs := Verdicts.Verdicts(fs);
    forall i | 0 <= i < |vs|
      ensures vs[i].Proven? <==> AlternativeSure(x.item, x.alternatives[i])
      ensures vs[i].Violated? <==> AlternativeBroken(x.item, x.alternatives[i])
    {
      ConjunctionExactly(fs[i], a, index, x, i);
    }
  }

  /**
   * The verdict is proven exactly when some alternative is sure in all its parts, and violated exactly
   * when every alternative is broken in one of its parts.
   */
  lemma VerdictExactly(a: Analysis, index: nat, x: Subject, limit: nat)
    requires Indexed(a, index, x) && ConformanceFacts(a, index, limit).Ok?
    ensures var verdict := Disjunction(Verdicts.Verdicts(ConformanceFacts(a, index, limit).value));
            && (verdict.Proven? <==> exists i :: 0 <= i < |x.alternatives| && AlternativeSure(x.item, x.alternatives[i]))
            && (verdict.Violated? <==> forall i :: 0 <= i < |x.alternatives| ==> AlternativeBroken(x.item, x.alternatives[i]))
  {
    ConjunctionsExactly(a, index, x, limit);
    DisjunctionRead(Verdicts.Verdicts(ConformanceFacts(a, index, limit).value), x);
  }

  lemma DisjunctionRead(vs: seq<Verdict>, x: Subject)
    requires ConjunctionsRead(vs, x)
    ensures Disjunction(vs).Proven? <==> exists i :: 0 <= i < |x.alternatives| && AlternativeSure(x.item, x.alternatives[i])
    ensures Disjunction(vs).Violated? <==> forall i :: 0 <= i < |x.alternatives| ==> AlternativeBroken(x.item, x.alternatives[i])
  {
    DisjunctionMembers(vs);
  }

  lemma DisjunctionMembers(vs: seq<Verdict>)
    ensures Disjunction(vs).Proven? <==> exists i :: 0 <= i < |vs| && vs[i].Proven?
    ensures Disjunction(vs).Violated? <==> forall i :: 0 <= i < |vs| ==> vs[i].Violated?
  {
    if v :| v in vs && !v.Violated? {
      var i :| 0 <= i < |vs| && vs[i] == v;
    }
    assert forall i :: 0 <= i < |vs| ==> vs[i] in vs;
  }
}
