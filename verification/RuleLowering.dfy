/** Lowering checked trace clauses to monitor rules (trace_spec/lower.rs). */
module RuleLowering {
  import opened Prelude
  import opened Effects
  import opened Traces
  import opened Words
  import opened TraceMonitor
  import opened Coverage
  import opened TraceSpecs

  datatype LoweringError = AlternativeLimit | ClauseLimit | PatternCount | PatternMismatch | UnsupportedLimitClause

  datatype Limits = Limits(maxAlternatives: nat, maxClauses: nat, ceiling: nat)

  datatype Rule<T> = AllowRule(pattern: T) | DenyRule(pattern: T) | BeforeRule(guard: T, target: T)

  /** A checked pattern with its projection. */
  type Projection<T> = (TraceSpecPattern, T)

  // ----- The projection as a consumer of the projected patterns, in source order. -----

  function Next<T>(expected: TraceSpecPattern, ps: seq<Projection<T>>): Result<(T, seq<Projection<T>>), LoweringError>
  {
    if ps == [] then Err(PatternCount)
    else if ps[0].0 != expected then Err(PatternMismatch)
    else Ok((ps[0].1, ps[1..]))
  }

  function ProjectPair<T>(guard: TraceSpecPattern, target: TraceSpecPattern, ps: seq<Projection<T>>): Result<(Rule<T>, seq<Projection<T>>), LoweringError>
  {
    var first :- Next(guard, ps);
    var second :- Next(target, first.1);
    Ok((BeforeRule(first.0, second.0), second.1))
  }

  function ProjectClause<T>(c: TraceSpecClause, ps: seq<Projection<T>>): Result<(Rule<T>, seq<Projection<T>>), LoweringError>
  {
    match c
    case Allow(pattern, _) => var x :- Next(pattern, ps); Ok((AllowRule(x.0), x.1))
    case Deny(pattern, _) => var x :- Next(pattern, ps); Ok((DenyRule(x.0), x.1))
    case BeforeClause(guard, target, _) => ProjectPair(guard, target, ps)
    case AfterClause(target, obligation, _) => ProjectPair(target, obligation, ps)
    case Limit => Err(UnsupportedLimitClause)
  }

  function ProjectGroup<T>(cs: seq<TraceSpecClause>, ps: seq<Projection<T>>): Result<(seq<Rule<T>>, seq<Projection<T>>), LoweringError>
  {
    if cs == [] then Ok(([], ps))
    else
      var head :- ProjectClause(cs[0], ps);
      var tail :- ProjectGroup(cs[1..], head.1);
      Ok(([head.0] + tail.0, tail.1))
  }

  function ProjectGroups<T>(groups: seq<seq<TraceSpecClause>>, ps: seq<Projection<T>>, count: nat, total: nat, limits: Limits)
    : Result<seq<seq<Rule<T>>>, LoweringError>
  {
    if groups == [] then
      if ps != [] then Err(PatternCount) else Ok([])
    else
      var count1 := count + |groups[0]|;
      if count1 > limits.maxClauses || count1 + total > limits.ceiling then Err(ClauseLimit)
      else
        var head :- ProjectGroup(groups[0], ps);
        var tail :- ProjectGroups(groups[1..], head.1, count1, total, limits);
        Ok([head.0] + tail)
  }

  function ProjectRules<T>(source: seq<seq<TraceSpecClause>>, ps: seq<Projection<T>>, limits: Limits): Result<seq<seq<Rule<T>>>, LoweringError>
  {
    if |source| > limits.maxAlternatives || |source| > limits.ceiling then Err(AlternativeLimit)
    else if |ps| > 2 * limits.ceiling || |ps| > 2 * limits.maxClauses then Err(PatternCount)
    else ProjectGroups(source, ps, 0, |source|, limits)
  }

  // ----- The nested loops of the source. -----

  method ProjectGroupByLoop<T>(cs: seq<TraceSpecClause>, ps: seq<Projection<T>>)
    returns (r: Result<(seq<Rule<T>>, seq<Projection<T>>), LoweringError>)
    ensures r == ProjectGroup(cs, ps)
  {
    var rules: seq<Rule<T>> := [];
    var patterns := ps;
    assert cs[0..] == cs;
    Prefixed0(ProjectGroup(cs, ps));
    for i := 0 to |cs|
      invariant ProjectGroup(cs, ps) == Prefixed(rules, ProjectGroup(cs[i..], patterns))
    {
      assert cs[i..][1..] == cs[i + 1..];
      var x := ProjectClause(cs[i], patterns);
      if x.Err? {
        return Err(x.error);
      }
      PrefixedStep(rules, x.value.0, ProjectGroup(cs[i + 1..], x.value.1));
      rules := rules + [x.value.0];
      patterns := x.value.1;
    }
    assert rules + [] == rules;
    r := Ok((rules, patterns));
  }

  ghost function Prefixed<A, B>(done: seq<A>, r: Result<(seq<A>, B), LoweringError>): Result<(seq<A>, B), LoweringError>
  {
    if r.Ok? then Ok((done + r.value.0, r.value.1)) else r
  }

  lemma Prefixed0<A, B>(r: Result<(seq<A>, B), LoweringError>)
    ensures Prefixed([], r) == r
  {
    if r.Ok? {
      assert [] + r.value.0 == r.value.0;
    }
  }

  lemma PrefixedStep<A, B>(done: seq<A>, x: A, r: Result<(seq<A>, B), LoweringError>)
    ensures Prefixed(done, Prefixed([x], r)) == Prefixed(done + [x], r)
  {
    if r.Ok? {
      assert done + ([x] + r.value.0) == (done + [x]) + r.value.0;
    }
  }

  ghost function Grouped<A>(done: seq<A>, r: Result<seq<A>, LoweringError>): Result<seq<A>, LoweringError>
  {
    if r.Ok? then Ok(done + r.value) else r
  }

  method ProjectRulesByLoop<T>(source: seq<seq<TraceSpecClause>>, ps: seq<Projection<T>>, limits: Limits)
    returns (r: Result<seq<seq<Rule<T>>>, LoweringError>)
    ensures r == ProjectRules(source, ps, limits)
  {
    if |source| > limits.maxAlternatives || |source| > limits.ceiling {
      return Err(AlternativeLimit);
    }
    if |ps| > 2 * limits.ceiling || |ps| > 2 * limits.maxClauses {
      return Err(PatternCount);
    }
    var count: nat := 0;
    var alternatives: seq<seq<Rule<T>>> := [];
    var patterns := ps;
    ghost var whole := ProjectGroups(source, ps, 0, |source|, limits);
    assert source[0..] == source;
    assert whole.Ok? ==> [] + whole.value == whole.value;
    for i := 0 to |source|
      invariant whole == Grouped(alternatives, ProjectGroups(source[i..], patterns, count, |source|, limits))
    {
      assert source[i..][1..] == source[i + 1..];
      count := count + |source[i]|;
      if count > limits.maxClauses || count + |source| > limits.ceiling {
        return Err(ClauseLimit);
      }
      var group := ProjectGroupByLoop(source[i], patterns);
      if group.Err? {
        return Err(group.error);
      }
      ghost var rest := ProjectGroups(source[i + 1..], group.value.1, count, |source|, limits);
      assert rest.Ok? ==> alternatives + ([group.value.0] + rest.value) == (alternatives + [group.value.0]) + rest.value;
      alternatives := alternatives + [group.value.0];
      patterns := group.value.1;
    }
    if patterns != [] {
      return Err(PatternCount);
    }
    assert alternatives + [] == alternatives;
    r := Ok(alternatives);
  }

  // ----- Lowering succeeds exactly on matching projections within the limits. -----

  function Operands(c: TraceSpecClause): seq<TraceSpecPattern>
  {
    match c
    case Allow(pattern, _) => [pattern]
    case Deny(pattern, _) => [pattern]
    case BeforeClause(guard, target, _) => [guard, target]
    case AfterClause(target, obligation, _) => [target, obligation]
    case Limit => []
  }

  function GroupOperands(cs: seq<TraceSpecClause>): seq<TraceSpecPattern>
  {
    if cs == [] then [] else Operands(cs[0]) + GroupOperands(cs[1..])
  }

  function AllOperands(groups: seq<seq<TraceSpecClause>>): seq<TraceSpecPattern>
  {
    if groups == [] then [] else GroupOperands(groups[0]) + AllOperands(groups[1..])
  }

  function ClauseCount(groups: seq<seq<TraceSpecClause>>): nat
  {
    if groups == [] then 0 else |groups[0]| + ClauseCount(groups[1..])
  }

  function Sources<T>(ps: seq<Projection<T>>): (r: seq<TraceSpecPattern>)
    ensures |r| == |ps| && forall i :: 0 <= i < |ps| ==> r[i] == ps[i].0
  {
    if ps == [] then [] else [ps[0].0] + Sources(ps[1..])
  }

  predicate NoLimits(groups: seq<seq<TraceSpecClause>>)
  {
    forall i :: 0 <= i < |groups| ==> Limit !in groups[i]
  }

  /** A clause consumes exactly its operands. */
  lemma ClauseConsumes<T>(c: TraceSpecClause, ps: seq<Projection<T>>)
    ensures ProjectClause(c, ps).Ok? <==> !c.Limit? && Operands(c) <= Sources(ps)
    ensures ProjectClause(c, ps).Ok? ==> ProjectClause(c, ps).value.1 == ps[|Operands(c)|..]
  {
    if ps != [] && !c.Limit? {
      assert Sources(ps)[0] == ps[0].0;
      if |Operands(c)| == 1 {
        assert Operands(c) <= Sources(ps) <==> Operands(c)[0] == Sources(ps)[0];
      } else if |ps| > 1 {
        assert ps[1..][0] == ps[1] && ps[1..][1..] == ps[2..];
        assert Operands(c) <= Sources(ps) <==> Operands(c)[0] == Sources(ps)[0] && Operands(c)[1] == Sources(ps)[1];
      }
    }
  }

  lemma SourcesDrop<T>(ps: seq<Projection<T>>, k: nat)
    requires k <= |ps|
    ensures Sources(ps[k..]) == Sources(ps)[k..]
  {
  }

  lemma PrefixOfAppend<A>(a: seq<A>, b: seq<A>, s: seq<A>)
    requires a + b <= s
    ensures a <= s
  {
    assert (a + b)[..|a|] == a;
    assert s[..|a|] == (a + b)[..|a|];
  }

  lemma AppendSplit<A>(a: seq<A>, b: seq<A>, s: seq<A>)
    requires s == a + b
    ensures a <= s && s[|a|..] == b
  {
  }

  lemma PrefixSplit<A>(a: seq<A>, b: seq<A>, s: seq<A>)
    requires a <= s
    ensures a + b <= s <==> b <= s[|a|..]
    ensures a + b == s <==> b == s[|a|..]
  {
    assert s == a + s[|a|..];
    if b <= s[|a|..] {
      assert s[|a|..] == b + s[|a|..][|b|..];
      assert s == (a + b) + s[|a|..][|b|..];
    }
    if a + b <= s {
      assert s[..|a + b|] == a + b;
      assert s[|a|..][..|b|] == b;
    }
  }

  lemma {:induction false} GroupConsumes<T>(cs: seq<TraceSpecClause>, ps: seq<Projection<T>>)
    ensures ProjectGroup(cs, ps).Ok? <==> Limit !in cs && GroupOperands(cs) <= Sources(ps)
    ensures ProjectGroup(cs, ps).Ok? ==> ProjectGroup(cs, ps).value.1 == ps[|GroupOperands(cs)|..]
    decreases |cs|
  {
    if cs != [] {
      ClauseConsumes(cs[0], ps);
      assert Limit in cs <==> cs[0] == Limit || Limit in cs[1..];
      if GroupOperands(cs) <= Sources(ps) {
        PrefixOfAppend(Operands(cs[0]), GroupOperands(cs[1..]), Sources(ps));
      }
      if ProjectClause(cs[0], ps).Ok? {
        var rest := ProjectClause(cs[0], ps).value.1;
        PrefixSplit(Operands(cs[0]), GroupOperands(cs[1..]), Sources(ps));
        SourcesDrop(ps, |Operands(cs[0])|);
        GroupConsumes(cs[1..], rest);
        if ProjectGroup(cs[1..], rest).Ok? {
          assert rest[|GroupOperands(cs[1..])|..] == ps[|GroupOperands(cs)|..];
        }
      }
    }
  }

  lemma NoLimitsSplit(groups: seq<seq<TraceSpecClause>>)
    requires groups != []
    ensures NoLimits(groups) <==> Limit !in groups[0] && NoLimits(groups[1..])
  {
    assert forall i :: 0 < i < |groups| ==> groups[i] == groups[1..][i - 1];
  }

  /** The clause counts checked group by group stay within the limits exactly when their sum does. */
  predicate WithinLimits(groups: seq<seq<TraceSpecClause>>, count: nat, total: nat, limits: Limits)
  {
    count + ClauseCount(groups) <= limits.maxClauses && count + ClauseCount(groups) + total <= limits.ceiling
  }

  lemma {:induction false} GroupsAccepted<T>(groups: seq<seq<TraceSpecClause>>, ps: seq<Projection<T>>, count: nat, total: nat, limits: Limits)
    requires NoLimits(groups) && AllOperands(groups) == Sources(ps) && WithinLimits(groups, count, total, limits)
    ensures ProjectGroups(groups, ps, count, total, limits).Ok?
    decreases |groups|, 1
  {
    if groups != [] {
      NoLimitsSplit(groups);
      var head := GroupOperands(groups[0]);
      AppendSplit(head, AllOperands(groups[1..]), Sources(ps));
      GroupConsumes(groups[0], ps);
      SourcesDrop(ps, |head|);
      AcceptedFrom(groups, ps, count, total, limits);
    }
  }

  lemma {:induction false} AcceptedFrom<T>(groups: seq<seq<TraceSpecClause>>, ps: seq<Projection<T>>, count: nat, total: nat, limits: Limits)
    requires groups != [] && NoLimits(groups[1..]) && WithinLimits(groups, count, total, limits)
    requires ProjectGroup(groups[0], ps).Ok? && AllOperands(groups[1..]) == Sources(ProjectGroup(groups[0], ps).value.1)
    ensures ProjectGroups(groups, ps, count, total, limits).Ok?
    decreases |groups|, 0
  {
    GroupsAccepted(groups[1..], ProjectGroup(groups[0], ps).value.1, count + |groups[0]|, total, limits);
  }

  lemma {:induction false} GroupsChecked<T>(groups: seq<seq<TraceSpecClause>>, ps: seq<Projection<T>>, count: nat, total: nat, limits: Limits)
    requires count <= limits.maxClauses && count + total <= limits.ceiling
    requires ProjectGroups(groups, ps, count, total, limits).Ok?
    ensures NoLimits(groups) && AllOperands(groups) == Sources(ps) && WithinLimits(groups, count, total, limits)
    decreases |groups|
  {
    if groups != [] {
      NoLimitsSplit(groups);
      var head := GroupOperands(groups[0]);
      GroupConsumes(groups[0], ps);
      SourcesDrop(ps, |head|);
      assert ProjectGroup(groups[0], ps).Ok?;
      var rest := ProjectGroup(groups[0], ps).value.1;
      assert ProjectGroups(groups[1..], rest, count + |groups[0]|, total, limits).Ok?;
      GroupsChecked(groups[1..], rest, count + |groups[0]|, total, limits);
      PrefixSplit(head, AllOperands(groups[1..]), Sources(ps));
    }
  }

  /** Lowering succeeds exactly when the limits hold, no limit clause occurs and the projections match the operands in order. */
  lemma {:induction false} LoweringSucceedsExactly<T>(source: seq<seq<TraceSpecClause>>, ps: seq<Projection<T>>, limits: Limits)
    ensures ProjectRules(source, ps, limits).Ok? <==>
              && |source| <= limits.maxAlternatives && |source| + ClauseCount(source) <= limits.ceiling
              && ClauseCount(source) <= limits.maxClauses
              && NoLimits(source) && AllOperands(source) == Sources(ps)
  {
    OperandBound(source);
    if ProjectRules(source, ps, limits).Ok? {
      GroupsChecked(source, ps, 0, |source|, limits);
    } else if NoLimits(source) && AllOperands(source) == Sources(ps) && WithinLimits(source, 0, |source|, limits) {
      GroupsAccepted(source, ps, 0, |source|, limits);
    }
  }

  /** A clause has at most two operands, so the early pattern-count check rejects nothing that could succeed. */
  lemma {:induction false} OperandBound(groups: seq<seq<TraceSpecClause>>)
    ensures |AllOperands(groups)| <= 2 * ClauseCount(groups)
  {
    if groups != [] {
      GroupOperandBound(groups[0]);
      OperandBound(groups[1..]);
    }
  }

  lemma {:induction false} GroupOperandBound(cs: seq<TraceSpecClause>)
    ensures |GroupOperands(cs)| <= 2 * |cs|
  {
    if cs != [] {
      GroupOperandBound(cs[1..]);
    }
  }

  // ----- Meaning on words. -----

  /** One rule on a word, permissions aside. */
  ghost predicate RuleHolds<T>(rule: Rule<T>, matches: (T, Effect) -> bool, w: Word)
  {
    match rule
    case AllowRule(_) => true
    case DenyRule(p) => forall a :: Act(a) in w ==> !matches(p, a)
    case BeforeRule(g, t) => Safe(w, NoGuard, a => matches(g, a), a => matches(t, a))
  }

  ghost predicate Allows<T>(rule: Rule<T>, matches: (T, Effect) -> bool, a: Effect)
  {
    rule.AllowRule? && matches(rule.pattern, a)
  }

  /** All rules hold, and if there is an allow rule then every action is allowed by one. */
  ghost predicate GroupHolds<T>(rules: seq<Rule<T>>, matches: (T, Effect) -> bool, w: Word)
  {
    && (forall i :: 0 <= i < |rules| ==> RuleHolds(rules[i], matches, w))
    && ((exists i :: 0 <= i < |rules| && rules[i].AllowRule?) ==>
          forall a :: Act(a) in w ==> SomeAllows(rules, matches, a))
  }

  ghost predicate SomeAllows<T>(rules: seq<Rule<T>>, matches: (T, Effect) -> bool, a: Effect)
  {
    exists i :: 0 <= i < |rules| && Allows(rules[i], matches, a)
  }

  ghost predicate RulesHold<T>(groups: seq<seq<Rule<T>>>, matches: (T, Effect) -> bool, w: Word)
  {
    exists i :: 0 <= i < |groups| && GroupHolds(groups[i], matches, w)
  }

  /** The rule a clause states about its own patterns. */
  function SourceRule(c: TraceSpecClause): Rule<TraceSpecPattern>
    requires !c.Limit?
  {
    match c
    case Allow(pattern, _) => AllowRule(pattern)
    case Deny(pattern, _) => DenyRule(pattern)
    case BeforeClause(guard, target, _) => BeforeRule(guard, target)
    case AfterClause(target, obligation, _) => BeforeRule(target, obligation)
  }

  function SourceRules(cs: seq<TraceSpecClause>): seq<Rule<TraceSpecPattern>>
    requires Limit !in cs
  {
    seq(|cs|, i requires 0 <= i < |cs| => assert cs[i] in cs; SourceRule(cs[i]))
  }

  // What clauses say about words, told without rules.

  /** `after` asks that no obligation comes before the target it belongs to. */
  ghost predicate ClauseHolds(c: TraceSpecClause, matches: (TraceSpecPattern, Effect) -> bool, w: Word)
    requires !c.Limit?
  {
    match c
    case Allow(_, _) => true
    case Deny(pattern, _) => forall a :: Act(a) in w ==> !matches(pattern, a)
    case BeforeClause(guard, target, _) => Preceded(w, a => matches(target, a), a => matches(guard, a))
    case AfterClause(target, obligation, _) => Preceded(w, a => matches(obligation, a), a => matches(target, a))
  }

  ghost predicate AllowedBy(cs: seq<TraceSpecClause>, matches: (TraceSpecPattern, Effect) -> bool, a: Effect)
  {
    exists i :: 0 <= i < |cs| && cs[i].Allow? && matches(cs[i].pattern, a)
  }

  /** All clauses hold, and if there is an allow clause then every action is allowed by one. */
  ghost predicate ClausesHold(cs: seq<TraceSpecClause>, matches: (TraceSpecPattern, Effect) -> bool, w: Word)
    requires Limit !in cs
  {
    && (forall c :: c in cs ==> ClauseHolds(c, matches, w))
    && ((exists i :: 0 <= i < |cs| && cs[i].Allow?) ==> forall a :: Act(a) in w ==> AllowedBy(cs, matches, a))
  }

  ghost predicate SourceHolds(source: seq<seq<TraceSpecClause>>, matches: (TraceSpecPattern, Effect) -> bool, w: Word)
    requires NoLimits(source)
  {
    exists i :: 0 <= i < |source| && ClausesHold(source[i], matches, w)
  }

  lemma ClauseAsRule(c: TraceSpecClause, matches: (TraceSpecPattern, Effect) -> bool, w: Word)
    requires !c.Limit?
    ensures ClauseHolds(c, matches, w) <==> RuleHolds(SourceRule(c), matches, w)
  {
    if c.BeforeClause? {
      SafeByPosition(w, NoGuard, a => matches(c.guard, a), a => matches(c.target, a));
    } else if c.AfterClause? {
      SafeByPosition(w, NoGuard, a => matches(c.target, a), a => matches(c.obligation, a));
    }
  }

  lemma ClausesAsRules(cs: seq<TraceSpecClause>, matches: (TraceSpecPattern, Effect) -> bool, w: Word)
    requires Limit !in cs
    ensures ClausesHold(cs, matches, w) <==> GroupHolds(SourceRules(cs), matches, w)
  {
    var rules := SourceRules(cs);
    forall i | 0 <= i < |cs|
      ensures !cs[i].Limit? && (ClauseHolds(cs[i], matches, w) <==> RuleHolds(rules[i], matches, w))
    {
      assert cs[i] in cs;
      ClauseAsRule(cs[i], matches, w);
    }
    assert forall i :: 0 <= i < |cs| ==> (cs[i].Allow? <==> rules[i].AllowRule?);
    forall a
      ensures AllowedBy(cs, matches, a) <==> SomeAllows(rules, matches, a)
    {
      if i :| 0 <= i < |cs| && cs[i].Allow? && matches(cs[i].pattern, a) {
        assert Allows(rules[i], matches, a);
      }
      if i :| 0 <= i < |rules| && Allows(rules[i], matches, a) {
        assert cs[i].Allow?;
      }
    }
    if GroupHolds(rules, matches, w) {
      forall c | c in cs
        ensures ClauseHolds(c, matches, w)
      {
        var i :| 0 <= i < |cs| && cs[i] == c;
        assert RuleHolds(rules[i], matches, w);
      }
    }
    if ClausesHold(cs, matches, w) {
      forall i | 0 <= i < |rules|
        ensures RuleHolds(rules[i], matches, w)
      {
        assert cs[i] in cs;
      }
    }
  }

  /** Each projection matches what its source pattern matches. */
  ghost predicate Faithful<T>(ps: seq<Projection<T>>, source: (TraceSpecPattern, Effect) -> bool, projected: (T, Effect) -> bool)
  {
    forall i, a :: 0 <= i < |ps| ==> projected(ps[i].1, a) == source(ps[i].0, a)
  }

  ghost predicate SameRule<T>(a: Rule<TraceSpecPattern>, b: Rule<T>, source: (TraceSpecPattern, Effect) -> bool, projected: (T, Effect) -> bool)
  {
    match a
    case AllowRule(p) => b.AllowRule? && forall e :: projected(b.pattern, e) == source(p, e)
    case DenyRule(p) => b.DenyRule? && forall e :: projected(b.pattern, e) == source(p, e)
    case BeforeRule(g, t) => b.BeforeRule? && forall e :: projected(b.guard, e) == source(g, e) && projected(b.target, e) == source(t, e)
  }

  lemma SafeExtensional(w: Word, prior: Prior, g: Effect -> bool, h: Effect -> bool, g2: Effect -> bool, h2: Effect -> bool)
    requires forall e :: g(e) == g2(e) && h(e) == h2(e)
    ensures Safe(w, prior, g, h) == Safe(w, prior, g2, h2)
  {
    if w != [] {
      if w[0].Act? {
        SafeExtensional(w[1..], Note(prior, g(w[0].action)), g, h, g2, h2);
      } else {
        SafeExtensional(w[1..], prior, g, h, g2, h2);
      }
    }
  }

  lemma SameRuleHolds<T>(a: Rule<TraceSpecPattern>, b: Rule<T>, source: (TraceSpecPattern, Effect) -> bool, projected: (T, Effect) -> bool, w: Word)
    requires SameRule(a, b, source, projected)
    ensures RuleHolds(a, source, w) == RuleHolds(b, projected, w)
    ensures a.AllowRule? == b.AllowRule?
    ensures forall e :: Allows(a, source, e) == Allows(b, projected, e)
  {
    if a.BeforeRule? {
      SafeExtensional(w, NoGuard, e => source(a.guard, e), e => source(a.target, e),
                      e => projected(b.guard, e), e => projected(b.target, e));
    }
  }

  lemma SameGroupHolds<T>(a: seq<Rule<TraceSpecPattern>>, b: seq<Rule<T>>, source: (TraceSpecPattern, Effect) -> bool, projected: (T, Effect) -> bool, w: Word)
    requires |a| == |b| && forall i :: 0 <= i < |a| ==> SameRule(a[i], b[i], source, projected)
    ensures GroupHolds(a, source, w) == GroupHolds(b, projected, w)
  {
    forall i | 0 <= i < |a|
      ensures RuleHolds(a[i], source, w) == RuleHolds(b[i], projected, w)
      ensures a[i].AllowRule? == b[i].AllowRule?
      ensures forall e :: Allows(a[i], source, e) == Allows(b[i], projected, e)
    {
      SameRuleHolds(a[i], b[i], source, projected, w);
    }
    forall e
      ensures SomeAllows(a, source, e) <==> SomeAllows(b, projected, e)
    {
      if i :| 0 <= i < |a| && Allows(a[i], source, e) {
        assert Allows(b[i], projected, e);
      }
      if i :| 0 <= i < |b| && Allows(b[i], projected, e) {
        assert Allows(a[i], source, e);
      }
    }
  }

  lemma {:induction false} ProjectGroupSame<T>(cs: seq<TraceSpecClause>, ps: seq<Projection<T>>, source: (TraceSpecPattern, Effect) -> bool, projected: (T, Effect) -> bool)
    requires Faithful(ps, source, projected) && ProjectGroup(cs, ps).Ok?
    ensures Limit !in cs && Faithful(ProjectGroup(cs, ps).value.1, source, projected)
    ensures var rules := ProjectGroup(cs, ps).value.0;
            |rules| == |cs| && forall i :: 0 <= i < |cs| ==> SameRule(SourceRules(cs)[i], rules[i], source, projected)
    decreases |cs|
  {
    GroupConsumes(cs, ps);
    if cs != [] {
      var head := ProjectClause(cs[0], ps).value;
      ClauseConsumes(cs[0], ps);
      FaithfulDrop(ps, |Operands(cs[0])|, source, projected);
      assert SameRule(SourceRule(cs[0]), head.0, source, projected);
      ProjectGroupSame(cs[1..], head.1, source, projected);
      var rules := ProjectGroup(cs, ps).value.0;
      forall i | 0 <= i < |cs|
        ensures SameRule(SourceRules(cs)[i], rules[i], source, projected)
      {
        if i > 0 {
          assert SourceRules(cs)[i] == SourceRules(cs[1..])[i - 1];
        }
      }
    }
  }

  lemma FaithfulDrop<T>(ps: seq<Projection<T>>, k: nat, source: (TraceSpecPattern, Effect) -> bool, projected: (T, Effect) -> bool)
    requires k <= |ps| && Faithful(ps, source, projected)
    ensures Faithful(ps[k..], source, projected)
  {
    forall i, a | 0 <= i < |ps[k..]|
      ensures projected(ps[k..][i].1, a) == source(ps[k..][i].0, a)
    {
      assert ps[k..][i] == ps[k + i];
    }
  }

  lemma {:induction false} ProjectGroupsSame<T>(groups: seq<seq<TraceSpecClause>>, ps: seq<Projection<T>>, count: nat, total: nat, limits: Limits,
                                                source: (TraceSpecPattern, Effect) -> bool, projected: (T, Effect) -> bool, w: Word)
    requires Faithful(ps, source, projected) && ProjectGroups(groups, ps, count, total, limits).Ok?
    ensures NoLimits(groups)
    ensures var lowered := ProjectGroups(groups, ps, count, total, limits).value;
            && |lowered| == |groups|
            && forall i :: 0 <= i < |groups| ==> GroupHolds(SourceRules(groups[i]), source, w) == GroupHolds(lowered[i], projected, w)
    decreases |groups|
  {
    if groups != [] {
      var head := ProjectGroup(groups[0], ps).value;
      ProjectGroupSame(groups[0], ps, source, projected);
      SameGroupHolds(SourceRules(groups[0]), head.0, source, projected, w);
      ProjectGroupsSame(groups[1..], head.1, count + |groups[0]|, total, limits, source, projected, w);
      forall i | 0 < i < |groups|
        ensures groups[i] == groups[1..][i - 1]
      {
      }
    }
  }

  /** The lowered alternatives hold on a word exactly when the source alternatives do. */
  lemma LoweringPreservesMeaning<T>(groups: seq<seq<TraceSpecClause>>, ps: seq<Projection<T>>, limits: Limits,
                                    source: (TraceSpecPattern, Effect) -> bool, projected: (T, Effect) -> bool, w: Word)
    requires Faithful(ps, source, projected) && ProjectRules(groups, ps, limits).Ok?
    ensures NoLimits(groups)
    ensures RulesHold(ProjectRules(groups, ps, limits).value, projected, w) <==> SourceHolds(groups, source, w)
  {
    ProjectGroupsSame(groups, ps, 0, |groups|, limits, source, projected, w);
    var lowered := ProjectRules(groups, ps, limits).value;
    forall i | 0 <= i < |groups|
      ensures ClausesHold(groups[i], source, w) <==> GroupHolds(lowered[i], projected, w)
    {
      ClausesAsRules(groups[i], source, w);
    }
    if i :| 0 <= i < |lowered| && GroupHolds(lowered[i], projected, w) {
      assert ClausesHold(groups[i], source, w);
    }
    if i :| 0 <= i < |groups| && ClausesHold(groups[i], source, w) {
      assert GroupHolds(lowered[i], projected, w);
    }
  }

  // ----- Concrete and symbolic lowering share one shape. -----

  function MapRule<T, U>(rule: Rule<T>, f: T -> U): Rule<U>
  {
    match rule
    case AllowRule(p) => AllowRule(f(p))
    case DenyRule(p) => DenyRule(f(p))
    case BeforeRule(g, t) => BeforeRule(f(g), f(t))
  }

  function MapRules<T, U>(rules: seq<Rule<T>>, f: T -> U): (r: seq<Rule<U>>)
    ensures |r| == |rules|
  {
    if rules == [] then [] else [MapRule(rules[0], f)] + MapRules(rules[1..], f)
  }

  function MapGroups<T, U>(groups: seq<seq<Rule<T>>>, f: T -> U): (r: seq<seq<Rule<U>>>)
    ensures |r| == |groups|
  {
    if groups == [] then [] else [MapRules(groups[0], f)] + MapGroups(groups[1..], f)
  }

  function MapProjections<T, U>(ps: seq<Projection<T>>, f: T -> U): (r: seq<Projection<U>>)
    ensures |r| == |ps|
  {
    if ps == [] then [] else [(ps[0].0, f(ps[0].1))] + MapProjections(ps[1..], f)
  }

  /** Mapping the payload commutes with consuming one clause. */
  lemma ClauseNatural<T, U>(c: TraceSpecClause, ps: seq<Projection<T>>, f: T -> U)
    ensures var a, b := ProjectClause(c, ps), ProjectClause(c, MapProjections(ps, f));
            if a.Err? then b == Err(a.error) else b == Ok((MapRule(a.value.0, f), MapProjections(a.value.1, f)))
  {
    if ps != [] {
      assert MapProjections(ps, f)[1..] == MapProjections(ps[1..], f);
      if |ps| > 1 {
        assert MapProjections(ps[1..], f)[1..] == MapProjections(ps[1..][1..], f);
      }
    }
  }

  lemma {:induction false} GroupNatural<T, U>(cs: seq<TraceSpecClause>, ps: seq<Projection<T>>, f: T -> U)
    ensures var a, b := ProjectGroup(cs, ps), ProjectGroup(cs, MapProjections(ps, f));
            if a.Err? then b == Err(a.error) else b == Ok((MapRules(a.value.0, f), MapProjections(a.value.1, f)))
    decreases |cs|
  {
    if cs != [] {
      ClauseNatural(cs[0], ps, f);
      if ProjectClause(cs[0], ps).Ok? {
        var head := ProjectClause(cs[0], ps).value;
        GroupNatural(cs[1..], head.1, f);
        if ProjectGroup(cs[1..], head.1).Ok? {
          var tail := ProjectGroup(cs[1..], head.1).value.0;
          assert ([head.0] + tail)[1..] == tail;
        }
      }
    }
  }

  lemma {:induction false} GroupsNatural<T, U>(groups: seq<seq<TraceSpecClause>>, ps: seq<Projection<T>>, f: T -> U, count: nat, total: nat, limits: Limits)
    ensures var a, b := ProjectGroups(groups, ps, count, total, limits), ProjectGroups(groups, MapProjections(ps, f), count, total, limits);
            if a.Err? then b == Err(a.error) else b == Ok(MapGroups(a.value, f))
    decreases |groups|
  {
    if groups != [] {
      GroupNatural(groups[0], ps, f);
      if ProjectGroup(groups[0], ps).Ok? {
        var head := ProjectGroup(groups[0], ps).value;
        GroupsNatural(groups[1..], head.1, f, count + |groups[0]|, total, limits);
        var rest := ProjectGroups(groups[1..], head.1, count + |groups[0]|, total, limits);
        if rest.Ok? {
          assert ([head.0] + rest.value)[1..] == rest.value;
        }
      }
    }
  }

  /**
   * Lowering looks at the source patterns only: replacing the projected payload (concrete by
   * symbolic patterns) gives the same error, or the same rules with the payload replaced.
   */
  lemma LoweringNatural<T, U>(source: seq<seq<TraceSpecClause>>, ps: seq<Projection<T>>, f: T -> U, limits: Limits)
    ensures var a, b := ProjectRules(source, ps, limits), ProjectRules(source, MapProjections(ps, f), limits);
            if a.Err? then b == Err(a.error) else b == Ok(MapGroups(a.value, f))
  {
    GroupsNatural(source, ps, f, 0, |source|, limits);
  }
}
