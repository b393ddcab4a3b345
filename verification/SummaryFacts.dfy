/** Whole effect summaries: the effects of `SummaryValues` with exits, requirements, residual checks and support. */
module SummaryFacts {
  import opened Prelude
  import opened Effects
  import opened Traces
  import opened TraceOps
  import opened SummaryValues
  import opened Exits

  type ResidualRef = nat

  datatype Requirement =
    | LimitRequirement(limit: nat)
    | AllowRequirement(pattern: EffectRow, text: string)
    | DenyRequirement(pattern: EffectRow, text: string)
    | BeforeRequirement(guard: EffectRow, guardText: string, target: EffectRow, targetText: string)
    | AfterRequirement(target: EffectRow, targetText: string, obligation: EffectRow, obligationText: string)
    | OtherRequirement(id: nat)

  datatype Determinism = Deterministic | RuntimeMediated | NonDeterministic

  datatype Support =
    | LocalOnly
    | RequiresHost(host: set<nat>)
    | RequiresOrchestration(host: set<nat>, features: set<nat>)
    | Rejected(reason: nat)

  datatype FullSummary = FullSummary(
    core: Summary,
    exits: Option<ExitSummary>,
    checks: set<ResidualRef>,
    obligations: set<Requirement>,
    requirements: set<Requirement>,
    determinism: Determinism,
    independent: Option<Determinism>,
    support: Support
  )

  const LocalFull := FullSummary(LocalSummary, None, {}, {}, {}, Deterministic, Some(Deterministic), LocalOnly)

  predicate DeterminismLess(a: Determinism, b: Determinism)
  {
    a.Deterministic? || b.NonDeterministic? || a == b
  }

  /** The greater of the two. */
  function JoinDeterminism(a: Determinism, b: Determinism): (r: Determinism)
    ensures DeterminismLess(a, r) && DeterminismLess(b, r) && (r == a || r == b)
  {
    if DeterminismLess(a, b) then b else a
  }

  /** The independent part is only known while every part is. */
  function JoinIndependent(a: Option<Determinism>, b: Option<Determinism>): Option<Determinism>
  {
    if a.Some? && b.Some? then Some(JoinDeterminism(a.value, b.value)) else None
  }

  predicate SupportLess(a: Support, b: Support)
  {
    || a == b || a.LocalOnly? || b.Rejected?
    || (a.RequiresHost? && (b.RequiresHost? || b.RequiresOrchestration?) && a.host <= b.host)
    || (a.RequiresOrchestration? && b.RequiresOrchestration? && a.host <= b.host && a.features <= b.features)
  }

  /** The least support that serves both; the first rejection stays. */
  function JoinSupport(a: Support, b: Support): (r: Support)
    ensures SupportLess(a, r) && SupportLess(b, r)
    ensures forall c :: SupportLess(a, c) && SupportLess(b, c) ==> SupportLess(r, c)
  {
    if a.Rejected? then a else if b.Rejected? then b
    else if a.LocalOnly? then b else if b.LocalOnly? then a
    else if a.RequiresHost? && b.RequiresHost? then RequiresHost(a.host + b.host)
    else RequiresOrchestration(a.host + b.host, FeaturesOf(a) + FeaturesOf(b))
  }

  function FeaturesOf(a: Support): set<nat>
  {
    if a.RequiresOrchestration? then a.features else {}
  }

  /** What every join does with the facts beside the effects and exits. */
  function JoinFacts(s: FullSummary, o: FullSummary): FullSummary
  {
    s.(checks := s.checks + o.checks,
       obligations := s.obligations + o.obligations,
       requirements := s.requirements + o.requirements,
       determinism := JoinDeterminism(s.determinism, o.determinism),
       independent := JoinIndependent(s.independent, o.independent),
       support := JoinSupport(s.support, o.support))
  }

  /** Sequencing leaves the exits to the caller. */
  function SeqFull(s: FullSummary, o: FullSummary, keys: SortKeys, rank: Effect -> Rank): FullSummary
  {
    JoinFacts(s, o).(core := SeqSummary(s.core, o.core, keys, rank))
  }

  function JoinOptionalExits(a: Option<ExitSummary>, b: Option<ExitSummary>, ranks: Ranks, keys: SortKeys): Option<ExitSummary>
  {
    if b.None? then a else if a.None? then b else Some(JoinExits(a.value, b.value, ranks, keys))
  }

  function BranchFull(s: FullSummary, o: FullSummary, ranks: Ranks, keys: SortKeys, rank: Effect -> Rank): FullSummary
  {
    JoinFacts(s, o).(core := BranchSummary(s.core, o.core, keys, rank), exits := JoinOptionalExits(s.exits, o.exits, ranks, keys))
  }

  function FootprintFull(s: FullSummary, o: FullSummary, rank: Effect -> Rank): FullSummary
  {
    JoinFacts(s, o).(core := MergeFootprint(s.core, o.core, rank))
  }

  function StabilizeFull(s: FullSummary, current: Option<FullSummary>, keys: SortKeys): FullSummary
  {
    s.(core := s.core.(trace := Stabilize(s.core.trace, if current.Some? then Some(current.value.core.trace) else None, keys)),
       exits := if s.exits.None? then None
                else Some(StabilizeExits(s.exits.value, if current.Some? then current.value.exits else None, keys)))
  }

  /** The derived escaping row is up to date and the exits have one entry per key, in order. */
  ghost predicate WellFormed(s: FullSummary, ranks: Ranks)
  {
    Balanced(s.core) && OrderedExits(s.exits, ranks)
  }

  ghost predicate OrderedExits(exits: Option<ExitSummary>, ranks: Ranks)
  {
    exits.Some? ==> Exits.Canonical(exits.value, ranks)
  }

  /** Every trace of the stabilized summary fits the fixpoint's limit and keeps its letters and words. */
  ghost predicate StableFull(s: FullSummary, was: FullSummary)
  {
    && s == was.(core := was.core.(trace := s.core.trace), exits := s.exits)
    && StableForm(s.core.trace, was.core.trace)
    && s.exits.Some? == was.exits.Some? && (s.exits.Some? ==> StableExits(s.exits.value, was.exits.value))
  }
}
