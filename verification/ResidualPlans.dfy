/** Residual monitor plans: lowering and verification (crates/etas_effects/src/residual/mod.rs). */
module ResidualPlans {
  import opened Prelude

  type ObligationId = nat
  type MonitorId = nat
  type ContractRef = nat

  datatype Clause = Clause(alternative: nat, clause: nat, id: nat, cause: nat)

  datatype Requirement = Requirement(index: nat, item: nat, clauses: seq<Clause>)

  datatype Eligibility =
    | EligibilityProven
    | EligibilityViolated
    | NeedsConcrete(requirement: Requirement)
    | Ineligible(reason: nat)

  const MissingClauseFacts: nat := 8

  datatype PipelineError = LimitExceeded(limit: nat) | InvalidSourceSites | Interrupted

  datatype Failure = MissingProjector | Projection | IdentityFailure | PlanFailure | VerificationFailure

  /** The re-derivable identity of one obligation. */
  datatype Identity = Identity(id: ObligationId, inputs: nat)

  datatype Reference = Reference(obligation: ObligationId, bindings: nat)

  datatype Obligation = Obligation(identity: Identity, monitor: MonitorId)

  datatype Component = TraceComponent(obligation: Obligation) | OtherComponent

  /** A semantic plan, seen through its two observers. */
  datatype Plan = Plan(obligations: set<ObligationId>, componentFor: map<ObligationId, Component>)

  datatype LoweredPlan = LoweredPlan(
    requirement: Requirement,
    contract: ContractRef,
    monitor: MonitorId,
    plan: Plan,
    references: seq<(Reference, Clause)>
  )

  datatype VerifiedPlan = VerifiedPlan(
    requirement: Requirement,
    contract: ContractRef,
    monitor: MonitorId,
    plan: Plan,
    references: set<Reference>
  )

  datatype Plans = Plans(eligibility: map<nat, Eligibility>, lowered: map<nat, Result<LoweredPlan, Failure>>)

  datatype Verified = Verified(
    plans: map<nat, VerifiedPlan>,
    failures: map<nat, Failure>,
    eligibility: map<nat, Eligibility>
  )

  /** The checked facts of one pipeline run; every external computation is a deterministic function. */
  datatype Input = Input(
    indices: seq<nat>,
    items: map<nat, nat>,
    maxConformances: nat,
    maxObligationsPerPlan: nat,
    maxTotalObligations: nat,
    contract: ContractRef,
    classifyTrace: (nat, nat) -> Result<Eligibility, PipelineError>,
    project: (nat, nat) -> Result<Result<MonitorId, Failure>, PipelineError>,
    layout: Result<nat, Failure>,
    identity: (Requirement, Clause) -> Result<Result<Identity, Failure>, PipelineError>,
    reference: Identity -> Result<Result<Reference, Failure>, PipelineError>,
    obligation: (Identity, MonitorId) -> Result<Obligation, Failure>,
    compile: Obligation -> Result<Component, Failure>,
    build: (seq<Obligation>, seq<Component>) -> Result<Plan, Failure>,
    validateReference: (Identity, Reference) -> Result<bool, PipelineError>,
    validateSources: (Plan, seq<(Reference, Clause)>) -> Result<bool, PipelineError>
  )

  /** The indices are the keys of an ordered map. */
  predicate WellFormed(x: Input)
  {
    forall i, j :: 0 <= i < j < |x.indices| ==> x.indices[i] < x.indices[j]
  }

  function Classify(x: Input, index: nat, item: nat): Result<Eligibility, PipelineError>
  {
    var r := x.classifyTrace(index, item);
    if r == Err(InvalidSourceSites) then Ok(Ineligible(MissingClauseFacts)) else r
  }

  predicate Listed(x: Input)
  {
    |x.indices| <= x.maxConformances && forall i :: i in x.indices ==> i in x.items
  }

  function Conformances(x: Input): (r: Result<seq<(nat, nat)>, PipelineError>)
    ensures r.Ok? <==> Listed(x)
    ensures r.Ok? ==> |r.value| == |x.indices|
    ensures r.Ok? ==> forall i :: 0 <= i < |x.indices| ==> x.indices[i] in x.items && r.value[i] == (x.indices[i], x.items[x.indices[i]])
  {
    if |x.indices| > x.maxConformances then Err(LimitExceeded(x.maxConformances))
    else if forall i :: i in x.indices ==> i in x.items
    then Ok(seq(|x.indices|, i requires 0 <= i < |x.indices| => assert x.indices[i] in x.indices; (x.indices[i], x.items[x.indices[i]])))
    else Err(InvalidSourceSites)
  }

  // ----- What an accepted plan satisfies. -----

  /** One reference is derived from its clause, and the plan implements it with the checked monitor. */
  ghost predicate DerivedReference(x: Input, req: Requirement, p: LoweredPlan, i: nat)
    requires i < |req.clauses| && i < |p.references|
  {
    var identity := x.identity(req, req.clauses[i]);
    && p.references[i].1 == req.clauses[i]
    && identity.Ok? && identity.value.Ok?
    && p.references[i].0.obligation == identity.value.value.id
    && x.validateReference(identity.value.value, p.references[i].0) == Ok(true)
    && identity.value.value.id in p.plan.componentFor
    && var c := p.plan.componentFor[identity.value.value.id];
       c.TraceComponent? && c.obligation.identity.inputs == identity.value.value.inputs && c.obligation.monitor == p.monitor
  }

  ghost predicate DistinctReferences(p: LoweredPlan)
  {
    forall i, j :: 0 <= i < j < |p.references| ==> p.references[i].0 != p.references[j].0
  }

  /** The plan is exactly what the checked facts prescribe for the requirement. */
  ghost predicate Genuine(x: Input, req: Requirement, p: LoweredPlan)
  {
    && p.requirement == req && p.contract == x.contract
    && x.project(req.index, req.item) == Ok(Ok(p.monitor))
    && |p.references| == |req.clauses| && |p.plan.obligations| == |req.clauses|
    && (forall i :: 0 <= i < |req.clauses| ==> DerivedReference(x, req, p, i))
    && DistinctReferences(p)
    && x.validateSources(p.plan, p.references) == Ok(true)
  }

  /** The first references are derived and differ. */
  ghost predicate DerivedUpTo(x: Input, req: Requirement, p: LoweredPlan, n: nat)
    requires n <= |req.clauses| && n <= |p.references|
  {
    && (forall j :: 0 <= j < n ==> DerivedReference(x, req, p, j))
    && (forall j, k :: 0 <= j < k < n ==> p.references[j].0 != p.references[k].0)
  }

  /** Re-deriving this reference is interrupted. */
  ghost predicate DerivationInterrupted(x: Input, req: Requirement, p: LoweredPlan, i: nat)
    requires i < |req.clauses| && i < |p.references|
  {
    var identity := x.identity(req, req.clauses[i]);
    identity.Err? ||
    (identity.value.Ok? && p.references[i].0.obligation == identity.value.value.id
     && x.validateReference(identity.value.value, p.references[i].0).Err?)
  }

  /** The plan claims to be for the requirement, with as many references and obligations as clauses, in place. */
  ghost predicate WellShaped(x: Input, req: Requirement, p: LoweredPlan)
  {
    && x.project(req.index, req.item) == Ok(Ok(p.monitor))
    && |p.references| == |req.clauses| && |p.plan.obligations| == |req.clauses|
    && forall i :: 0 <= i < |req.clauses| ==> p.references[i].1 == req.clauses[i]
  }

  /** Some reference cannot be re-derived for an interruption, all before it being in order. */
  ghost predicate InterruptedAt(x: Input, req: Requirement, p: LoweredPlan, i: nat)
  {
    && i < |req.clauses| && i < |p.references|
    && DerivedUpTo(x, req, p, i) && DerivationInterrupted(x, req, p, i)
  }

  /** Verification of the plan ends in a pipeline error rather than in an answer. */
  ghost predicate VerificationInterrupted(x: Input, req: Requirement, p: LoweredPlan)
  {
    && p.requirement == req && p.contract == x.contract
    && (x.project(req.index, req.item).Err? ||
        (WellShaped(x, req, p) &&
         ((exists i: nat :: InterruptedAt(x, req, p, i)) ||
          (DerivedUpTo(x, req, p, |req.clauses|) && x.validateSources(p.plan, p.references).Err?))))
  }

  /** At a reference that is not derived nothing later is looked at. */
  lemma NotDerived(x: Input, req: Requirement, p: LoweredPlan, i: nat)
    requires p.requirement == req && p.contract == x.contract && WellShaped(x, req, p)
    requires i < |req.clauses| && DerivedUpTo(x, req, p, i) && !DerivedUpTo(x, req, p, i + 1)
    ensures !Genuine(x, req, p)
    ensures VerificationInterrupted(x, req, p) <==> DerivationInterrupted(x, req, p, i)
  {
    if DerivationInterrupted(x, req, p, i) {
      assert InterruptedAt(x, req, p, i);
    }
    if k: nat :| InterruptedAt(x, req, p, k) {
      if k < i {
        assert DerivedReference(x, req, p, k);
      } else if k > i {
        assert DerivedUpTo(x, req, p, i + 1);
      }
    }
  }

  ghost function ReferenceSet(rs: seq<(Reference, Clause)>): set<Reference>
  {
    set i | 0 <= i < |rs| :: rs[i].0
  }

  /** Verification accepts exactly the genuine plans, whoever built them. */
  method VerifyPlan(x: Input, req: Requirement, p: LoweredPlan) returns (r: Result<Result<VerifiedPlan, Failure>, PipelineError>)
    ensures (r.Ok? && r.value.Ok?) <==> Genuine(x, req, p)
    ensures r.Err? <==> VerificationInterrupted(x, req, p)
    ensures r.Ok? && r.value.Ok? ==>
              r.value.value == VerifiedPlan(req, x.contract, p.monitor, p.plan, ReferenceSet(p.references))
  {
    if p.requirement != req || p.contract != x.contract {
      return Ok(Err(VerificationFailure));
    }
    var projected := x.project(req.index, req.item);
    if projected.Err? {
      return Err(projected.error);
    }
    if projected.value.Err? {
      return Ok(Err(projected.value.error));
    }
    if projected.value.value != p.monitor {
      return Ok(Err(VerificationFailure));
    }
    var clauses := req.clauses;
    if |p.references| != |clauses| || |p.plan.obligations| != |clauses| {
      return Ok(Err(VerificationFailure));
    }
    if i :| 0 <= i < |clauses| && p.references[i].1 != clauses[i] {
      assert !DerivedReference(x, req, p, i);
      return Ok(Err(VerificationFailure));
    }
    assert WellShaped(x, req, p);
    var references: set<Reference> := {};
    for i := 0 to |clauses|
      invariant DerivedUpTo(x, req, p, i)
      invariant references == ReferenceSet(p.references[..i])
    {
      var derived := CheckReference(x, req, p, i);
      if derived.Err? || derived.value.Err? {
        NotDerived(x, req, p, i);
        return if derived.Err? then Err(derived.error) else Ok(Err(derived.value.error));
      }
      var reference := p.references[i].0;
      if reference in references {
        var j :| 0 <= j < i && p.references[..i][j].0 == reference;
        assert p.references[j].0 == p.references[i].0;
        NotDerived(x, req, p, i);
        return Ok(Err(VerificationFailure));
      }
      forall j | 0 <= j < i
        ensures p.references[j].0 != reference
      {
        assert p.references[..i][j].0 in references;
      }
      ReferenceSetPush(p.references, i);
      references := references + {reference};
    }
    assert p.references[..|clauses|] == p.references;
    AllDerived(x, req, p);
    var linked := x.validateSources(p.plan, p.references);
    if linked.Err? {
      return Err(linked.error);
    }
    if !linked.value {
      return Ok(Err(VerificationFailure));
    }
    r := Ok(Ok(VerifiedPlan(p.requirement, x.contract, p.monitor, p.plan, references)));
  }

  lemma AllDerived(x: Input, req: Requirement, p: LoweredPlan)
    requires p.requirement == req && p.contract == x.contract && WellShaped(x, req, p)
    requires DerivedUpTo(x, req, p, |req.clauses|)
    ensures Genuine(x, req, p) <==> x.validateSources(p.plan, p.references) == Ok(true)
    ensures VerificationInterrupted(x, req, p) <==> x.validateSources(p.plan, p.references).Err?
  {
    forall k: nat
      ensures !InterruptedAt(x, req, p, k)
    {
      if k < |req.clauses| {
        assert DerivedReference(x, req, p, k);
      }
    }
  }

  /** One reference is re-derived from its clause. */
  method CheckReference(x: Input, req: Requirement, p: LoweredPlan, i: nat) returns (r: Result<Result<Reference, Failure>, PipelineError>)
    requires i < |req.clauses| && i < |p.references| && p.references[i].1 == req.clauses[i]
    ensures r.Ok? && r.value.Ok? <==> DerivedReference(x, req, p, i)
    ensures r.Err? <==> DerivationInterrupted(x, req, p, i)
  {
    var reference := p.references[i].0;
    var identity := x.identity(req, p.references[i].1);
    if identity.Err? {
      return Err(identity.error);
    }
    if identity.value.Err? {
      return Ok(Err(identity.value.error));
    }
    var id := identity.value.value;
    if reference.obligation != id.id {
      return Ok(Err(VerificationFailure));
    }
    var valid := x.validateReference(id, reference);
    if valid.Err? {
      return Err(valid.error);
    }
    if !valid.value {
      return Ok(Err(VerificationFailure));
    }
    if id.id !in p.plan.componentFor || !p.plan.componentFor[id.id].TraceComponent? {
      return Ok(Err(VerificationFailure));
    }
    var component := p.plan.componentFor[id.id];
    if component.obligation.identity.inputs != id.inputs || component.obligation.monitor != p.monitor {
      return Ok(Err(VerificationFailure));
    }
    r := Ok(Ok(reference));
  }

  lemma ReferenceSetPush(rs: seq<(Reference, Clause)>, i: nat)
    requires i < |rs|
    ensures ReferenceSet(rs[..i + 1]) == ReferenceSet(rs[..i]) + {rs[i].0}
  {
    forall r
      ensures r in ReferenceSet(rs[..i + 1]) <==> r in ReferenceSet(rs[..i]) + {rs[i].0}
    {
      if r in ReferenceSet(rs[..i + 1]) {
        var j :| 0 <= j < i + 1 && rs[..i + 1][j].0 == r;
        if j < i {
          assert rs[..i][j].0 == r;
        }
      }
      if r in ReferenceSet(rs[..i]) {
        var j :| 0 <= j < i && rs[..i][j].0 == r;
        assert rs[..i + 1][j].0 == r;
      }
      assert rs[..i + 1][i].0 == rs[i].0;
    }
  }

  // ----- Lowering one requirement. -----

  /** The contracts of the external constructors. */
  ghost predicate LawfulOracles(x: Input)
  {
    && (forall identity: Identity, m: MonitorId :: x.obligation(identity, m).Ok? ==> x.obligation(identity, m).value == Obligation(identity, m))
    && (forall o: Obligation :: x.compile(o).Ok? ==> x.compile(o).value == TraceComponent(o))
    && (forall identity: Identity :: x.reference(identity).Ok? && x.reference(identity).value.Ok? ==>
          x.reference(identity).value.value.obligation == identity.id
          && x.validateReference(identity, x.reference(identity).value.value) == Ok(true))
    && (forall os: seq<Obligation>, cs: seq<Component> {:trigger x.build(os, cs)} ::
          |os| == |cs| && DistinctIds(os) && x.build(os, cs).Ok? ==> Assembled(x.build(os, cs).value, os, cs))
  }

  predicate DistinctIds(os: seq<Obligation>)
  {
    forall i, j :: 0 <= i < j < |os| ==> os[i].identity.id != os[j].identity.id
  }

  function IdsOf(os: seq<Obligation>): set<ObligationId>
  {
    set i | 0 <= i < |os| :: os[i].identity.id
  }

  /** The plan holds the given obligations and maps each one to the component at its position. */
  ghost predicate Assembled(p: Plan, os: seq<Obligation>, cs: seq<Component>)
    requires |os| == |cs|
  {
    && p.obligations == IdsOf(os)
    && forall i :: 0 <= i < |os| ==> os[i].identity.id in p.componentFor && p.componentFor[os[i].identity.id] == cs[i]
  }

  lemma {:induction false} DistinctIdCount(os: seq<Obligation>)
    requires DistinctIds(os)
    ensures |IdsOf(os)| == |os|
  {
    if os != [] {
      var rest, last := Rest(os), Top(os).identity.id;
      assert forall i :: 0 <= i < |rest| ==> rest[i] == os[i];
      DistinctIdCount(rest);
      forall id
        ensures id in IdsOf(os) <==> id in IdsOf(rest) || id == last
      {
        if id in IdsOf(os) {
          var i :| 0 <= i < |os| && os[i].identity.id == id;
          if i < |rest| {
            assert rest[i].identity.id == id;
          }
        }
        if id in IdsOf(rest) {
          var i :| 0 <= i < |rest| && rest[i].identity.id == id;
          assert os[i].identity.id == id;
        }
        assert os[|os| - 1].identity.id == last;
      }
      assert IdsOf(os) == IdsOf(rest) + {last};
      assert last !in IdsOf(rest);
    }
  }

  /** What the loop of `lower_requirement` has established after `n` clauses. */
  ghost predicate LoweredPrefix(x: Input, req: Requirement, m: MonitorId, n: nat, os: seq<Obligation>, cs: seq<Component>, rs: seq<(Reference, Clause)>)
    requires n <= |req.clauses|
  {
    && |os| == |cs| == |rs| == n
    && DistinctIds(os)
    && (forall i :: 0 <= i < n ==>
          rs[i].1 == req.clauses[i]
          && x.identity(req, req.clauses[i]) == Ok(Ok(os[i].identity)) && os[i].monitor == m && cs[i] == TraceComponent(os[i])
          && rs[i].0.obligation == os[i].identity.id && x.validateReference(os[i].identity, rs[i].0) == Ok(true))
  }

  /** What lowering one clause yields: its obligation, its component and its reference. */
  ghost predicate ClauseLowers(x: Input, req: Requirement, m: MonitorId, clause: Clause, o: Obligation, c: Component, ref: Reference)
  {
    var identity := x.identity(req, clause);
    && identity.Ok? && identity.value.Ok?
    && x.reference(identity.value.value) == Ok(Ok(ref))
    && x.obligation(identity.value.value, m) == Ok(o) && x.compile(o) == Ok(c)
  }

  /** Lowering one clause is interrupted. */
  ghost predicate ClauseInterrupted(x: Input, req: Requirement, clause: Clause)
  {
    var identity := x.identity(req, clause);
    identity.Err? || (identity.value.Ok? && x.reference(identity.value.value).Err?)
  }

  /** The first clauses lower to these, under different obligation ids. */
  ghost predicate LowersUpTo(x: Input, req: Requirement, m: MonitorId, n: nat, os: seq<Obligation>, cs: seq<Component>, rs: seq<(Reference, Clause)>)
    requires n <= |req.clauses|
  {
    && |os| == |cs| == |rs| == n && DistinctIds(os)
    && forall i :: 0 <= i < n ==> rs[i].1 == req.clauses[i] && ClauseLowers(x, req, m, req.clauses[i], os[i], cs[i], rs[i].0)
  }

  /** The requirement is within the limit, and its monitor and the layout are there. */
  ghost predicate Prepared(x: Input, req: Requirement, m: MonitorId)
  {
    |req.clauses| <= x.maxObligationsPerPlan && x.project(req.index, req.item) == Ok(Ok(m)) && x.layout.Ok?
  }

  /** The plan is what lowering the requirement yields. */
  ghost predicate LowersTo(x: Input, req: Requirement, p: LoweredPlan)
  {
    && p.requirement == req && p.contract == x.contract && Prepared(x, req, p.monitor)
    && exists os, cs :: LowersUpTo(x, req, p.monitor, |req.clauses|, os, cs, p.references) && x.build(os, cs) == Ok(p.plan)
  }

  ghost predicate LoweringStopsAt(x: Input, req: Requirement, m: MonitorId, i: nat)
  {
    && i < |req.clauses| && ClauseInterrupted(x, req, req.clauses[i])
    && exists os, cs, rs :: LowersUpTo(x, req, m, i, os, cs, rs)
  }

  /** Lowering the requirement ends in a pipeline error: too many clauses, or an interruption before any failure. */
  ghost predicate LoweringInterrupted(x: Input, req: Requirement)
  {
    || |req.clauses| > x.maxObligationsPerPlan || x.project(req.index, req.item).Err?
    || exists m, i: nat :: Prepared(x, req, m) && LoweringStopsAt(x, req, m, i)
  }

  /** What the first clauses lower to is determined. */
  lemma LowersOnce(x: Input, req: Requirement, m: MonitorId, n: nat, os: seq<Obligation>, cs: seq<Component>, rs: seq<(Reference, Clause)>,
                   k: nat, os': seq<Obligation>, cs': seq<Component>, rs': seq<(Reference, Clause)>)
    requires n <= k <= |req.clauses|
    requires LowersUpTo(x, req, m, n, os, cs, rs) && LowersUpTo(x, req, m, k, os', cs', rs')
    ensures os == os'[..n] && cs == cs'[..n] && rs == rs'[..n]
  {
    forall i | 0 <= i < n
      ensures os[i] == os'[i] && cs[i] == cs'[i] && rs[i] == rs'[i]
    {
      assert ClauseLowers(x, req, m, req.clauses[i], os[i], cs[i], rs[i].0);
      assert ClauseLowers(x, req, m, req.clauses[i], os'[i], cs'[i], rs'[i].0);
    }
  }

  /** Past a clause that does not lower, or lowers to an id already there, lowering does not go. */
  ghost predicate StuckAt(x: Input, req: Requirement, m: MonitorId, os: seq<Obligation>, i: nat)
    requires i < |req.clauses|
  {
    forall o, c, ref :: ClauseLowers(x, req, m, req.clauses[i], o, c, ref) ==> o.identity.id in IdsOf(os)
  }

  lemma NotStuck(x: Input, req: Requirement, m: MonitorId, i: nat, os: seq<Obligation>, cs: seq<Component>, rs: seq<(Reference, Clause)>,
                 k: nat, os': seq<Obligation>, cs': seq<Component>, rs': seq<(Reference, Clause)>)
    requires i < k <= |req.clauses| && LowersUpTo(x, req, m, i, os, cs, rs) && LowersUpTo(x, req, m, k, os', cs', rs')
    ensures !StuckAt(x, req, m, os, i)
  {
    LowersOnce(x, req, m, i, os, cs, rs, k, os', cs', rs');
    assert ClauseLowers(x, req, m, req.clauses[i], os'[i], cs'[i], rs'[i].0);
    assert forall j :: 0 <= j < |os| ==> os[j] == os'[j];
    assert os'[i].identity.id !in IdsOf(os);
  }

  lemma LoweredNotInterrupted(x: Input, req: Requirement, m: MonitorId, n: nat, os: seq<Obligation>, cs: seq<Component>, rs: seq<(Reference, Clause)>, k: nat)
    requires k < n <= |req.clauses| && LowersUpTo(x, req, m, n, os, cs, rs)
    ensures !ClauseInterrupted(x, req, req.clauses[k])
  {
    assert ClauseLowers(x, req, m, req.clauses[k], os[k], cs[k], rs[k].0);
  }

  lemma StuckDecides(x: Input, req: Requirement, m: MonitorId, i: nat, os: seq<Obligation>, cs: seq<Component>, rs: seq<(Reference, Clause)>)
    requires Prepared(x, req, m) && i < |req.clauses| && LowersUpTo(x, req, m, i, os, cs, rs) && StuckAt(x, req, m, os, i)
    ensures forall p :: !LowersTo(x, req, p)
    ensures LoweringInterrupted(x, req) <==> ClauseInterrupted(x, req, req.clauses[i])
  {
    forall os', cs', rs' | LowersUpTo(x, req, m, |req.clauses|, os', cs', rs')
      ensures false
    {
      NotStuck(x, req, m, i, os, cs, rs, |req.clauses|, os', cs', rs');
    }
    if ClauseInterrupted(x, req, req.clauses[i]) {
      assert LoweringStopsAt(x, req, m, i);
    }
    if m', k: nat :| Prepared(x, req, m') && LoweringStopsAt(x, req, m', k) {
      var os', cs', rs' :| LowersUpTo(x, req, m', k, os', cs', rs');
      if k < i {
        LoweredNotInterrupted(x, req, m, i, os, cs, rs, k);
      } else if k > i {
        NotStuck(x, req, m, i, os, cs, rs, k, os', cs', rs');
      }
    }
  }

  lemma AllLowered(x: Input, req: Requirement, m: MonitorId, os: seq<Obligation>, cs: seq<Component>, rs: seq<(Reference, Clause)>, p: LoweredPlan)
    requires Prepared(x, req, m) && LowersUpTo(x, req, m, |req.clauses|, os, cs, rs)
    ensures LowersTo(x, req, p) <==> x.build(os, cs).Ok? && p == LoweredPlan(req, x.contract, m, x.build(os, cs).value, rs)
    ensures !LoweringInterrupted(x, req)
  {
    if LowersTo(x, req, p) {
      var os', cs' :| LowersUpTo(x, req, p.monitor, |req.clauses|, os', cs', p.references) && x.build(os', cs') == Ok(p.plan);
      LowersOnce(x, req, m, |req.clauses|, os, cs, rs, |req.clauses|, os', cs', p.references);
      assert os'[..|req.clauses|] == os' && cs'[..|req.clauses|] == cs' && p.references[..|req.clauses|] == p.references;
    }
    forall k: nat | k < |req.clauses|
      ensures !ClauseInterrupted(x, req, req.clauses[k])
    {
      LoweredNotInterrupted(x, req, m, |req.clauses|, os, cs, rs, k);
    }
  }

  lemma LowersPrefix(x: Input, req: Requirement, m: MonitorId, n: nat, os: seq<Obligation>, cs: seq<Component>, rs: seq<(Reference, Clause)>)
    requires LawfulOracles(x) && n <= |req.clauses| && LowersUpTo(x, req, m, n, os, cs, rs)
    ensures LoweredPrefix(x, req, m, n, os, cs, rs)
  {
    forall i | 0 <= i < n
      ensures rs[i].1 == req.clauses[i]
      ensures x.identity(req, req.clauses[i]) == Ok(Ok(os[i].identity)) && os[i].monitor == m && cs[i] == TraceComponent(os[i])
      ensures rs[i].0.obligation == os[i].identity.id && x.validateReference(os[i].identity, rs[i].0) == Ok(true)
    {
      assert ClauseLowers(x, req, m, req.clauses[i], os[i], cs[i], rs[i].0);
    }
  }

  /** A requirement lowers exactly to the plan its clauses prescribe, and ends in an error exactly when interrupted. */
  method LowerRequirement(x: Input, req: Requirement) returns (r: Result<Result<LoweredPlan, Failure>, PipelineError>)
    ensures forall p :: r == Ok(Ok(p)) <==> LowersTo(x, req, p)
    ensures r.Err? <==> LoweringInterrupted(x, req)
    ensures |req.clauses| > x.maxObligationsPerPlan ==> r == Err(LimitExceeded(x.maxObligationsPerPlan))
  {
    if |req.clauses| > x.maxObligationsPerPlan {
      return Err(LimitExceeded(x.maxObligationsPerPlan));
    }
    var projected := x.project(req.index, req.item);
    if projected.Err? {
      return Err(projected.error);
    }
    if projected.value.Err? {
      return Ok(Err(projected.value.error));
    }
    var monitor := projected.value.value;
    if x.layout.Err? {
      return Ok(Err(x.layout.error));
    }
    var obligations: seq<Obligation> := [];
    var components: seq<Component> := [];
    var references: seq<(Reference, Clause)> := [];
    for i := 0 to |req.clauses|
      invariant LowersUpTo(x, req, monitor, i, obligations, components, references)
    {
      var lowered := LowerClause(x, req, monitor, req.clauses[i]);
      if lowered.Err? || lowered.value.Err? {
        StuckDecides(x, req, monitor, i, obligations, components, references);
        return if lowered.Err? then Err(lowered.error) else Ok(Err(lowered.value.error));
      }
      var (obligation, component, reference) := lowered.value.value;
      if obligation.identity.id in IdsOf(obligations) {
        StuckDecides(x, req, monitor, i, obligations, components, references);
        return Ok(Err(PlanFailure));
      }
      forall j | 0 <= j < |obligations|
        ensures obligations[j].identity.id != obligation.identity.id
      {
        assert obligations[j].identity.id in IdsOf(obligations);
      }
      obligations := obligations + [obligation];
      components := components + [component];
      references := references + [(reference, req.clauses[i])];
    }
    forall p
      ensures LowersTo(x, req, p) <==>
                x.build(obligations, components).Ok? && p == LoweredPlan(req, x.contract, monitor, x.build(obligations, components).value, references)
      ensures !LoweringInterrupted(x, req)
    {
      AllLowered(x, req, monitor, obligations, components, references, p);
    }
    var plan := x.build(obligations, components);
    if plan.Err? {
      return Ok(Err(plan.error));
    }
    r := Ok(Ok(LoweredPlan(req, x.contract, monitor, plan.value, references)));
  }

  method LowerClause(x: Input, req: Requirement, m: MonitorId, clause: Clause)
    returns (r: Result<Result<(Obligation, Component, Reference), Failure>, PipelineError>)
    ensures forall o, c, ref :: r == Ok(Ok((o, c, ref))) <==> ClauseLowers(x, req, m, clause, o, c, ref)
    ensures r.Err? <==> ClauseInterrupted(x, req, clause)
  {
    var identity := x.identity(req, clause);
    if identity.Err? {
      return Err(identity.error);
    }
    if identity.value.Err? {
      return Ok(Err(identity.value.error));
    }
    var reference := x.reference(identity.value.value);
    if reference.Err? {
      return Err(reference.error);
    }
    if reference.value.Err? {
      return Ok(Err(reference.value.error));
    }
    var obligation := x.obligation(identity.value.value, m);
    if obligation.Err? {
      return Ok(Err(obligation.error));
    }
    var component := x.compile(obligation.value);
    if component.Err? {
      return Ok(Err(component.error));
    }
    r := Ok(Ok((obligation.value, component.value, reference.value.value)));
  }

  /** A lowered plan is accepted by verification as soon as its source links are. */
  lemma LoweredVerifies(x: Input, req: Requirement, p: LoweredPlan)
    requires LawfulOracles(x) && LowersTo(x, req, p)
    ensures Genuine(x, req, p) <==> x.validateSources(p.plan, p.references) == Ok(true)
    ensures VerificationInterrupted(x, req, p) <==> x.validateSources(p.plan, p.references).Err?
  {
    var os, cs :| LowersUpTo(x, req, p.monitor, |req.clauses|, os, cs, p.references) && x.build(os, cs) == Ok(p.plan);
    LowersPrefix(x, req, p.monitor, |req.clauses|, os, cs, p.references);
    LoweredIsDerived(x, req, p.monitor, os, cs, p);
    AllDerived(x, req, p);
  }

  lemma LoweredIsDerived(x: Input, req: Requirement, m: MonitorId, os: seq<Obligation>, cs: seq<Component>, p: LoweredPlan)
    requires LawfulOracles(x)
    requires LoweredPrefix(x, req, m, |req.clauses|, os, cs, p.references)
    requires x.build(os, cs) == Ok(p.plan) && x.project(req.index, req.item) == Ok(Ok(m))
    requires p.requirement == req && p.contract == x.contract && p.monitor == m
    ensures WellShaped(x, req, p) && DerivedUpTo(x, req, p, |req.clauses|)
  {
    assert Assembled(p.plan, os, cs);
    DistinctIdCount(os);
    forall i | 0 <= i < |req.clauses|
      ensures DerivedReference(x, req, p, i)
    {
    }
    forall i, j | 0 <= i < j < |p.references|
      ensures p.references[i].0 != p.references[j].0
    {
      assert os[i].identity.id != os[j].identity.id;
    }
  }

  // ----- Lowering every eligible conformance. -----

  /** How many obligations the conformance asks for. */
  function Demand(x: Input, index: nat, item: nat): nat
  {
    var e := Classify(x, index, item);
    if e.Ok? && e.value.NeedsConcrete? then |e.value.requirement.clauses| else 0
  }

  function ClauseTotal(x: Input, cs: seq<(nat, nat)>): nat
  {
    if cs == [] then 0 else ClauseTotal(x, Rest(cs)) + Demand(x, Top(cs).0, Top(cs).1)
  }

  lemma ClauseTotalPush(x: Input, cs: seq<(nat, nat)>, i: nat)
    requires i < |cs|
    ensures ClauseTotal(x, cs[..i + 1]) == ClauseTotal(x, cs[..i]) + Demand(x, cs[i].0, cs[i].1)
  {
    assert Rest(cs[..i + 1]) == cs[..i] && Top(cs[..i + 1]) == cs[i];
  }

  /** The recorded results belong to exactly the given conformances. */
  ghost predicate LoweredFor(x: Input, cs: seq<(nat, nat)>, out: Plans)
  {
    && (forall k :: k in out.eligibility <==> Indexed(cs, k))
    && (forall i :: 0 <= i < |cs| ==> LoweredAt(x, cs[i].0, cs[i].1, out))
    && (forall k :: k in out.lowered ==> k in out.eligibility)
  }

  /** The conformance is classified, and has an entry exactly when it needs one: the plan its requirement lowers to. */
  ghost predicate LoweredAt(x: Input, index: nat, item: nat, out: Plans)
  {
    && index in out.eligibility && Classify(x, index, item) == Ok(out.eligibility[index])
    && (index in out.lowered <==> out.eligibility[index].NeedsConcrete?)
    && (index in out.lowered ==> LoweredEntry(x, out.eligibility[index].requirement, out.lowered[index]))
  }

  ghost predicate LoweredEntry(x: Input, req: Requirement, entry: Result<LoweredPlan, Failure>)
  {
    !LoweringInterrupted(x, req) && forall p :: entry == Ok(p) <==> LowersTo(x, req, p)
  }

  /** The conformance can be classified, and lowering what it requires is not interrupted. */
  ghost predicate Uninterrupted(x: Input, index: nat, item: nat)
  {
    var e := Classify(x, index, item);
    e.Ok? && (e.value.NeedsConcrete? ==> !LoweringInterrupted(x, e.value.requirement))
  }

  ghost predicate AllUninterrupted(x: Input, cs: seq<(nat, nat)>)
  {
    forall i :: 0 <= i < |cs| ==> Uninterrupted(x, cs[i].0, cs[i].1)
  }

  /** Lowering succeeds exactly when nothing is interrupted and the clauses stay within the global budget. */
  ghost predicate Lowerable(x: Input)
  {
    Listed(x) && AllUninterrupted(x, Conformances(x).value) && ClauseTotal(x, Conformances(x).value) <= x.maxTotalObligations
  }

  /** Every conformance is classified and lowered in place, or nothing is. */
  method LowerResidualMonitorPlans(x: Input) returns (r: Result<Plans, PipelineError>)
    requires WellFormed(x)
    ensures r.Ok? <==> Lowerable(x)
    ensures r.Ok? ==> LoweredFor(x, Conformances(x).value, r.value)
  {
    var conformances := Conformances(x);
    if conformances.Err? {
      return Err(conformances.error);
    }
    var cs := conformances.value;
    var out := Plans(map[], map[]);
    var remaining: nat := x.maxTotalObligations;
    for i := 0 to |cs|
      invariant remaining + ClauseTotal(x, cs[..i]) == x.maxTotalObligations
      invariant LoweredFor(x, cs[..i], out)
      invariant AllUninterrupted(x, cs[..i])
    {
      var (index, item) := cs[i];
      ClauseTotalPush(x, cs, i);
      ClauseTotalGrows(x, cs, i + 1);
      var lowered := LowerOne(x, index, item, remaining);
      if lowered.Err? {
        return Err(lowered.error);
      }
      var (e, entry) := lowered.value;
      FreshIndex(x, cs, i, out);
      LoweredForStep(x, cs, i, out, e, entry);
      UninterruptedPush(x, cs, i);
      remaining := remaining - Demand(x, index, item);
      out := Recorded(out, index, e, entry);
    }
    assert cs[..|cs|] == cs;
    r := Ok(out);
  }

  /** One round of the lowering loop. */
  method LowerOne(x: Input, index: nat, item: nat, remaining: nat)
    returns (r: Result<(Eligibility, Option<Result<LoweredPlan, Failure>>), PipelineError>)
    ensures r.Ok? <==> Uninterrupted(x, index, item) && Demand(x, index, item) <= remaining
    ensures r.Ok? ==> Classify(x, index, item) == Ok(r.value.0) && (r.value.1.Some? <==> r.value.0.NeedsConcrete?)
    ensures r.Ok? && r.value.1.Some? ==> LoweredEntry(x, r.value.0.requirement, r.value.1.value)
  {
    var e := Classify(x, index, item);
    if e.Err? {
      return Err(e.error);
    }
    if !e.value.NeedsConcrete? {
      return Ok((e.value, None));
    }
    if remaining < |e.value.requirement.clauses| {
      return Err(LimitExceeded(x.maxTotalObligations));
    }
    var lowered := LowerRequirement(x, e.value.requirement);
    if lowered.Err? {
      return Err(lowered.error);
    }
    r := Ok((e.value, Some(lowered.value)));
  }

  function Recorded(out: Plans, index: nat, e: Eligibility, entry: Option<Result<LoweredPlan, Failure>>): Plans
  {
    Plans(out.eligibility[index := e], if entry.Some? then out.lowered[index := entry.value] else out.lowered)
  }

  lemma {:induction false} ClauseTotalGrows(x: Input, cs: seq<(nat, nat)>, i: nat)
    requires i <= |cs|
    ensures ClauseTotal(x, cs[..i]) <= ClauseTotal(x, cs)
    decreases |cs| - i
  {
    if i < |cs| {
      ClauseTotalPush(x, cs, i);
      ClauseTotalGrows(x, cs, i + 1);
    } else {
      assert cs[..i] == cs;
    }
  }

  lemma UninterruptedPush(x: Input, cs: seq<(nat, nat)>, i: nat)
    requires i < |cs| && AllUninterrupted(x, cs[..i]) && Uninterrupted(x, cs[i].0, cs[i].1)
    ensures AllUninterrupted(x, cs[..i + 1])
  {
    var done, now := cs[..i], cs[..i + 1];
    forall j | 0 <= j < |now|
      ensures Uninterrupted(x, now[j].0, now[j].1)
    {
      if j < i {
        assert done[j] == now[j];
      }
    }
  }

  lemma FreshIndex(x: Input, cs: seq<(nat, nat)>, i: nat, out: Plans)
    requires WellFormed(x) && Listed(x) && cs == Conformances(x).value && i < |cs| && LoweredFor(x, cs[..i], out)
    ensures cs[i].0 !in out.eligibility && cs[i].0 !in out.lowered
    ensures forall j :: 0 <= j < i ==> cs[j].0 != cs[i].0
  {
    forall j | 0 <= j < i
      ensures cs[j].0 != cs[i].0
    {
      assert x.indices[j] < x.indices[i];
    }
    assert forall j :: 0 <= j < i ==> cs[..i][j] == cs[j];
  }

  lemma LoweredForStep(x: Input, cs: seq<(nat, nat)>, i: nat, before: Plans, e: Eligibility, entry: Option<Result<LoweredPlan, Failure>>)
    requires i < |cs| && LoweredFor(x, cs[..i], before)
    requires cs[i].0 !in before.eligibility && forall j :: 0 <= j < i ==> cs[j].0 != cs[i].0
    requires Classify(x, cs[i].0, cs[i].1) == Ok(e)
    requires (entry.Some? <==> e.NeedsConcrete?) && (entry.Some? ==> LoweredEntry(x, e.requirement, entry.value))
    ensures LoweredFor(x, cs[..i + 1], Recorded(before, cs[i].0, e, entry))
  {
    var after := Recorded(before, cs[i].0, e, entry);
    var old', new' := cs[..i], cs[..i + 1];
    forall k
      ensures k in after.eligibility <==> Indexed(new', k)
    {
      IndexedPush(cs, i, k);
    }
    forall j | 0 <= j < |new'|
      ensures LoweredAt(x, new'[j].0, new'[j].1, after)
    {
      assert new'[j] == cs[j];
      if j < i {
        assert old'[j] == cs[j] && cs[j].0 != cs[i].0;
        assert LoweredAt(x, old'[j].0, old'[j].1, before);
      }
    }
  }

  predicate Indexed(cs: seq<(nat, nat)>, k: nat)
  {
    exists j :: 0 <= j < |cs| && cs[j].0 == k
  }

  lemma IndexedPush(cs: seq<(nat, nat)>, i: nat, k: nat)
    requires i < |cs|
    ensures Indexed(cs[..i + 1], k) <==> Indexed(cs[..i], k) || cs[i].0 == k
  {
    var old', new' := cs[..i], cs[..i + 1];
    if j :| 0 <= j < |old'| && old'[j].0 == k {
      assert new'[j].0 == k;
    }
    if j :| 0 <= j < |new'| && new'[j].0 == k {
      assert j < i ==> old'[j].0 == k;
    }
    assert new'[i] == cs[i];
  }

  // ----- Verifying a whole lowering. -----

  function EntryOf(given: Plans, index: nat): Option<Result<LoweredPlan, Failure>>
  {
    if index in given.lowered then Some(given.lowered[index]) else None
  }

  /** The record is classified as recomputed, has an entry exactly when it needs one, and its check is not interrupted. */
  ghost predicate EntryAccepted(x: Input, index: nat, item: nat, recorded: Eligibility, entry: Option<Result<LoweredPlan, Failure>>)
  {
    && Classify(x, index, item) == Ok(recorded)
    && (entry.Some? <==> recorded.NeedsConcrete?)
    && (entry.Some? && entry.value.Ok? ==> !VerificationInterrupted(x, recorded.requirement, entry.value.value))
  }

  /**
   * The conformance ends as exactly one of plan, failure or not eligible: as a plan exactly when its entry
   * is a genuine one, whoever made it, and otherwise with the failure of its lowering or of its check.
   */
  ghost predicate Outcome(x: Input, index: nat, recorded: Eligibility, entry: Option<Result<LoweredPlan, Failure>>, v: Verified)
  {
    && index in v.eligibility && v.eligibility[index] == recorded
    && (index in v.plans <==> recorded.NeedsConcrete? && entry.Some? && entry.value.Ok? && Genuine(x, recorded.requirement, entry.value.value))
    && (index in v.plans ==>
          var p := entry.value.value;
          v.plans[index] == VerifiedPlan(p.requirement, p.contract, p.monitor, p.plan, ReferenceSet(p.references)))
    && (index in v.failures <==> recorded.NeedsConcrete? && index !in v.plans)
    && (index in v.failures && entry.Some? && entry.value.Err? ==> v.failures[index] == entry.value.error)
  }

  /** `out` belongs to the classified conformances and is internally consistent. */
  predicate Shaped(x: Input, out: Plans)
  {
    && Listed(x) && |out.eligibility| == |x.indices|
    && (forall i :: i in x.indices ==> i in out.eligibility)
    && (forall k :: k in out.lowered ==> k in out.eligibility)
  }

  ghost predicate AcceptedAt(x: Input, index: nat, item: nat, given: Plans)
  {
    index in given.eligibility && EntryAccepted(x, index, item, given.eligibility[index], EntryOf(given, index))
  }

  ghost predicate AllAccepted(x: Input, cs: seq<(nat, nat)>, given: Plans)
  {
    forall i :: 0 <= i < |cs| ==> AcceptedAt(x, cs[i].0, cs[i].1, given)
  }

  ghost predicate OutcomeAt(x: Input, index: nat, given: Plans, v: Verified)
  {
    index in given.eligibility && Outcome(x, index, given.eligibility[index], EntryOf(given, index), v)
  }

  ghost predicate OutcomesFor(x: Input, cs: seq<(nat, nat)>, given: Plans, v: Verified)
  {
    && (forall i :: 0 <= i < |cs| ==> OutcomeAt(x, cs[i].0, given, v))
    && (forall k :: k in v.eligibility || k in v.plans || k in v.failures ==> Indexed(cs, k))
  }

  /** `after` differs from `before` at most at `key`. */
  ghost predicate OnlyChanges(before: Verified, after: Verified, key: nat)
  {
    && after.eligibility - {key} == before.eligibility - {key}
    && after.plans - {key} == before.plans - {key}
    && after.failures - {key} == before.failures - {key}
  }

  /** One round of the verification loop. */
  method VerifyOne(x: Input, index: nat, item: nat, recorded: Eligibility, entry: Option<Result<LoweredPlan, Failure>>, out: Verified)
    returns (r: Result<Verified, PipelineError>)
    requires index !in out.eligibility && index !in out.plans && index !in out.failures
    ensures r.Ok? <==> EntryAccepted(x, index, item, recorded, entry)
    ensures r.Ok? ==> Outcome(x, index, recorded, entry, r.value) && OnlyChanges(out, r.value, index)
  {
    var actual := Classify(x, index, item);
    if actual.Err? {
      return Err(actual.error);
    }
    if recorded != actual.value {
      return Err(InvalidSourceSites);
    }
    var next := out.(eligibility := out.eligibility[index := actual.value]);
    if !actual.value.NeedsConcrete? {
      if entry.Some? {
        return Err(InvalidSourceSites);
      }
      return Ok(next);
    }
    if entry.None? {
      return Err(InvalidSourceSites);
    }
    if entry.value.Err? {
      return Ok(next.(failures := next.failures[index := entry.value.error]));
    }
    var verified := VerifyPlan(x, actual.value.requirement, entry.value.value);
    if verified.Err? {
      return Err(verified.error);
    }
    if verified.value.Err? {
      return Ok(next.(failures := next.failures[index := verified.value.error]));
    }
    r := Ok(next.(plans := next.plans[index := verified.value.value]));
  }

  /** A lowering, even a forged one, is accepted exactly when every record is; then each conformance has its outcome. */
  method VerifyResidualPlans(x: Input, given: Plans) returns (r: Result<Verified, PipelineError>)
    requires WellFormed(x)
    ensures r.Ok? <==> Shaped(x, given) && AllAccepted(x, Conformances(x).value, given)
    ensures r.Ok? ==> OutcomesFor(x, Conformances(x).value, given, r.value)
  {
    var conformances := Conformances(x);
    if conformances.Err? {
      return Err(conformances.error);
    }
    var cs := conformances.value;
    ShapedByPositions(x, cs, given);
    if |cs| != |given.eligibility|
       || (exists i :: 0 <= i < |cs| && cs[i].0 !in given.eligibility)
       || (exists k :: k in given.lowered && k !in given.eligibility) {
      return Err(InvalidSourceSites);
    }
    DistinctIndices(x, cs);
    var lowered := given.lowered;
    var out := Verified(map[], map[], map[]);
    for n := 0 to |cs|
      invariant OutcomesFor(x, cs[..n], given, out)
      invariant Undrained(cs, n, lowered, given.lowered)
      invariant AllAccepted(x, cs[..n], given)
    {
      var (index, item) := cs[n];
      FreshOutcome(x, cs, n, given, out);
      var entry := if index in lowered then Some(lowered[index]) else None;
      assert entry == EntryOf(given, index);
      Drain(cs, n, lowered, given.lowered);
      lowered := lowered - {index};
      var next := VerifyOne(x, index, item, given.eligibility[index], entry, out);
      if next.Err? {
        assert !AcceptedAt(x, cs[n].0, cs[n].1, given);
        return Err(next.error);
      }
      OutcomesStep(x, cs, n, given, out, next.value);
      AcceptedStep(x, cs, n, given);
      out := next.value;
    }
    assert cs[..|cs|] == cs;
    r := Ok(out);
  }

  lemma IndexMembers(x: Input, cs: seq<(nat, nat)>)
    requires Listed(x) && cs == Conformances(x).value
    ensures forall k :: k in x.indices <==> Indexed(cs, k)
  {
    forall k
      ensures k in x.indices <==> Indexed(cs, k)
    {
      if k in x.indices {
        var j :| 0 <= j < |x.indices| && x.indices[j] == k;
        assert cs[j].0 == k;
      }
      if j :| 0 <= j < |cs| && cs[j].0 == k {
        assert x.indices[j] == k;
      }
    }
  }

  lemma ShapedByPositions(x: Input, cs: seq<(nat, nat)>, given: Plans)
    requires Listed(x) && cs == Conformances(x).value
    ensures Shaped(x, given) <==>
              && |cs| == |given.eligibility|
              && (forall i :: 0 <= i < |cs| ==> cs[i].0 in given.eligibility)
              && (forall k :: k in given.lowered ==> k in given.eligibility)
  {
    IndexMembers(x, cs);
    forall i | 0 <= i < |cs|
      ensures cs[i].0 in x.indices
    {
      assert Indexed(cs, cs[i].0);
    }
  }

  lemma AcceptedStep(x: Input, cs: seq<(nat, nat)>, n: nat, given: Plans)
    requires n < |cs| && AllAccepted(x, cs[..n], given) && AcceptedAt(x, cs[n].0, cs[n].1, given)
    ensures AllAccepted(x, cs[..n + 1], given)
  {
    var done, now := cs[..n], cs[..n + 1];
    forall i | 0 <= i < |now|
      ensures AcceptedAt(x, now[i].0, now[i].1, given)
    {
      if i < n {
        assert done[i] == now[i];
      }
    }
  }

  /** The lowered entries of the conformances from `n` on are still there. */
  predicate Undrained(cs: seq<(nat, nat)>, n: nat, left: map<nat, Result<LoweredPlan, Failure>>, all: map<nat, Result<LoweredPlan, Failure>>)
    requires n <= |cs|
  {
    forall i :: n <= i < |cs| ==> (cs[i].0 in left <==> cs[i].0 in all) && (cs[i].0 in left ==> left[cs[i].0] == all[cs[i].0])
  }

  lemma Drain(cs: seq<(nat, nat)>, n: nat, left: map<nat, Result<LoweredPlan, Failure>>, all: map<nat, Result<LoweredPlan, Failure>>)
    requires n < |cs| && Undrained(cs, n, left, all) && forall i, j :: 0 <= i < j < |cs| ==> cs[i].0 != cs[j].0
    ensures Undrained(cs, n + 1, left - {cs[n].0}, all)
  {
  }

  lemma DistinctIndices(x: Input, cs: seq<(nat, nat)>)
    requires WellFormed(x) && Listed(x) && cs == Conformances(x).value
    ensures forall i, j :: 0 <= i < j < |cs| ==> cs[i].0 != cs[j].0
  {
    forall i, j | 0 <= i < j < |cs|
      ensures cs[i].0 != cs[j].0
    {
      assert x.indices[i] < x.indices[j];
    }
  }

  lemma FreshOutcome(x: Input, cs: seq<(nat, nat)>, n: nat, given: Plans, v: Verified)
    requires n < |cs| && OutcomesFor(x, cs[..n], given, v)
    requires forall i, j :: 0 <= i < j < |cs| ==> cs[i].0 != cs[j].0
    ensures cs[n].0 !in v.eligibility && cs[n].0 !in v.plans && cs[n].0 !in v.failures
  {
    assert forall j :: 0 <= j < n ==> cs[..n][j] == cs[j];
  }

  lemma OutcomesStep(x: Input, cs: seq<(nat, nat)>, n: nat, given: Plans, before: Verified, after: Verified)
    requires n < |cs| && OutcomesFor(x, cs[..n], given, before)
    requires forall i, j :: 0 <= i < j < |cs| ==> cs[i].0 != cs[j].0
    requires OutcomeAt(x, cs[n].0, given, after) && OnlyChanges(before, after, cs[n].0)
    ensures OutcomesFor(x, cs[..n + 1], given, after)
  {
    var key, done, now := cs[n].0, cs[..n], cs[..n + 1];
    forall i | 0 <= i < |now|
      ensures OutcomeAt(x, now[i].0, given, after)
    {
      if i < n {
        assert done[i] == now[i] == cs[i];
        OutcomeKept(x, cs[i].0, given, before, after, key);
      }
    }
    forall k | k in after.eligibility || k in after.plans || k in after.failures
      ensures Indexed(now, k)
    {
      IndexedPush(cs, n, k);
      if k != key {
        SameEntry(before.eligibility, after.eligibility, key, k);
        SameEntry(before.plans, after.plans, key, k);
        SameEntry(before.failures, after.failures, key, k);
      }
    }
  }

  lemma OutcomeKept(x: Input, index: nat, given: Plans, before: Verified, after: Verified, key: nat)
    requires OutcomeAt(x, index, given, before) && OnlyChanges(before, after, key) && index != key
    ensures OutcomeAt(x, index, given, after)
  {
    SameEntry(before.eligibility, after.eligibility, key, index);
    SameEntry(before.plans, after.plans, key, index);
    SameEntry(before.failures, after.failures, key, index);
  }

  lemma SameEntry<V>(a: map<nat, V>, b: map<nat, V>, removed: nat, k: nat)
    requires a - {removed} == b - {removed} && k != removed
    ensures (k in a <==> k in b) && (k in a ==> a[k] == b[k])
  {
    assert k in a <==> k in a - {removed};
    assert k in b <==> k in b - {removed};
    if k in a {
      assert a[k] == (a - {removed})[k];
    }
  }

  // ----- Lowering, then verifying. -----

  /** What lowering records has the shape verification demands. */
  lemma LoweredIsShaped(x: Input, out: Plans)
    requires WellFormed(x) && Listed(x) && LoweredFor(x, Conformances(x).value, out)
    ensures Shaped(x, out)
  {
    var cs := Conformances(x).value;
    IndexMembers(x, cs);
    assert forall k :: k in out.eligibility.Keys <==> k in x.indices;
    KeyCount(x.indices, out.eligibility.Keys);
  }

  /** The source links of the plan recorded for the index are checked without interruption. */
  predicate LinksChecked(x: Input, out: Plans, index: nat)
  {
    index in out.lowered && out.lowered[index].Ok? ==>
      x.validateSources(out.lowered[index].value.plan, out.lowered[index].value.references).Ok?
  }

  predicate LinksAccepted(x: Input, out: Plans, index: nat)
  {
    && index in out.lowered && out.lowered[index].Ok?
    && x.validateSources(out.lowered[index].value.plan, out.lowered[index].value.references) == Ok(true)
  }

  lemma LoweredIsAccepted(x: Input, index: nat, item: nat, out: Plans)
    requires LawfulOracles(x) && LoweredAt(x, index, item, out)
    ensures AcceptedAt(x, index, item, out) <==> LinksChecked(x, out, index)
    ensures index in out.lowered && out.lowered[index].Ok? ==>
              (Genuine(x, out.eligibility[index].requirement, out.lowered[index].value) <==> LinksAccepted(x, out, index))
  {
    if index in out.lowered && out.lowered[index].Ok? {
      var req, p := out.eligibility[index].requirement, out.lowered[index].value;
      assert LoweredEntry(x, req, out.lowered[index]);
      assert LowersTo(x, req, p);
      LoweredVerifies(x, req, p);
    }
  }

  /**
   * What lowering records is accepted exactly when the source links of its plans can be checked, and then
   * exactly the plans with accepted links are kept.
   */
  lemma LoweredIsHonest(x: Input, out: Plans)
    requires WellFormed(x) && Listed(x) && LawfulOracles(x) && LoweredFor(x, Conformances(x).value, out)
    ensures Shaped(x, out)
    ensures AllAccepted(x, Conformances(x).value, out) <==> forall i :: i in x.indices ==> LinksChecked(x, out, i)
    ensures forall v, i :: i in x.indices && OutcomesFor(x, Conformances(x).value, out, v) ==> (i in v.plans <==> LinksAccepted(x, out, i))
  {
    var cs := Conformances(x).value;
    LoweredIsShaped(x, out);
    IndexMembers(x, cs);
    forall j | 0 <= j < |cs|
      ensures AcceptedAt(x, cs[j].0, cs[j].1, out) <==> LinksChecked(x, out, cs[j].0)
    {
      LoweredIsAccepted(x, cs[j].0, cs[j].1, out);
    }
    forall v, i | i in x.indices && OutcomesFor(x, cs, out, v)
      ensures i in v.plans <==> LinksAccepted(x, out, i)
    {
      var j :| 0 <= j < |cs| && cs[j].0 == i;
      LoweredIsAccepted(x, cs[j].0, cs[j].1, out);
      assert OutcomeAt(x, cs[j].0, out, v);
    }
  }

  lemma {:induction false} KeyCount(indices: seq<nat>, keys: set<nat>)
    requires forall i, j :: 0 <= i < j < |indices| ==> indices[i] < indices[j]
    ensures (forall k :: k in keys <==> k in indices) ==> |keys| == |indices|
  {
    if forall k :: k in keys <==> k in indices {
      if indices == [] {
        assert keys == {};
      } else {
        var rest := Rest(indices);
        var last := Top(indices);
        forall i | 0 <= i < |rest|
          ensures rest[i] != last
        {
          assert indices[i] < indices[|indices| - 1];
        }
        assert forall k :: k in indices <==> k in rest || k == last;
        KeyCount(rest, keys - {last});
      }
    }
  }

  /**
   * Lowering then verifying: under lawful constructors only checking the source links can still interrupt,
   * and a conformance keeps a plan exactly when its requirement lowers to one whose links are accepted.
   */
  method LowerThenVerify(x: Input) returns (lowered: Result<Plans, PipelineError>, verified: Result<Verified, PipelineError>)
    requires WellFormed(x)
    ensures lowered.Ok? <==> Lowerable(x)
    ensures lowered.Err? ==> verified == Err(lowered.error)
    ensures lowered.Ok? && LawfulOracles(x) ==>
              (verified.Ok? <==> forall i :: i in x.indices ==> LinksChecked(x, lowered.value, i))
    ensures lowered.Ok? && LawfulOracles(x) && verified.Ok? ==>
              && LoweredFor(x, Conformances(x).value, lowered.value)
              && OutcomesFor(x, Conformances(x).value, lowered.value, verified.value)
              && forall i :: i in x.indices ==> (i in verified.value.plans <==> LinksAccepted(x, lowered.value, i))
  {
    lowered := LowerResidualMonitorPlans(x);
    if lowered.Err? {
      return lowered, Err(lowered.error);
    }
    verified := VerifyResidualPlans(x, lowered.value);
    if LawfulOracles(x) {
      LoweredIsHonest(x, lowered.value);
    }
  }
}
