/** The mutable effect summary (infer/domain.rs, infer/default_handlers.rs). */
module SummaryState {
  import opened Prelude
  import opened Effects
  import opened Traces
  import opened Words
  import opened SortedLists
  import opened TraceOps
  import opened Coverage
  import opened SummaryValues
  import opened Exits
  import opened SummaryFacts

  class EffectSummary {
    const keys: SortKeys
    const rank: Effect -> Rank
    const ranks: Ranks
    var requests: Requests
    var defaults: Option<DefaultEffects>
    var escaping: EffectRow
    var requested: EffectRow
    var defaultActions: EffectRow
    var handled: EffectRow
    var trace: Trace
    var exits: Option<ExitSummary>
    var checks: set<ResidualRef>
    var obligations: set<Requirement>
    var requirements: set<Requirement>
    var determinism: Determinism
    var independent: Option<Determinism>
    var support: Support

    /** The whole summary as a value. */
    function Whole(): FullSummary
      reads this
    {
      FullSummary(State(), exits, checks, obligations, requirements, determinism, independent, support)
    }

    /** Its effects as a value. */
    function State(): Summary
      reads this
    {
      Summary(requests, defaults, escaping, requested, defaultActions, handled, trace)
    }

    /** The derived escaping row is up to date and the exits are in order. */
    ghost predicate Valid()
      reads this
    {
      Balanced(State()) && OrderedExits(exits, ranks) && InjectiveRanks(ranks)
    }

    constructor Local(keys: SortKeys, rank: Effect -> Rank, ranks: Ranks)
      requires InjectiveRanks(ranks)
      ensures Valid() && Whole() == LocalFull
      ensures this.keys == keys && this.rank == rank && this.ranks == ranks
    {
      this.keys, this.rank, this.ranks := keys, rank, ranks;
      requests, defaults, escaping := Available({}, {}), None, EmptyRow;
      requested, defaultActions, handled, trace := EmptyRow, EmptyRow, EmptyRow, Empty;
      exits, checks, obligations, requirements := None, {}, {}, {};
      determinism, independent, support := Deterministic, Some(Deterministic), LocalOnly;
    }

    method RefreshEscapingEffects()
      modifies this`escaping
      ensures State() == if old(defaults).Some? then WithDefaults(old(State()), old(defaults).value) else old(State())
      ensures Balanced(State())
    {
      if defaults.Some? {
        var row := defaults.value.direct;
        var hs := defaults.value.handlers;
        assert hs[0..] == hs;
        for i := 0 to |hs|
          invariant JoinProduced(row, hs[i..]) == JoinProduced(defaults.value.direct, hs)
        {
          assert hs[i..][1..] == hs[i + 1..];
          row := RowUnion(row, hs[i].produced);
        }
        escaping := row;
      }
    }

    method RecordEscapingEffectRow(row: EffectRow)
      requires Valid()
      modifies this`escaping, this`defaults
      ensures Valid() && State() == RecordEscaping(old(State()), row)
    {
      if defaults.Some? {
        var d := defaults.value;
        defaults := Some(d.(direct := RowUnion(d.direct, row)));
        RefreshEscapingEffects();
      } else {
        escaping := RowUnion(escaping, row);
      }
    }

    method RecordDefaultHandlerEffects(action: Effect, produced: EffectRow) returns (r: Result<(), ()>)
      requires Valid()
      modifies this`escaping, this`defaults
      ensures Valid() && (r.Ok? <==> IsAction(action))
      ensures State() == if IsAction(action) then RecordDefault(old(State()), action, produced, rank) else old(State())
    {
      if !IsAction(action) {
        return Err(());
      }
      var d := if defaults.Some? then defaults.value else DefaultEffects(escaping, []);
      var handlers, _ := UnionHandlerByScan(d.handlers, action, produced, rank);
      defaults := Some(d.(handlers := handlers));
      RefreshEscapingEffects();
      r := Ok(());
    }

    /** The reported change is exact. */
    method JoinEscapingEffects(other: Summary) returns (changed: bool)
      requires Valid()
      modifies this`escaping, this`defaults
      ensures Valid() && State() == JoinEscaping(old(State()), other, rank)
      ensures changed <==> State() != old(State())
    {
      if defaults.None? && other.defaults.None? {
        changed := RowGrows(escaping, other.escaping);
        RowGrowsExactly(escaping, other.escaping);
        escaping := RowUnion(escaping, other.escaping);
        return;
      }
      changed := defaults.None?;
      var d := if defaults.Some? then defaults.value else DefaultEffects(escaping, []);
      changed := changed || RowGrows(d.direct, DirectEscaping(other));
      RowGrowsExactly(d.direct, DirectEscaping(other));
      var handlers := d.handlers;
      if other.defaults.Some? {
        var added := other.defaults.value.handlers;
        assert added[0..] == added;
        for i := 0 to |added|
          invariant UnionHandlers(handlers, added[i..], rank) == UnionHandlers(d.handlers, added, rank)
          invariant HandlerWeight(handlers) >= HandlerWeight(d.handlers)
          invariant changed <==> old(defaults).None? || RowUnion(d.direct, DirectEscaping(other)) != d.direct || handlers != d.handlers
          invariant handlers != d.handlers ==> HandlerWeight(handlers) > HandlerWeight(d.handlers)
        {
          assert added[i..][1..] == added[i + 1..];
          UnionWeight(handlers, added[i].action, added[i].produced, rank);
          var next, grew := UnionHandlerByScan(handlers, added[i].action, added[i].produced, rank);
          handlers := next;
          changed := changed || grew;
        }
      }
      defaults := Some(DefaultEffects(RowUnion(d.direct, DirectEscaping(other)), handlers));
      RefreshEscapingEffects();
    }

    method SubtractHandledEffects(r: Registry, row: EffectRow)
      requires Valid()
      modifies this`requests, this`escaping, this`defaults
      ensures Valid() && State() == Subtract(r, old(State()), row)
    {
      requests := SubtractRequests(r, requests, row);
      if defaults.None? {
        escaping := SubtractHandled(r, escaping, row);
        return;
      }
      var direct := SubtractHandled(r, defaults.value.direct, row);
      var hs := defaults.value.handlers;
      var kept: seq<DefaultHandler> := [];
      assert hs[0..] == hs;
      assert [] + FilterHandlers(r, hs, row) == FilterHandlers(r, hs, row);
      for i := 0 to |hs|
        invariant kept + FilterHandlers(r, hs[i..], row) == FilterHandlers(r, hs, row)
      {
        assert hs[i..][1..] == hs[i + 1..];
        if SubtractHandled(r, Closed({hs[i].action}), row) != EmptyRow {
          assert hs[i].action in SubtractHandled(r, Closed({hs[i].action}), row).effects;
          kept := kept + [hs[i].(produced := SubtractHandled(r, hs[i].produced, row))];
        } else {
          assert hs[i].action !in SubtractHandled(r, Closed({hs[i].action}), row).effects;
        }
      }
      assert kept + [] == kept;
      if kept == [] {
        escaping := direct;
        defaults := None;
      } else {
        defaults := Some(DefaultEffects(direct, kept));
        RefreshEscapingEffects();
      }
    }

    method RemoveEscapingEffect(e: Effect)
      requires Valid()
      modifies this`escaping, this`defaults
      ensures Valid() && State() == RemoveEscaping(old(State()), e)
    {
      if defaults.None? {
        escaping := RemoveFromRow(escaping, e);
        return;
      }
      var left := RemoveFromEach(defaults.value.handlers, e);
      defaults := Some(DefaultEffects(RemoveFromRow(defaults.value.direct, e), left));
      RefreshEscapingEffects();
    }

    /** The union of the request evidence and of the three action rows. */
    method JoinRequestRows(other: Summary) returns (changed: bool)
      modifies this`requests, this`requested, this`defaultActions, this`handled
      ensures State() == JoinRows(old(State()), other)
      ensures changed <==> State() != old(State())
    {
      RowGrowsExactly(requested, other.requested);
      RowGrowsExactly(defaultActions, other.defaultActions);
      RowGrowsExactly(handled, other.handled);
      changed := RowGrows(requested, other.requested) || RowGrows(defaultActions, other.defaultActions) || RowGrows(handled, other.handled);
      if requests.Available? && other.requests.Available? {
        GrowCount(requests.actions, other.requests.actions);
        GrowCount(requests.parameters, other.requests.parameters);
        changed := changed || |requests.actions + other.requests.actions| != |requests.actions|
                   || |requests.parameters + other.requests.parameters| != |requests.parameters|;
      } else {
        changed := changed || requests.Available?;
      }
      requests := RequestsUnion(requests, other.requests);
      requested := RowUnion(requested, other.requested);
      defaultActions := RowUnion(defaultActions, other.defaultActions);
      handled := RowUnion(handled, other.handled);
    }

    method JoinSets(other: FullSummary) returns (changed: bool)
      modifies this`checks, this`obligations, this`requirements
      ensures checks == old(checks) + other.checks
      ensures obligations == old(obligations) + other.obligations && requirements == old(requirements) + other.requirements
      ensures changed <==> checks != old(checks) || obligations != old(obligations) || requirements != old(requirements)
    {
      GrowCount(checks, other.checks);
      GrowCount(obligations, other.obligations);
      GrowCount(requirements, other.requirements);
      changed := |checks + other.checks| != |checks| || |obligations + other.obligations| != |obligations|
                 || |requirements + other.requirements| != |requirements|;
      checks, obligations, requirements := checks + other.checks, obligations + other.obligations, requirements + other.requirements;
    }

    /** The unions and joins of the facts beside the effects. */
    method JoinOtherFacts(other: FullSummary) returns (changed: bool)
      modifies this`checks, this`obligations, this`requirements, this`determinism, this`independent, this`support
      ensures Whole() == JoinFacts(old(Whole()), other)
      ensures changed <==> Whole() != old(Whole())
    {
      changed := JoinSets(other);
      var certainty, known, served :=
        JoinDeterminism(determinism, other.determinism), JoinIndependent(independent, other.independent), JoinSupport(support, other.support);
      changed := changed || certainty != determinism || known != independent || served != support;
      determinism, independent, support := certainty, known, served;
    }

    method JoinExitsOf(other: Option<ExitSummary>) returns (changed: bool)
      requires InjectiveRanks(ranks) && OrderedExits(exits, ranks) && OrderedExits(other, ranks)
      modifies this`exits
      ensures exits == JoinOptionalExits(old(exits), other, ranks, keys) && OrderedExits(exits, ranks)
      ensures changed <==> exits != old(exits)
    {
      if other.None? {
        return false;
      }
      if exits.None? {
        exits := other;
        return true;
      }
      var current := new CallableExitSummary.Of(exits.value, ranks, keys);
      changed := current.JoinAssign(other.value);
      exits := Some(current.State());
    }

    /** Joins rows and handlers and takes the joined trace. */
    method JoinEffects(other: Summary, joined: Trace) returns (changed: bool)
      requires Valid()
      modifies this`escaping, this`defaults, this`requests, this`requested, this`defaultActions, this`handled, this`trace
      ensures Valid() && State() == JoinRows(JoinEscaping(old(State()), other, rank), other).(trace := joined)
      ensures changed <==> State() != old(State())
    {
      changed := JoinEscapingEffects(other);
      var rows := JoinRequestRows(other);
      changed := changed || rows || joined != trace;
      trace := joined;
    }

    method SeqAssign(other: FullSummary) returns (changed: bool)
      requires Valid()
      modifies this
      ensures Valid() && Whole() == SeqFull(old(Whole()), other, keys, rank)
      ensures changed <==> Whole() != old(Whole())
    {
      changed := JoinEffects(other.core, SeqOp(trace, other.core.trace, keys));
      var facts := JoinOtherFacts(other);
      changed := changed || facts;
    }

    method JoinBranch(other: FullSummary) returns (changed: bool)
      requires Valid() && OrderedExits(other.exits, ranks)
      modifies this
      ensures Valid() && Whole() == BranchFull(old(Whole()), other, ranks, keys, rank)
      ensures changed <==> Whole() != old(Whole())
    {
      var ways := JoinExitsOf(other.exits);
      ghost var between := Whole();
      assert between == old(Whole()).(exits := exits) && (ways <==> between != old(Whole()));
      changed := JoinEffects(other.core, ChoiceOp(trace, other.core.trace, keys));
      var facts := JoinOtherFacts(other);
      changed := changed || ways || facts;
    }

    method ReplaceEffects(core: Summary)
      modifies this`requests, this`defaults, this`escaping, this`requested, this`defaultActions, this`handled, this`trace
      ensures State() == core
    {
      requests, defaults, escaping := core.requests, core.defaults, core.escaping;
      requested, defaultActions, handled, trace := core.requested, core.defaultActions, core.handled, core.trace;
    }

    method Replace(other: FullSummary)
      modifies this
      ensures Whole() == other
    {
      ReplaceEffects(other.core);
      exits, checks, obligations, requirements := other.exits, other.checks, other.obligations, other.requirements;
      determinism, independent, support := other.determinism, other.independent, other.support;
    }

    /** A summary still at its default is replaced, a default input is ignored; otherwise branches are joined. */
    method JoinSummary(other: FullSummary) returns (changed: bool)
      requires Valid() && WellFormed(other, ranks)
      modifies this
      ensures Valid()
      ensures Whole() == if old(Whole()) == LocalFull then other
                         else if other == LocalFull then old(Whole())
                         else BranchFull(old(Whole()), other, ranks, keys, rank)
      ensures changed <==> Whole() != old(Whole())
    {
      if Whole() == LocalFull {
        changed := Whole() != other;
        Replace(other);
        return;
      }
      if other == LocalFull {
        return false;
      }
      changed := JoinBranch(other);
    }

    /** Every word of the trace is followed by the action, which is the only new letter; other effects leave no trace. */
    method RecordActionTraceEvent(action: Effect, span: Span, source: EventSource)
      modifies this`trace
      ensures State() == old(State()).(trace := if IsAction(action) then SeqOp(old(trace), Event(ActionEvent(action, span, source)), keys) else old(trace))
      ensures IsAction(action) ==> Letters(trace) == Letters(old(trace)) + {Act(action)}
      ensures IsAction(action) ==> forall w :: In(w, old(trace)) ==> In(w + [Act(action)], trace)
    {
      if IsAction(action) {
        ghost var before := trace;
        var event := Event(ActionEvent(action, span, source));
        trace := SeqOp(trace, event, keys);
        SeqLetters(before, event, keys);
        forall w | In(w, before)
          ensures In(w + [Act(action)], trace)
        {
          SeqSound(w, [Act(action)], before, event, keys);
        }
      }
    }

    /**
     * The trace and every trace of the exits keep their words and letters and fit the fixpoint's limit:
     * repeat-free with at most 32 nodes. Nothing else changes.
     */
    method StabilizeForFixpoint(current: Option<FullSummary>)
      requires Valid()
      modifies this`trace, this`exits
      ensures Valid() && Whole() == StabilizeFull(old(Whole()), current, keys)
      ensures StableFull(Whole(), old(Whole()))
    {
      if exits.Some? {
        var stable := new CallableExitSummary.Of(exits.value, ranks, keys);
        stable.Stabilize(if current.Some? then current.value.exits else None);
        exits := Some(stable.State());
      }
      var before := if current.Some? then Some(current.value.core.trace) else None;
      StabilizeStable(trace, before, keys);
      trace := Stabilize(trace, before, keys);
    }

    method MergeRequestFootprint(other: FullSummary) returns (changed: bool)
      requires Valid() && InjectiveRank(rank) && SummaryValues.Canonical(State(), rank)
      modifies this
      ensures Valid() && SummaryValues.Canonical(State(), rank)
      ensures Whole() == FootprintFull(old(Whole()), other, rank)
      ensures changed <==> Whole() != old(Whole())
    {
      MergeFootprintBalanced(State(), other.core, rank);
      changed := MergeHandlerNames(other.core);
      var rows := JoinRequestRows(other.core);
      var facts := JoinOtherFacts(other);
      changed := changed || rows || facts;
    }

    /** Merges the handlers of the other summary with nothing produced. */
    method MergeHandlerNames(other: Summary) returns (changed: bool)
      modifies this`defaults
      ensures State() == old(State()).(defaults := MergeFootprint(old(State()), other, rank).defaults)
      ensures changed <==> defaults != old(defaults)
    {
      changed := false;
      if other.defaults.Some? && other.defaults.value.handlers != [] {
        changed := defaults.None?;
        var d := if defaults.Some? then defaults.value else DefaultEffects(escaping, []);
        var handlers := d.handlers;
        var named := Silenced(other.defaults.value.handlers);
        assert named[0..] == named;
        for i := 0 to |named|
          invariant UnionHandlers(handlers, named[i..], rank) == UnionHandlers(d.handlers, named, rank)
          invariant State() == old(State())
          invariant HandlerWeight(handlers) >= HandlerWeight(d.handlers)
          invariant changed <==> defaults.None? || handlers != d.handlers
          invariant handlers != d.handlers ==> HandlerWeight(handlers) > HandlerWeight(d.handlers)
        {
          assert named[i..][1..] == named[i + 1..];
          UnionWeight(handlers, named[i].action, named[i].produced, rank);
          var next, grew := UnionHandlerByScan(handlers, named[i].action, named[i].produced, rank);
          handlers := next;
          changed := changed || grew;
        }
        defaults := Some(d.(handlers := handlers));
      }
    }
  }

  method RemoveFromEach(hs: seq<DefaultHandler>, e: Effect) returns (left: seq<DefaultHandler>)
    ensures left == RemoveFromHandlers(hs, e)
  {
    left := [];
    assert hs[0..] == hs;
    for i := 0 to |hs|
      invariant left + RemoveFromHandlers(hs[i..], e) == RemoveFromHandlers(hs, e)
    {
      assert hs[i..][1..] == hs[i + 1..];
      left := left + [hs[i].(produced := RemoveFromRow(hs[i].produced, e))];
    }
    assert left + [] == left;
  }

  /** Finds the handler of the action and extends it, or appends a new one and sorts. */
  method UnionHandlerByScan(hs: seq<DefaultHandler>, action: Effect, produced: EffectRow, rank: Effect -> Rank)
    returns (r: seq<DefaultHandler>, changed: bool)
    ensures r == UnionHandler(hs, action, produced, rank)
    ensures changed <==> r != hs
  {
    for i := 0 to |hs|
      invariant forall j :: 0 <= j < i ==> hs[j].action != action
    {
      if hs[i].action == action {
        MergeUnchanged(hs, i, action, produced);
        RowGrowsExactly(hs[i].produced, produced);
        return hs[i := hs[i].(produced := RowUnion(hs[i].produced, produced))], RowGrows(hs[i].produced, produced);
      }
    }
    SortWeight(hs + [DefaultHandler(action, produced)], HandlerKey(rank));
    AppendWeight(hs, DefaultHandler(action, produced));
    return SortBy(hs + [DefaultHandler(action, produced)], HandlerKey(rank)), true;
  }
}
