/** Effect summaries as values: request evidence, default handlers and their laws. */
module SummaryValues {
  import opened Prelude
  import opened Effects
  import opened Traces
  import opened SortedLists
  import opened TraceOps
  import opened Coverage

  // ----- Request evidence (infer/requests.rs). -----

  datatype ActionRequest = ActionRequest(action: Effect, typeBindings: Option<seq<(string, TypeId)>>, signature: Option<(seq<TypeId>, TypeId)>)

  datatype ParameterRequest = ParameterRequest(target: ParameterCallTarget, parameter: string, span: Span, excluded: set<Effect>)

  datatype Requests =
    | Available(actions: set<ActionRequest>, parameters: set<ParameterRequest>)
    | Unavailable

  predicate RequestsLessEqual(a: Requests, b: Requests)
  {
    b.Unavailable? || (a.Available? && a.actions <= b.actions && a.parameters <= b.parameters)
  }

  function RequestsUnion(a: Requests, b: Requests): Requests
  {
    if a.Available? && b.Available? then Available(a.actions + b.actions, a.parameters + b.parameters) else Unavailable
  }

  function Exclude(p: ParameterRequest, handled: set<Effect>): ParameterRequest
  {
    p.(excluded := p.excluded + handled)
  }

  function SubtractRequests(r: Registry, q: Requests, handled: EffectRow): Requests
  {
    if q.Unavailable? then q
    else Available((set a | a in q.actions && !CoveredBy(r, handled.effects, a.action)),
                   (set p | p in q.parameters :: Exclude(p, handled.effects)))
  }

  // ----- Default handlers (infer/default_handlers.rs). -----

  datatype DefaultHandler = DefaultHandler(action: Effect, produced: EffectRow)

  datatype DefaultEffects = DefaultEffects(direct: EffectRow, handlers: seq<DefaultHandler>)

  function JoinProduced(row: EffectRow, hs: seq<DefaultHandler>): EffectRow
    decreases |hs|
  {
    if hs == [] then row else JoinProduced(RowUnion(row, hs[0].produced), hs[1..])
  }

  /** The escaping row a set of default effects stands for. */
  function EscapingOf(d: DefaultEffects): EffectRow
  {
    JoinProduced(d.direct, d.handlers)
  }

  predicate HasHandler(hs: seq<DefaultHandler>, action: Effect)
  {
    exists i :: 0 <= i < |hs| && hs[i].action == action
  }

  /** The first handler of the action produces more. */
  function MergeHandler(hs: seq<DefaultHandler>, action: Effect, produced: EffectRow): seq<DefaultHandler>
  {
    if hs == [] then []
    else if hs[0].action == action then [hs[0].(produced := RowUnion(hs[0].produced, produced))] + hs[1..]
    else [hs[0]] + MergeHandler(hs[1..], action, produced)
  }

  function HandlerKey(rank: Effect -> Rank): DefaultHandler -> Rank
  {
    (h: DefaultHandler) => rank(h.action)
  }

  function UnionHandler(hs: seq<DefaultHandler>, action: Effect, produced: EffectRow, rank: Effect -> Rank): seq<DefaultHandler>
  {
    if HasHandler(hs, action) then MergeHandler(hs, action, produced)
    else SortBy(hs + [DefaultHandler(action, produced)], HandlerKey(rank))
  }

  function UnionHandlers(hs: seq<DefaultHandler>, added: seq<DefaultHandler>, rank: Effect -> Rank): seq<DefaultHandler>
    decreases |added|
  {
    if added == [] then hs else UnionHandlers(UnionHandler(hs, added[0].action, added[0].produced, rank), added[1..], rank)
  }

  function FilterHandlers(r: Registry, hs: seq<DefaultHandler>, handled: EffectRow): seq<DefaultHandler>
  {
    if hs == [] then []
    else if CoveredBy(r, handled.effects, hs[0].action) then FilterHandlers(r, hs[1..], handled)
    else [hs[0].(produced := SubtractHandled(r, hs[0].produced, handled))] + FilterHandlers(r, hs[1..], handled)
  }

  function RemoveFromRow(row: EffectRow, e: Effect): EffectRow
  {
    row.(effects := row.effects - {e})
  }

  function RemoveFromHandlers(hs: seq<DefaultHandler>, e: Effect): (r: seq<DefaultHandler>)
    ensures |r| == |hs|
  {
    if hs == [] then [] else [hs[0].(produced := RemoveFromRow(hs[0].produced, e))] + RemoveFromHandlers(hs[1..], e)
  }

  // ----- Whole summaries. -----

  datatype Summary = Summary(
    requests: Requests,
    defaults: Option<DefaultEffects>,
    escaping: EffectRow,
    requested: EffectRow,
    defaultActions: EffectRow,
    handled: EffectRow,
    trace: Trace
  )

  const LocalSummary := Summary(Available({}, {}), None, EmptyRow, EmptyRow, EmptyRow, EmptyRow, Empty)

  /** The escaping row is the direct row joined with everything the default handlers produce. */
  predicate Balanced(s: Summary)
  {
    s.defaults.Some? ==> s.escaping == EscapingOf(s.defaults.value)
  }

  /** One handler per action, in action order. */
  predicate OrderedHandlers(hs: seq<DefaultHandler>, rank: Effect -> Rank)
  {
    Strictly(hs, HandlerKey(rank))
  }

  predicate Canonical(s: Summary, rank: Effect -> Rank)
  {
    s.defaults.Some? ==> OrderedHandlers(s.defaults.value.handlers, rank)
  }

  ghost predicate InjectiveRank(rank: Effect -> Rank)
  {
    forall a, b :: rank(a) == rank(b) ==> a == b
  }

  function DirectEscaping(s: Summary): EffectRow
  {
    if s.defaults.Some? then s.defaults.value.direct else s.escaping
  }

  /** The default effects of a summary, starting from its escaping row when there are none yet. */
  function Started(s: Summary): DefaultEffects
  {
    if s.defaults.Some? then s.defaults.value else DefaultEffects(s.escaping, [])
  }

  function WithDefaults(s: Summary, d: DefaultEffects): Summary
  {
    s.(defaults := Some(d), escaping := EscapingOf(d))
  }

  function RecordEscaping(s: Summary, row: EffectRow): Summary
  {
    if s.defaults.Some?
    then WithDefaults(s, s.defaults.value.(direct := RowUnion(s.defaults.value.direct, row)))
    else s.(escaping := RowUnion(s.escaping, row))
  }

  function RecordDefault(s: Summary, action: Effect, produced: EffectRow, rank: Effect -> Rank): Summary
  {
    var d := Started(s);
    WithDefaults(s, d.(handlers := UnionHandler(d.handlers, action, produced, rank)))
  }

  function JoinEscaping(s: Summary, o: Summary, rank: Effect -> Rank): Summary
  {
    if s.defaults.None? && o.defaults.None? then s.(escaping := RowUnion(s.escaping, o.escaping))
    else
      var d := Started(s);
      WithDefaults(s, DefaultEffects(
        RowUnion(d.direct, DirectEscaping(o)),
        if o.defaults.Some? then UnionHandlers(d.handlers, o.defaults.value.handlers, rank) else d.handlers))
  }

  function Subtract(r: Registry, s: Summary, handled: EffectRow): Summary
  {
    var q := SubtractRequests(r, s.requests, handled);
    if s.defaults.None? then s.(requests := q, escaping := SubtractHandled(r, s.escaping, handled))
    else
      var direct := SubtractHandled(r, s.defaults.value.direct, handled);
      var handlers := FilterHandlers(r, s.defaults.value.handlers, handled);
      if handlers == [] then s.(requests := q, escaping := direct, defaults := None)
      else WithDefaults(s.(requests := q), DefaultEffects(direct, handlers))
  }

  function RemoveEscaping(s: Summary, e: Effect): Summary
  {
    if s.defaults.None? then s.(escaping := RemoveFromRow(s.escaping, e))
    else WithDefaults(s, DefaultEffects(RemoveFromRow(s.defaults.value.direct, e), RemoveFromHandlers(s.defaults.value.handlers, e)))
  }

  function Silenced(hs: seq<DefaultHandler>): (r: seq<DefaultHandler>)
    ensures |r| == |hs|
  {
    if hs == [] then [] else [hs[0].(produced := EmptyRow)] + Silenced(hs[1..])
  }

  function JoinRows(s: Summary, o: Summary): Summary
  {
    s.(requests := RequestsUnion(s.requests, o.requests),
       requested := RowUnion(s.requested, o.requested),
       defaultActions := RowUnion(s.defaultActions, o.defaultActions),
       handled := RowUnion(s.handled, o.handled))
  }

  function SeqSummary(s: Summary, o: Summary, keys: SortKeys, rank: Effect -> Rank): Summary
  {
    JoinRows(JoinEscaping(s, o, rank), o).(trace := SeqOp(s.trace, o.trace, keys))
  }

  function BranchSummary(s: Summary, o: Summary, keys: SortKeys, rank: Effect -> Rank): Summary
  {
    JoinRows(JoinEscaping(s, o, rank), o).(trace := ChoiceOp(s.trace, o.trace, keys))
  }

  /** Only the handler names are merged: neither escaping effects nor the trace are reintroduced. */
  function MergeFootprint(s: Summary, o: Summary, rank: Effect -> Rank): Summary
  {
    var joined := JoinRows(s, o);
    if o.defaults.None? || o.defaults.value.handlers == [] then joined
    else
      var d := Started(s);
      joined.(defaults := Some(d.(handlers := UnionHandlers(d.handlers, Silenced(o.defaults.value.handlers), rank))))
  }

  // ----- Every operation keeps the balance. -----

  lemma RowUnionEmpty(row: EffectRow)
    ensures RowUnion(row, EmptyRow) == row
  {
    assert row.effects + {} == row.effects;
  }

  /** Inserting a handler that produces nothing does not change the joined row. */
  lemma {:induction false} InsertSilent(row: EffectRow, hs: seq<DefaultHandler>, action: Effect, rank: Effect -> Rank)
    ensures JoinProduced(row, InsertBy(hs, DefaultHandler(action, EmptyRow), HandlerKey(rank))) == JoinProduced(row, hs)
    decreases |hs|
  {
    var h := DefaultHandler(action, EmptyRow);
    RowUnionEmpty(row);
    if hs == [] || rank(h.action) < rank(hs[0].action) {
      assert ([h] + hs)[1..] == hs;
    } else {
      InsertSilent(RowUnion(row, hs[0].produced), hs[1..], action, rank);
      assert ([hs[0]] + InsertBy(hs[1..], h, HandlerKey(rank)))[1..] == InsertBy(hs[1..], h, HandlerKey(rank));
    }
  }

  lemma {:induction false} MergeSilent(hs: seq<DefaultHandler>, action: Effect)
    ensures MergeHandler(hs, action, EmptyRow) == hs
  {
    if hs != [] {
      RowUnionEmpty(hs[0].produced);
      MergeSilent(hs[1..], action);
      assert hs == [hs[0]] + hs[1..];
    }
  }

  lemma UnionSilent(row: EffectRow, hs: seq<DefaultHandler>, action: Effect, rank: Effect -> Rank)
    requires OrderedHandlers(hs, rank)
    ensures JoinProduced(row, UnionHandler(hs, action, EmptyRow, rank)) == JoinProduced(row, hs)
  {
    if HasHandler(hs, action) {
      MergeSilent(hs, action);
    } else {
      SortPushed(hs, DefaultHandler(action, EmptyRow), HandlerKey(rank));
      InsertSilent(row, hs, action, rank);
    }
  }

  lemma {:induction false} MergeKeepsActions(hs: seq<DefaultHandler>, action: Effect, produced: EffectRow)
    ensures |MergeHandler(hs, action, produced)| == |hs|
    ensures forall i :: 0 <= i < |hs| ==> MergeHandler(hs, action, produced)[i].action == hs[i].action
  {
    if hs != [] {
      MergeKeepsActions(hs[1..], action, produced);
    }
  }

  /** `union_handler` keeps one handler per action, in order. */
  lemma UnionHandlerOrdered(hs: seq<DefaultHandler>, action: Effect, produced: EffectRow, rank: Effect -> Rank)
    requires InjectiveRank(rank) && OrderedHandlers(hs, rank)
    ensures OrderedHandlers(UnionHandler(hs, action, produced, rank), rank)
  {
    if HasHandler(hs, action) {
      MergeKeepsActions(hs, action, produced);
    } else {
      SortPushed(hs, DefaultHandler(action, produced), HandlerKey(rank));
      InsertStrictly(hs, DefaultHandler(action, produced), HandlerKey(rank));
    }
  }

  lemma {:induction false} UnionHandlersOrdered(hs: seq<DefaultHandler>, added: seq<DefaultHandler>, rank: Effect -> Rank)
    requires InjectiveRank(rank) && OrderedHandlers(hs, rank)
    ensures OrderedHandlers(UnionHandlers(hs, added, rank), rank)
    decreases |added|
  {
    if added != [] {
      UnionHandlerOrdered(hs, added[0].action, added[0].produced, rank);
      UnionHandlersOrdered(UnionHandler(hs, added[0].action, added[0].produced, rank), added[1..], rank);
    }
  }

  lemma {:induction false} UnionHandlersSilent(row: EffectRow, hs: seq<DefaultHandler>, added: seq<DefaultHandler>, rank: Effect -> Rank)
    requires InjectiveRank(rank) && OrderedHandlers(hs, rank)
    ensures JoinProduced(row, UnionHandlers(hs, Silenced(added), rank)) == JoinProduced(row, hs)
    decreases |added|
  {
    if added != [] {
      var next := UnionHandler(hs, added[0].action, EmptyRow, rank);
      UnionSilent(row, hs, added[0].action, rank);
      UnionHandlerOrdered(hs, added[0].action, EmptyRow, rank);
      UnionHandlersSilent(row, next, added[1..], rank);
      assert Silenced(added)[1..] == Silenced(added[1..]);
    }
  }

  /** The footprint merge keeps the balance although it never recomputes the escaping row. */
  lemma MergeFootprintBalanced(s: Summary, o: Summary, rank: Effect -> Rank)
    requires InjectiveRank(rank) && Balanced(s) && Canonical(s, rank)
    ensures Balanced(MergeFootprint(s, o, rank)) && Canonical(MergeFootprint(s, o, rank), rank)
    ensures MergeFootprint(s, o, rank).escaping == s.escaping && MergeFootprint(s, o, rank).trace == s.trace
  {
    if o.defaults.Some? && o.defaults.value.handlers != [] {
      var d := Started(s);
      UnionHandlersSilent(d.direct, d.handlers, o.defaults.value.handlers, rank);
      UnionHandlersOrdered(d.handlers, Silenced(o.defaults.value.handlers), rank);
    }
  }

  lemma {:induction false} FilterActions(r: Registry, hs: seq<DefaultHandler>, handled: EffectRow)
    ensures forall h :: h in FilterHandlers(r, hs, handled) ==> exists i :: 0 <= i < |hs| && hs[i].action == h.action
  {
    if hs != [] {
      FilterActions(r, hs[1..], handled);
      forall h | h in FilterHandlers(r, hs, handled)
        ensures exists i :: 0 <= i < |hs| && hs[i].action == h.action
      {
        if h in FilterHandlers(r, hs[1..], handled) {
          var i :| 0 <= i < |hs[1..]| && hs[1..][i].action == h.action;
          assert hs[i + 1].action == h.action;
        } else {
          assert hs[0].action == h.action;
        }
      }
    }
  }

  lemma {:induction false} FilterOrdered(r: Registry, hs: seq<DefaultHandler>, handled: EffectRow, rank: Effect -> Rank)
    requires OrderedHandlers(hs, rank)
    ensures OrderedHandlers(FilterHandlers(r, hs, handled), rank)
  {
    if hs != [] {
      FilterOrdered(r, hs[1..], handled, rank);
      FilterActions(r, hs[1..], handled);
      var tail := FilterHandlers(r, hs[1..], handled);
      forall j | 0 <= j < |tail|
        ensures rank(hs[0].action) < rank(tail[j].action)
      {
        assert tail[j] in tail;
        var i :| 0 <= i < |hs[1..]| && hs[1..][i].action == tail[j].action;
        assert hs[i + 1].action == tail[j].action;
      }
    }
  }

  lemma {:induction false} RemoveKeepsActions(hs: seq<DefaultHandler>, e: Effect)
    ensures forall i :: 0 <= i < |hs| ==> RemoveFromHandlers(hs, e)[i].action == hs[i].action
  {
    if hs != [] {
      RemoveKeepsActions(hs[1..], e);
    }
  }

  /** Every operation keeps one handler per action, in order. */
  lemma OperationsCanonical(r: Registry, s: Summary, o: Summary, row: EffectRow, e: Effect, keys: SortKeys, rank: Effect -> Rank)
    requires InjectiveRank(rank) && Canonical(s, rank)
    ensures Canonical(RecordEscaping(s, row), rank)
    ensures Canonical(RecordDefault(s, e, row, rank), rank)
    ensures Canonical(JoinEscaping(s, o, rank), rank) && Canonical(SeqSummary(s, o, keys, rank), rank) && Canonical(BranchSummary(s, o, keys, rank), rank)
    ensures Canonical(Subtract(r, s, row), rank)
    ensures Canonical(RemoveEscaping(s, e), rank)
  {
    var d := Started(s);
    UnionHandlerOrdered(d.handlers, e, row, rank);
    if o.defaults.Some? {
      UnionHandlersOrdered(d.handlers, o.defaults.value.handlers, rank);
    }
    FilterOrdered(r, d.handlers, row, rank);
    RemoveKeepsActions(d.handlers, e);
  }

  // ----- Cause accounting. -----

  ghost predicate ProducedBy(hs: seq<DefaultHandler>, e: Effect)
  {
    exists i :: 0 <= i < |hs| && e in hs[i].produced.effects
  }

  lemma {:induction false} JoinProducedEffects(row: EffectRow, hs: seq<DefaultHandler>, e: Effect)
    ensures e in JoinProduced(row, hs).effects <==> e in row.effects || ProducedBy(hs, e)
    decreases |hs|
  {
    if hs != [] {
      JoinProducedEffects(RowUnion(row, hs[0].produced), hs[1..], e);
      assert forall i :: 0 <= i < |hs[1..]| ==> hs[1..][i] == hs[i + 1];
      if ProducedBy(hs, e) && e !in hs[0].produced.effects {
        var i :| 0 <= i < |hs| && e in hs[i].produced.effects;
        assert e in hs[1..][i - 1].produced.effects;
      }
      if ProducedBy(hs[1..], e) {
        var i :| 0 <= i < |hs[1..]| && e in hs[1..][i].produced.effects;
        assert e in hs[i + 1].produced.effects;
      }
    }
  }

  ghost predicate SurvivingCause(r: Registry, hs: seq<DefaultHandler>, handled: EffectRow, e: Effect)
  {
    exists i :: 0 <= i < |hs| && !CoveredBy(r, handled.effects, hs[i].action) && e in hs[i].produced.effects
  }

  lemma {:induction false} FilterProduces(r: Registry, hs: seq<DefaultHandler>, handled: EffectRow, e: Effect)
    ensures ProducedBy(FilterHandlers(r, hs, handled), e) <==> !CoveredBy(r, handled.effects, e) && SurvivingCause(r, hs, handled, e)
  {
    if hs != [] {
      FilterProduces(r, hs[1..], handled, e);
      assert forall i :: 0 <= i < |hs[1..]| ==> hs[1..][i] == hs[i + 1];
      var all, tail := FilterHandlers(r, hs, handled), FilterHandlers(r, hs[1..], handled);
      if CoveredBy(r, handled.effects, hs[0].action) {
        if SurvivingCause(r, hs[1..], handled, e) {
          var i :| 0 <= i < |hs[1..]| && !CoveredBy(r, handled.effects, hs[1..][i].action) && e in hs[1..][i].produced.effects;
          assert e in hs[i + 1].produced.effects;
        }
        if SurvivingCause(r, hs, handled, e) {
          var i :| 0 <= i < |hs| && !CoveredBy(r, handled.effects, hs[i].action) && e in hs[i].produced.effects;
          assert e in hs[1..][i - 1].produced.effects;
        }
      } else {
        ProducedTail(all, e);
        assert all[1..] == tail;
        SurvivingTail(r, hs, handled, e);
      }
    }
  }

  lemma ProducedTail(hs: seq<DefaultHandler>, e: Effect)
    requires hs != []
    ensures ProducedBy(hs, e) <==> e in hs[0].produced.effects || ProducedBy(hs[1..], e)
  {
    if ProducedBy(hs, e) {
      var i :| 0 <= i < |hs| && e in hs[i].produced.effects;
      if i > 0 {
        assert e in hs[1..][i - 1].produced.effects;
      }
    }
    if ProducedBy(hs[1..], e) {
      var i :| 0 <= i < |hs[1..]| && e in hs[1..][i].produced.effects;
      assert e in hs[i + 1].produced.effects;
    }
  }

  lemma SurvivingTail(r: Registry, hs: seq<DefaultHandler>, handled: EffectRow, e: Effect)
    requires hs != [] && !CoveredBy(r, handled.effects, hs[0].action)
    ensures SurvivingCause(r, hs, handled, e) <==> e in hs[0].produced.effects || SurvivingCause(r, hs[1..], handled, e)
  {
    if SurvivingCause(r, hs, handled, e) {
      var i :| 0 <= i < |hs| && !CoveredBy(r, handled.effects, hs[i].action) && e in hs[i].produced.effects;
      if i > 0 {
        assert e in hs[1..][i - 1].produced.effects;
      }
    }
    if SurvivingCause(r, hs[1..], handled, e) {
      var i :| 0 <= i < |hs[1..]| && !CoveredBy(r, handled.effects, hs[1..][i].action) && e in hs[1..][i].produced.effects;
      assert e in hs[i + 1].produced.effects;
    }
  }

  /** After subtraction an effect survives exactly when it is uncovered and still has an uncovered cause. */
  lemma SubtractSurvivors(r: Registry, s: Summary, handled: EffectRow, e: Effect)
    ensures e in Subtract(r, s, handled).escaping.effects <==>
              && !CoveredBy(r, handled.effects, e)
              && (e in DirectEscaping(s).effects
                  || (s.defaults.Some? && SurvivingCause(r, s.defaults.value.handlers, handled, e)))
  {
    if s.defaults.Some? {
      var direct := SubtractHandled(r, s.defaults.value.direct, handled);
      var handlers := FilterHandlers(r, s.defaults.value.handlers, handled);
      FilterProduces(r, s.defaults.value.handlers, handled, e);
      JoinProducedEffects(direct, handlers, e);
    }
  }

  lemma SubtractRowTwice(r: Registry, row: EffectRow, a: EffectRow, b: EffectRow)
    ensures SubtractHandled(r, SubtractHandled(r, row, a), b) == SubtractHandled(r, row, RowUnion(a, b))
  {
    forall e
      ensures CoveredBy(r, RowUnion(a, b).effects, e) <==> CoveredBy(r, a.effects, e) || CoveredBy(r, b.effects, e)
    {
      CoveredByUnion(r, a, b, e);
    }
  }

  lemma CoveredByUnion(r: Registry, a: EffectRow, b: EffectRow, e: Effect)
    ensures CoveredBy(r, RowUnion(a, b).effects, e) <==> CoveredBy(r, a.effects, e) || CoveredBy(r, b.effects, e)
  {
    if CoveredBy(r, RowUnion(a, b).effects, e) {
      var h :| h in RowUnion(a, b).effects && Covers(r, h, e);
    }
  }

  lemma {:induction false} FilterTwice(r: Registry, hs: seq<DefaultHandler>, a: EffectRow, b: EffectRow)
    ensures FilterHandlers(r, FilterHandlers(r, hs, a), b) == FilterHandlers(r, hs, RowUnion(a, b))
  {
    if hs != [] {
      FilterTwice(r, hs[1..], a, b);
      CoveredByUnion(r, a, b, hs[0].action);
      SubtractRowTwice(r, hs[0].produced, a, b);
      if !CoveredBy(r, a.effects, hs[0].action) {
        var first := FilterHandlers(r, hs, a);
        assert first[1..] == FilterHandlers(r, hs[1..], a);
      }
    }
  }

  lemma SubtractRequestsTwice(r: Registry, q: Requests, a: EffectRow, b: EffectRow)
    ensures SubtractRequests(r, SubtractRequests(r, q, a), b) == SubtractRequests(r, q, RowUnion(a, b))
  {
    if q.Available? {
      forall e
        ensures CoveredBy(r, RowUnion(a, b).effects, e) <==> CoveredBy(r, a.effects, e) || CoveredBy(r, b.effects, e)
      {
        CoveredByUnion(r, a, b, e);
      }
      var once := set p | p in q.parameters :: Exclude(p, a.effects);
      var twice := set p | p in once :: Exclude(p, b.effects);
      var both := set p | p in q.parameters :: Exclude(p, a.effects + b.effects);
      forall p | p in q.parameters
        ensures Exclude(Exclude(p, a.effects), b.effects) == Exclude(p, a.effects + b.effects)
      {
        assert p.excluded + a.effects + b.effects == p.excluded + (a.effects + b.effects);
      }
      forall x
        ensures x in twice <==> x in both
      {
        if x in twice {
          var y :| y in once && Exclude(y, b.effects) == x;
          var p :| p in q.parameters && Exclude(p, a.effects) == y;
          assert x == Exclude(p, a.effects + b.effects);
        }
        if x in both {
          var p :| p in q.parameters && Exclude(p, a.effects + b.effects) == x;
          assert Exclude(p, a.effects) in once;
          assert x == Exclude(Exclude(p, a.effects), b.effects);
        }
      }
      assert twice == both;
    }
  }

  /** Handling `a` and then `b` is handling both at once: rows, causes and request evidence included. */
  lemma SubtractTwice(r: Registry, s: Summary, a: EffectRow, b: EffectRow)
    ensures Subtract(r, Subtract(r, s, a), b) == Subtract(r, s, RowUnion(a, b))
  {
    SubtractRequestsTwice(r, s.requests, a, b);
    SubtractRowTwice(r, s.escaping, a, b);
    if s.defaults.Some? {
      SubtractRowTwice(r, s.defaults.value.direct, a, b);
      FilterTwice(r, s.defaults.value.handlers, a, b);
    }
  }

  // ----- Joining loses no effect and invents none. -----

  lemma {:induction false} MergeProduces(hs: seq<DefaultHandler>, action: Effect, produced: EffectRow, e: Effect)
    requires HasHandler(hs, action)
    ensures ProducedBy(MergeHandler(hs, action, produced), e) <==> ProducedBy(hs, e) || e in produced.effects
  {
    var merged := MergeHandler(hs, action, produced);
    ProducedTail(hs, e);
    ProducedTail(merged, e);
    if hs[0].action == action {
      assert merged[1..] == hs[1..];
    } else {
      assert merged[1..] == MergeHandler(hs[1..], action, produced);
      var i :| 0 <= i < |hs| && hs[i].action == action;
      assert hs[1..][i - 1].action == action;
      MergeProduces(hs[1..], action, produced, e);
    }
  }

  lemma ProducedMembers(a: seq<DefaultHandler>, b: seq<DefaultHandler>, e: Effect)
    requires forall x :: x in a ==> x in b
    ensures ProducedBy(a, e) ==> ProducedBy(b, e)
  {
    if ProducedBy(a, e) {
      var i :| 0 <= i < |a| && e in a[i].produced.effects;
      assert a[i] in b;
      var j :| 0 <= j < |b| && b[j] == a[i];
    }
  }

  lemma UnionHandlerProduces(hs: seq<DefaultHandler>, action: Effect, produced: EffectRow, rank: Effect -> Rank, e: Effect)
    ensures ProducedBy(UnionHandler(hs, action, produced, rank), e) <==> ProducedBy(hs, e) || e in produced.effects
  {
    if HasHandler(hs, action) {
      MergeProduces(hs, action, produced, e);
    } else {
      var h := DefaultHandler(action, produced);
      var all := [h] + hs;
      var sorted := SortBy(hs + [h], HandlerKey(rank));
      SortElems(hs + [h], HandlerKey(rank));
      assert forall x :: x in sorted <==> x in Elems(hs + [h]);
      ProducedMembers(sorted, all, e);
      ProducedMembers(all, sorted, e);
      ProducedTail(all, e);
      assert all[1..] == hs;
    }
  }

  lemma {:induction false} UnionHandlersProduce(hs: seq<DefaultHandler>, added: seq<DefaultHandler>, rank: Effect -> Rank, e: Effect)
    ensures ProducedBy(UnionHandlers(hs, added, rank), e) <==> ProducedBy(hs, e) || ProducedBy(added, e)
    decreases |added|
  {
    if added != [] {
      UnionHandlerProduces(hs, added[0].action, added[0].produced, rank, e);
      UnionHandlersProduce(UnionHandler(hs, added[0].action, added[0].produced, rank), added[1..], rank, e);
      ProducedTail(added, e);
    }
  }

  /** The joined escaping row has exactly the escaping effects of both summaries. */
  lemma JoinEscapingEffects(s: Summary, o: Summary, rank: Effect -> Rank, e: Effect)
    requires Balanced(s) && Balanced(o)
    ensures e in JoinEscaping(s, o, rank).escaping.effects <==> e in s.escaping.effects || e in o.escaping.effects
  {
    if s.defaults.Some? || o.defaults.Some? {
      var d := Started(s);
      var added := if o.defaults.Some? then o.defaults.value.handlers else [];
      UnionHandlersProduce(d.handlers, added, rank, e);
      JoinProducedEffects(d.direct, d.handlers, e);
      JoinProducedEffects(DirectEscaping(o), added, e);
      JoinProducedEffects(RowUnion(d.direct, DirectEscaping(o)), UnionHandlers(d.handlers, added, rank), e);
    }
  }

  // ----- Whole runs. -----

  datatype SummaryOp =
    | RecordRowOp(row: EffectRow)
    | RecordHandlerOp(action: Effect, produced: EffectRow)
    | SequenceOp(other: Summary)
    | BranchOp(other: Summary)
    | FootprintOp(other: Summary)
    | SubtractOp(row: EffectRow)
    | RemoveOp(effect: Effect)

  function ApplyOp(r: Registry, s: Summary, op: SummaryOp, keys: SortKeys, rank: Effect -> Rank): Summary
  {
    match op
    case RecordRowOp(row) => RecordEscaping(s, row)
    case RecordHandlerOp(action, produced) => if IsAction(action) then RecordDefault(s, action, produced, rank) else s
    case SequenceOp(other) => SeqSummary(s, other, keys, rank)
    case BranchOp(other) => BranchSummary(s, other, keys, rank)
    case FootprintOp(other) => MergeFootprint(s, other, rank)
    case SubtractOp(row) => Subtract(r, s, row)
    case RemoveOp(effect) => RemoveEscaping(s, effect)
  }

  function ApplyOps(r: Registry, s: Summary, ops: seq<SummaryOp>, keys: SortKeys, rank: Effect -> Rank): Summary
    decreases |ops|
  {
    if ops == [] then s else ApplyOps(r, ApplyOp(r, s, ops[0], keys, rank), ops[1..], keys, rank)
  }

  lemma OpStaysBalanced(r: Registry, s: Summary, op: SummaryOp, keys: SortKeys, rank: Effect -> Rank)
    requires InjectiveRank(rank) && Balanced(s) && Canonical(s, rank)
    ensures Balanced(ApplyOp(r, s, op, keys, rank)) && Canonical(ApplyOp(r, s, op, keys, rank), rank)
  {
    var row := match op case RecordRowOp(x) => x case RecordHandlerOp(_, x) => x case SubtractOp(x) => x case _ => EmptyRow;
    var e := match op case RecordHandlerOp(x, _) => x case RemoveOp(x) => x case _ => Tag(0);
    var o := match op case SequenceOp(x) => x case BranchOp(x) => x case FootprintOp(x) => x case _ => s;
    OperationsCanonical(r, s, o, row, e, keys, rank);
    if op.FootprintOp? {
      MergeFootprintBalanced(s, o, rank);
    }
  }

  /**
   * Through any run of operations, with any other summaries, the escaping row is the direct row joined
   * with all produced rows, and there is one default handler per action, in order.
   */
  lemma {:induction false} RunsStayBalanced(r: Registry, s: Summary, ops: seq<SummaryOp>, keys: SortKeys, rank: Effect -> Rank)
    requires InjectiveRank(rank) && Balanced(s) && Canonical(s, rank)
    ensures Balanced(ApplyOps(r, s, ops, keys, rank)) && Canonical(ApplyOps(r, s, ops, keys, rank), rank)
    decreases |ops|
  {
    if ops != [] {
      OpStaysBalanced(r, s, ops[0], keys, rank);
      RunsStayBalanced(r, ApplyOp(r, s, ops[0], keys, rank), ops[1..], keys, rank);
    }
  }

  predicate JoinsWith(op: SummaryOp)
  {
    op.SequenceOp? || op.BranchOp? || op.FootprintOp?
  }

  /** The bound is above the evidence of the summary and of every summary joined into it. */
  ghost predicate BoundsRun(s: Summary, ops: seq<SummaryOp>, bound: Requests)
  {
    RequestsLessEqual(s.requests, bound) && forall op :: op in ops && JoinsWith(op) ==> RequestsLessEqual(op.other.requests, bound)
  }

  /** Without subtraction the evidence of a run is the least upper bound of all evidence joined into it. */
  lemma {:induction false} RunRequestsAreLub(r: Registry, s: Summary, ops: seq<SummaryOp>, keys: SortKeys, rank: Effect -> Rank, bound: Requests)
    requires forall op :: op in ops ==> !op.SubtractOp?
    ensures BoundsRun(s, ops, bound) <==> RequestsLessEqual(ApplyOps(r, s, ops, keys, rank).requests, bound)
    decreases |ops|
  {
    if ops != [] {
      var next := ApplyOp(r, s, ops[0], keys, rank);
      RunRequestsAreLub(r, next, ops[1..], keys, rank, bound);
      assert ops == [ops[0]] + ops[1..];
      assert RequestsLessEqual(next.requests, bound) <==>
             RequestsLessEqual(s.requests, bound) && (JoinsWith(ops[0]) ==> RequestsLessEqual(ops[0].other.requests, bound));
    }
  }

  // ----- Change flags. -----

  lemma GrowCount<T>(a: set<T>, b: set<T>)
    ensures |a + b| == |a| <==> a + b == a
  {
    if a + b != a {
      var x :| x in b && x !in a;
      assert a + b == a + (b - a);
      assert x in b - a;
    }
  }

  /** What `EffectRow::union_assign` reports. */
  function RowGrows(a: EffectRow, b: EffectRow): bool
  {
    |a.effects + b.effects| != |a.effects| || (a.open.None? && b.open.Some?)
  }

  lemma RowGrowsExactly(a: EffectRow, b: EffectRow)
    ensures RowGrows(a, b) <==> RowUnion(a, b) != a
  {
    GrowCount(a.effects, b.effects);
  }

  lemma {:induction false} MergeUnchanged(hs: seq<DefaultHandler>, i: nat, action: Effect, produced: EffectRow)
    requires i < |hs| && hs[i].action == action && forall j :: 0 <= j < i ==> hs[j].action != action
    ensures MergeHandler(hs, action, produced) == hs[i := hs[i].(produced := RowUnion(hs[i].produced, produced))]
  {
    if i > 0 {
      assert hs[1..][i - 1] == hs[i];
      MergeUnchanged(hs[1..], i - 1, action, produced);
    }
  }

  /** How much a row holds; joining can only raise it. */
  function RowWeight(row: EffectRow): nat
  {
    |row.effects| + if row.open.Some? then 1 else 0
  }

  function HandlerWeight(hs: seq<DefaultHandler>): nat
  {
    if hs == [] then 0 else 1 + RowWeight(hs[0].produced) + HandlerWeight(hs[1..])
  }

  lemma RowWeightGrows(a: EffectRow, b: EffectRow)
    ensures RowWeight(RowUnion(a, b)) >= RowWeight(a)
    ensures RowUnion(a, b) != a ==> RowWeight(RowUnion(a, b)) > RowWeight(a)
  {
    GrowCount(a.effects, b.effects);
    assert a.effects + b.effects == a.effects + (b.effects - a.effects);
  }

  lemma {:induction false} MergeWeight(hs: seq<DefaultHandler>, action: Effect, produced: EffectRow)
    ensures HandlerWeight(MergeHandler(hs, action, produced)) >= HandlerWeight(hs)
    ensures MergeHandler(hs, action, produced) != hs ==> HandlerWeight(MergeHandler(hs, action, produced)) > HandlerWeight(hs)
  {
    if hs != [] {
      var merged := MergeHandler(hs, action, produced);
      RowWeightGrows(hs[0].produced, produced);
      MergeWeight(hs[1..], action, produced);
      assert hs == [hs[0]] + hs[1..];
      assert merged[1..] == if hs[0].action == action then hs[1..] else MergeHandler(hs[1..], action, produced);
    }
  }

  lemma {:induction false} InsertWeight(hs: seq<DefaultHandler>, h: DefaultHandler, key: DefaultHandler -> Rank)
    ensures HandlerWeight(InsertBy(hs, h, key)) == HandlerWeight(hs) + 1 + RowWeight(h.produced)
  {
    if hs == [] || key(h) < key(hs[0]) {
      assert ([h] + hs)[1..] == hs;
    } else {
      InsertWeight(hs[1..], h, key);
      assert InsertBy(hs, h, key)[1..] == InsertBy(hs[1..], h, key);
    }
  }

  lemma {:induction false} AppendWeight(hs: seq<DefaultHandler>, h: DefaultHandler)
    ensures HandlerWeight(hs + [h]) == HandlerWeight(hs) + 1 + RowWeight(h.produced)
  {
    if hs == [] {
      assert ([] + [h])[1..] == [];
    } else {
      assert (hs + [h])[1..] == hs[1..] + [h];
      AppendWeight(hs[1..], h);
    }
  }

  lemma {:induction false} SortWeight(hs: seq<DefaultHandler>, key: DefaultHandler -> Rank)
    ensures HandlerWeight(SortBy(hs, key)) == HandlerWeight(hs)
  {
    if hs != [] {
      SortWeight(Rest(hs), key);
      InsertWeight(SortBy(Rest(hs), key), Top(hs), key);
      AppendWeight(Rest(hs), Top(hs));
    }
  }

  /** A handler union that changes the list makes it heavier, so later unions cannot undo the change. */
  lemma UnionWeight(hs: seq<DefaultHandler>, action: Effect, produced: EffectRow, rank: Effect -> Rank)
    ensures var r := UnionHandler(hs, action, produced, rank);
            HandlerWeight(r) >= HandlerWeight(hs) && (r != hs ==> HandlerWeight(r) > HandlerWeight(hs))
  {
    if HasHandler(hs, action) {
      MergeWeight(hs, action, produced);
    } else {
      var h := DefaultHandler(action, produced);
      SortWeight(hs + [h], HandlerKey(rank));
      AppendWeight(hs, h);
    }
  }
}
