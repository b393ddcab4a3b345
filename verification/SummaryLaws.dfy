/** What each operation on effect summaries does to escaping effects, handlers and requests. */
module SummaryLaws {
  import opened Prelude
  import opened Effects
  import opened Traces
  import opened SortedLists
  import opened TraceOps
  import opened TraceMeaning
  import opened Words
  import opened Coverage
  import opened SummaryValues
  import opened Exits
  import opened SummaryFacts

  // ----- Handlers, one action at a time. -----

  /** Some handler of the action produces the effect. */
  ghost predicate Makes(hs: seq<DefaultHandler>, a: Effect, e: Effect)
  {
    exists h :: h in hs && h.action == a && e in h.produced.effects
  }

  ghost predicate HandledIn(hs: seq<DefaultHandler>, a: Effect)
  {
    exists h :: h in hs && h.action == a
  }

  lemma HandledIsHasHandler(hs: seq<DefaultHandler>, a: Effect)
    ensures HandledIn(hs, a) <==> HasHandler(hs, a)
  {
    if HandledIn(hs, a) {
      var h :| h in hs && h.action == a;
      var i :| 0 <= i < |hs| && hs[i] == h;
    }
  }

  lemma ConsTells(h: DefaultHandler, hs: seq<DefaultHandler>, a: Effect, e: Effect)
    ensures Makes([h] + hs, a, e) <==> (h.action == a && e in h.produced.effects) || Makes(hs, a, e)
    ensures HandledIn([h] + hs, a) <==> h.action == a || HandledIn(hs, a)
  {
    assert forall x :: x in [h] + hs <==> x == h || x in hs;
  }

  lemma SameElemsTell(a: seq<DefaultHandler>, b: seq<DefaultHandler>, action: Effect, e: Effect)
    requires Elems(a) == Elems(b)
    ensures Makes(a, action, e) <==> Makes(b, action, e)
    ensures HandledIn(a, action) <==> HandledIn(b, action)
  {
    assert forall h :: h in a <==> h in Elems(b);
    assert forall h :: h in b <==> h in Elems(a);
  }

  lemma {:induction false} MergeTells(hs: seq<DefaultHandler>, action: Effect, produced: EffectRow, a: Effect, e: Effect)
    requires HandledIn(hs, action)
    ensures Makes(MergeHandler(hs, action, produced), a, e) <==> Makes(hs, a, e) || (a == action && e in produced.effects)
    ensures HandledIn(MergeHandler(hs, action, produced), a) <==> HandledIn(hs, a)
  {
    assert hs == [hs[0]] + hs[1..];
    ConsTells(hs[0], hs[1..], a, e);
    ConsTells(hs[0], hs[1..], action, e);
    if hs[0].action == action {
      ConsTells(hs[0].(produced := RowUnion(hs[0].produced, produced)), hs[1..], a, e);
    } else {
      MergeTells(hs[1..], action, produced, a, e);
      ConsTells(hs[0], MergeHandler(hs[1..], action, produced), a, e);
    }
  }

  /** Recording a handler adds its action and its effects under that action, and nothing else. */
  lemma UnionTells(hs: seq<DefaultHandler>, action: Effect, produced: EffectRow, rank: Effect -> Rank, a: Effect, e: Effect)
    ensures Makes(UnionHandler(hs, action, produced, rank), a, e) <==> Makes(hs, a, e) || (a == action && e in produced.effects)
    ensures HandledIn(UnionHandler(hs, action, produced, rank), a) <==> HandledIn(hs, a) || a == action
  {
    HandledIsHasHandler(hs, action);
    if HasHandler(hs, action) {
      MergeTells(hs, action, produced, a, e);
    } else {
      var h := DefaultHandler(action, produced);
      SortElems(hs + [h], HandlerKey(rank));
      ElemsAppend(hs, [h]);
      ElemsAppend([h], hs);
      SameElemsTell(SortBy(hs + [h], HandlerKey(rank)), [h] + hs, a, e);
      ConsTells(h, hs, a, e);
    }
  }

  lemma {:induction false} UnionsTell(hs: seq<DefaultHandler>, added: seq<DefaultHandler>, rank: Effect -> Rank, a: Effect, e: Effect)
    ensures Makes(UnionHandlers(hs, added, rank), a, e) <==> Makes(hs, a, e) || Makes(added, a, e)
    ensures HandledIn(UnionHandlers(hs, added, rank), a) <==> HandledIn(hs, a) || HandledIn(added, a)
    decreases |added|
  {
    if added != [] {
      var next := UnionHandler(hs, added[0].action, added[0].produced, rank);
      UnionTells(hs, added[0].action, added[0].produced, rank, a, e);
      UnionsTell(next, added[1..], rank, a, e);
      assert added == [added[0]] + added[1..];
      ConsTells(added[0], added[1..], a, e);
    }
  }

  lemma {:induction false} FilterTells(r: Registry, hs: seq<DefaultHandler>, handled: EffectRow, a: Effect, e: Effect)
    ensures Makes(FilterHandlers(r, hs, handled), a, e) <==>
              Makes(hs, a, e) && !CoveredBy(r, handled.effects, a) && !CoveredBy(r, handled.effects, e)
    ensures HandledIn(FilterHandlers(r, hs, handled), a) <==> HandledIn(hs, a) && !CoveredBy(r, handled.effects, a)
  {
    if hs != [] {
      assert hs == [hs[0]] + hs[1..];
      ConsTells(hs[0], hs[1..], a, e);
      FilterTells(r, hs[1..], handled, a, e);
      ConsTells(hs[0].(produced := SubtractHandled(r, hs[0].produced, handled)), FilterHandlers(r, hs[1..], handled), a, e);
    }
  }

  lemma {:induction false} RemoveTells(hs: seq<DefaultHandler>, x: Effect, a: Effect, e: Effect)
    ensures Makes(RemoveFromHandlers(hs, x), a, e) <==> Makes(hs, a, e) && e != x
    ensures HandledIn(RemoveFromHandlers(hs, x), a) <==> HandledIn(hs, a)
  {
    if hs != [] {
      assert hs == [hs[0]] + hs[1..];
      ConsTells(hs[0], hs[1..], a, e);
      RemoveTells(hs[1..], x, a, e);
      ConsTells(hs[0].(produced := RemoveFromRow(hs[0].produced, x)), RemoveFromHandlers(hs[1..], x), a, e);
    }
  }

  lemma {:induction false} SilencedTells(hs: seq<DefaultHandler>, a: Effect, e: Effect)
    ensures !Makes(Silenced(hs), a, e) && (HandledIn(Silenced(hs), a) <==> HandledIn(hs, a))
  {
    if hs != [] {
      assert hs == [hs[0]] + hs[1..];
      ConsTells(hs[0], hs[1..], a, e);
      SilencedTells(hs[1..], a, e);
      ConsTells(hs[0].(produced := EmptyRow), Silenced(hs[1..]), a, e);
    }
  }

  ghost predicate MadeSomehow(hs: seq<DefaultHandler>, e: Effect)
  {
    exists a :: Makes(hs, a, e)
  }

  lemma MadeIsProduced(hs: seq<DefaultHandler>, e: Effect)
    ensures ProducedBy(hs, e) <==> MadeSomehow(hs, e)
  {
    if ProducedBy(hs, e) {
      var i :| 0 <= i < |hs| && e in hs[i].produced.effects;
      assert hs[i] in hs;
      assert Makes(hs, hs[i].action, e);
    }
    if a :| Makes(hs, a, e) {
      var h :| h in hs && h.action == a && e in h.produced.effects;
      var i :| 0 <= i < |hs| && hs[i] == h;
    }
  }

  // ----- Summaries. -----

  /** The default handlers of the summary, if any. */
  function HandlersOf(s: Summary): seq<DefaultHandler>
  {
    if s.defaults.Some? then s.defaults.value.handlers else []
  }

  /** The row that escapes without any default handler. */
  function DirectRow(s: Summary): EffectRow
  {
    if s.defaults.Some? then s.defaults.value.direct else s.escaping
  }

  /** In a balanced summary an effect escapes exactly when it does so directly or a handler produces it. */
  lemma EscapesExactly(s: Summary, e: Effect)
    requires Balanced(s)
    ensures e in s.escaping.effects <==> e in DirectRow(s).effects || MadeSomehow(HandlersOf(s), e)
  {
    MadeIsProduced(HandlersOf(s), e);
    if s.defaults.Some? {
      JoinProducedEffects(s.defaults.value.direct, s.defaults.value.handlers, e);
    }
  }

  /** Everything but escaping row and default handlers is as it was. */
  predicate OthersKept(after: Summary, before: Summary)
  {
    after == before.(defaults := after.defaults, escaping := after.escaping)
  }

  /** A recorded row joins what escapes directly, tail included; handlers stay. */
  lemma RecordedRow(s: Summary, row: EffectRow, a: Effect, e: Effect)
    requires Balanced(s)
    ensures var t := RecordEscaping(s, row);
            && Balanced(t) && OthersKept(t, s)
            && (e in DirectRow(t).effects <==> e in DirectRow(s).effects || e in row.effects)
            && DirectRow(t).open == (if DirectRow(s).open.Some? then DirectRow(s).open else row.open)
            && HandlersOf(t) == HandlersOf(s)
            && (e in t.escaping.effects <==> e in s.escaping.effects || e in row.effects)
  {
    var t := RecordEscaping(s, row);
    EscapesExactly(s, e);
    EscapesExactly(t, e);
  }

  /** A recorded handler adds its action and what it produces; the direct row stays. */
  lemma RecordedHandler(s: Summary, action: Effect, produced: EffectRow, rank: Effect -> Rank, a: Effect, e: Effect)
    requires Balanced(s)
    ensures var t := RecordDefault(s, action, produced, rank);
            && Balanced(t) && OthersKept(t, s) && DirectRow(t) == DirectRow(s)
            && (HandledIn(HandlersOf(t), a) <==> HandledIn(HandlersOf(s), a) || a == action)
            && (Makes(HandlersOf(t), a, e) <==> Makes(HandlersOf(s), a, e) || (a == action && e in produced.effects))
            && (e in t.escaping.effects <==> e in s.escaping.effects || e in produced.effects)
  {
    var t := RecordDefault(s, action, produced, rank);
    forall b
      ensures Makes(HandlersOf(t), b, e) <==> Makes(HandlersOf(s), b, e) || (b == action && e in produced.effects)
    {
      UnionTells(HandlersOf(s), action, produced, rank, b, e);
    }
    UnionTells(HandlersOf(s), action, produced, rank, a, e);
    EscapesExactly(s, e);
    EscapesExactly(t, e);
    assert e in produced.effects ==> Makes(HandlersOf(t), action, e);
  }

  /** A join has both direct rows and the handlers of both, action by action. */
  lemma JoinedHandlers(s: Summary, o: Summary, rank: Effect -> Rank, a: Effect, e: Effect)
    requires Balanced(s) && Balanced(o)
    ensures var t := JoinEscaping(s, o, rank);
            && Balanced(t) && OthersKept(t, s)
            && (e in DirectRow(t).effects <==> e in DirectRow(s).effects || e in DirectRow(o).effects)
            && (HandledIn(HandlersOf(t), a) <==> HandledIn(HandlersOf(s), a) || HandledIn(HandlersOf(o), a))
            && (Makes(HandlersOf(t), a, e) <==> Makes(HandlersOf(s), a, e) || Makes(HandlersOf(o), a, e))
            && (e in t.escaping.effects <==> e in s.escaping.effects || e in o.escaping.effects)
  {
    JoinEscapingEffects(s, o, rank, e);
    UnionsTell(HandlersOf(s), HandlersOf(o), rank, a, e);
  }

  /** Subtraction keeps exactly the handlers of uncovered actions, with the effects that are uncovered. */
  lemma SubtractedHandlers(r: Registry, s: Summary, handled: EffectRow, a: Effect, e: Effect)
    ensures var t := Subtract(r, s, handled);
            && (e in DirectRow(t).effects <==> e in DirectRow(s).effects && !CoveredBy(r, handled.effects, e))
            && DirectRow(t).open == DirectRow(s).open
            && (HandledIn(HandlersOf(t), a) <==> HandledIn(HandlersOf(s), a) && !CoveredBy(r, handled.effects, a))
            && (Makes(HandlersOf(t), a, e) <==>
                  Makes(HandlersOf(s), a, e) && !CoveredBy(r, handled.effects, a) && !CoveredBy(r, handled.effects, e))
  {
    FilterTells(r, HandlersOf(s), handled, a, e);
  }

  /**
   * Subtraction keeps exactly the action requests that nothing handled covers, and every parameter request
   * with the handled effects excluded as well; unavailable evidence stays so, and other rows stay.
   */
  lemma SubtractedRequests(r: Registry, s: Summary, handled: EffectRow, q: ActionRequest, p: ParameterRequest)
    ensures var t := Subtract(r, s, handled);
            && (t.requests.Unavailable? <==> s.requests.Unavailable?)
            && (s.requests.Available? ==>
                  && (q in t.requests.actions <==> q in s.requests.actions && !CoveredBy(r, handled.effects, q.action))
                  && (p in t.requests.parameters <==>
                        exists o :: o in s.requests.parameters && p == o.(excluded := o.excluded + handled.effects)))
            && t == s.(requests := t.requests, escaping := t.escaping, defaults := t.defaults)
  {
    if s.requests.Available? {
      if p in Subtract(r, s, handled).requests.parameters {
        var o :| o in s.requests.parameters && p == Exclude(o, handled.effects);
      }
      if o :| o in s.requests.parameters && p == o.(excluded := o.excluded + handled.effects) {
        assert p == Exclude(o, handled.effects);
      }
    }
  }

  /** Removal takes exactly the effect from the direct row and from every handler. */
  lemma RemovedEffect(s: Summary, x: Effect, a: Effect, e: Effect)
    requires Balanced(s)
    ensures var t := RemoveEscaping(s, x);
            && Balanced(t) && OthersKept(t, s)
            && (e in DirectRow(t).effects <==> e in DirectRow(s).effects && e != x) && DirectRow(t).open == DirectRow(s).open
            && (HandledIn(HandlersOf(t), a) <==> HandledIn(HandlersOf(s), a))
            && (Makes(HandlersOf(t), a, e) <==> Makes(HandlersOf(s), a, e) && e != x)
            && (e in t.escaping.effects <==> e in s.escaping.effects && e != x)
  {
    var t := RemoveEscaping(s, x);
    RemoveTells(HandlersOf(s), x, a, e);
    forall b
      ensures Makes(HandlersOf(t), b, e) <==> Makes(HandlersOf(s), b, e) && e != x
    {
      RemoveTells(HandlersOf(s), x, b, e);
    }
    EscapesExactly(s, e);
    EscapesExactly(t, e);
  }

  /** The footprint merge adds the handlers' actions and nothing they produce. */
  lemma MergedFootprint(s: Summary, o: Summary, rank: Effect -> Rank, a: Effect, e: Effect)
    ensures var t := MergeFootprint(s, o, rank);
            && t.escaping == s.escaping && t.trace == s.trace && DirectRow(t) == DirectRow(s)
            && (HandledIn(HandlersOf(t), a) <==> HandledIn(HandlersOf(s), a) || HandledIn(HandlersOf(o), a))
            && (Makes(HandlersOf(t), a, e) <==> Makes(HandlersOf(s), a, e))
  {
    SilencedTells(HandlersOf(o), a, e);
    UnionsTell(HandlersOf(s), Silenced(HandlersOf(o)), rank, a, e);
  }

  // ----- Joined rows and facts. -----

  /** The row holds the effects of both, and the first tail there is. */
  ghost predicate RowJoins(t: EffectRow, a: EffectRow, b: EffectRow)
  {
    && (forall e :: e in t.effects <==> e in a.effects || e in b.effects)
    && t.open == if a.open.Some? then a.open else b.open
  }

  ghost predicate RequestsJoin(t: Requests, a: Requests, b: Requests)
  {
    && (t.Available? <==> a.Available? && b.Available?)
    && (t.Available? ==>
          && (forall q :: q in t.actions <==> q in a.actions || q in b.actions)
          && (forall p :: p in t.parameters <==> p in a.parameters || p in b.parameters))
  }

  /** Sequencing, branching and the footprint merge hold requests and rows of both sides. */
  lemma JoinedRows(s: Summary, o: Summary, keys: SortKeys, rank: Effect -> Rank)
    ensures forall t :: t in {SeqSummary(s, o, keys, rank), BranchSummary(s, o, keys, rank), MergeFootprint(s, o, rank)} ==>
              && RequestsJoin(t.requests, s.requests, o.requests) && RowJoins(t.requested, s.requested, o.requested)
              && RowJoins(t.defaultActions, s.defaultActions, o.defaultActions) && RowJoins(t.handled, s.handled, o.handled)
  {
    var j := JoinRows(s, o);
    assert RequestsJoin(j.requests, s.requests, o.requests) && RowJoins(j.requested, s.requested, o.requested);
    assert RowJoins(j.defaultActions, s.defaultActions, o.defaultActions) && RowJoins(j.handled, s.handled, o.handled);
  }

  /** The order in which facts grow: sets by inclusion, certainty and support downwards, unknown above all known. */
  predicate FactsLess(s: FullSummary, t: FullSummary)
  {
    && s.checks <= t.checks && s.obligations <= t.obligations && s.requirements <= t.requirements
    && DeterminismLess(s.determinism, t.determinism) && SupportLess(s.support, t.support)
    && (t.independent.None? || (s.independent.Some? && DeterminismLess(s.independent.value, t.independent.value)))
  }

  /** Every join of whole summaries has the least facts above those of both sides. */
  lemma FactsJoin(s: FullSummary, o: FullSummary, bound: FullSummary, ranks: Ranks, keys: SortKeys, rank: Effect -> Rank)
    ensures forall t :: t in {SeqFull(s, o, keys, rank), BranchFull(s, o, ranks, keys, rank), FootprintFull(s, o, rank)} ==>
              FactsLess(s, t) && FactsLess(o, t) && (FactsLess(s, bound) && FactsLess(o, bound) ==> FactsLess(t, bound))
  {
    var j := JoinFacts(s, o);
    assert FactsLess(s, j) && FactsLess(o, j);
    assert FactsLess(s, bound) && FactsLess(o, bound) ==> FactsLess(j, bound);
  }

  /** Only branching joins exits: an entry of either side stays, and missing exits add nothing. */
  lemma ExitsJoin(s: FullSummary, o: FullSummary, ranks: Ranks, keys: SortKeys, rank: Effect -> Rank, outcome: CallableOutcome)
    requires InjectiveRanks(ranks)
    ensures SeqFull(s, o, keys, rank).exits == s.exits && FootprintFull(s, o, rank).exits == s.exits
    ensures var t := BranchFull(s, o, ranks, keys, rank).exits;
            && (t.None? <==> s.exits.None? && o.exits.None?)
            && (t.Some? ==>
                  && (outcome in Outcomes(t.value.exits) <==>
                        (s.exits.Some? && outcome in Outcomes(s.exits.value.exits)) || (o.exits.Some? && outcome in Outcomes(o.exits.value.exits)))
                  && (forall g :: g in t.value.gaps <==>
                        (s.exits.Some? && g in s.exits.value.gaps) || (o.exits.Some? && g in o.exits.value.gaps)))
  {
    if s.exits.Some? && o.exits.Some? {
      UpsertAllOutcomes(s.exits.value.exits, o.exits.value.exits, ranks, keys, outcome);
    }
  }

  /** Of this action and effect: what escapes, is handled and is produced does and is so on either side. */
  ghost predicate EscapesOfBoth(t: Summary, s: Summary, o: Summary, a: Effect, e: Effect)
  {
    && Balanced(t)
    && (e in t.escaping.effects <==> e in s.escaping.effects || e in o.escaping.effects)
    && (e in DirectRow(t).effects <==> e in DirectRow(s).effects || e in DirectRow(o).effects)
    && (Makes(HandlersOf(t), a, e) <==> Makes(HandlersOf(s), a, e) || Makes(HandlersOf(o), a, e))
    && (HandledIn(HandlersOf(t), a) <==> HandledIn(HandlersOf(s), a) || HandledIn(HandlersOf(o), a))
  }

  /**
   * One summary after the other: what escapes is what escapes from either, and the words are exactly those
   * of the first followed by those of the second, or all over their letters where the order is lost.
   */
  lemma SequencedSummary(s: Summary, o: Summary, keys: SortKeys, rank: Effect -> Rank, w: Word, a: Effect, e: Effect)
    requires Balanced(s) && Balanced(o)
    ensures var t := SeqSummary(s, o, keys, rank);
            && EscapesOfBoth(t, s, o, a, e)
            && (In(w, t.trace) <==>
                  if SeqLoses(s.trace, o.trace) then Over(w, Letters(s.trace) + Letters(o.trace)) else Concatenates(w, s.trace, o.trace))
  {
    JoinedHandlers(s, o, rank, a, e);
    SeqMeaning(w, s.trace, o.trace, keys);
  }

  /** One summary or the other: the words are exactly those of either, or all over their letters where the order is lost. */
  lemma BranchedSummary(s: Summary, o: Summary, keys: SortKeys, rank: Effect -> Rank, w: Word, a: Effect, e: Effect)
    requires Balanced(s) && Balanced(o) && Injective(keys)
    ensures var t := BranchSummary(s, o, keys, rank);
            && EscapesOfBoth(t, s, o, a, e)
            && (In(w, t.trace) <==>
                  if ChoiceLoses(s.trace, o.trace) then Over(w, Letters(s.trace) + Letters(o.trace)) else In(w, s.trace) || In(w, o.trace))
  {
    JoinedHandlers(s, o, rank, a, e);
    ChoiceMeaning(w, s.trace, o.trace, keys);
  }

  lemma {:induction false} UpsertAllOutcomes(s: seq<ExitFact>, log: seq<ExitFact>, ranks: Ranks, keys: SortKeys, o: CallableOutcome)
    requires InjectiveRanks(ranks)
    ensures o in Outcomes(UpsertAll(s, log, ExitRank(ranks), MergeExit(keys))) <==> o in Outcomes(s) || o in Outcomes(log)
    decreases |log|
  {
    if log != [] {
      var next := Upsert(s, log[0], ExitRank(ranks), MergeExit(keys));
      UpsertOutcomes(s, log[0], ranks, keys, o);
      UpsertAllOutcomes(next, log[1..], ranks, keys, o);
      assert forall f :: f in log <==> f == log[0] || f in log[1..];
    }
  }

  lemma UpsertOutcomes(s: seq<ExitFact>, f: ExitFact, ranks: Ranks, keys: SortKeys, o: CallableOutcome)
    requires InjectiveRanks(ranks)
    ensures o in Outcomes(Upsert(s, f, ExitRank(ranks), MergeExit(keys))) <==> o in Outcomes(s) || o == f.outcome
  {
    var key, merge := ExitRank(ranks), MergeExit(keys);
    if Lookup(s, key(f), key).Some? {
      MergeAtOutcomes(s, f, ranks, keys, o);
    } else {
      SortElems(s + [f], key);
      var sorted := SortBy(s + [f], key);
      assert forall x :: x in sorted <==> x in Elems(s + [f]);
      assert forall x :: x in s + [f] <==> x in s || x == f;
      assert f in s + [f];
    }
  }

  lemma {:induction false} MergeAtOutcomes(s: seq<ExitFact>, f: ExitFact, ranks: Ranks, keys: SortKeys, o: CallableOutcome)
    requires InjectiveRanks(ranks) && Lookup(s, ExitRank(ranks)(f), ExitRank(ranks)).Some?
    ensures o in Outcomes(MergeAt(s, f, ExitRank(ranks), MergeExit(keys))) <==> o in Outcomes(s) || o == f.outcome
  {
    var key, merge := ExitRank(ranks), MergeExit(keys);
    OutcomesCons(s[0], s[1..], o);
    assert s == [s[0]] + s[1..];
    if key(s[0]) == key(f) {
      OutcomesCons(merge(s[0], f), s[1..], o);
    } else {
      MergeAtOutcomes(s[1..], f, ranks, keys, o);
      OutcomesCons(s[0], MergeAt(s[1..], f, key, merge), o);
    }
  }

  lemma OutcomesCons(f: ExitFact, fs: seq<ExitFact>, o: CallableOutcome)
    ensures o in Outcomes([f] + fs) <==> o == f.outcome || o in Outcomes(fs)
  {
    assert f in [f] + fs;
    assert forall x :: x in [f] + fs <==> x == f || x in fs;
  }
}
