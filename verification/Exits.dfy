/** Callable exit summaries (crates/etas_effects/src/infer/outcome.rs). */
module Exits {
  import opened Prelude
  import opened Effects
  import opened Traces
  import opened Words
  import opened SortedLists
  import opened TraceOps

  type ReturnSource = nat

  datatype ReturnObservation =
    | AnyValue
    | UnitValue
    | BoolValue(value: bool)
    | Variant(symbol: nat)
    | CallableSources(sources: set<ReturnSource>)

  datatype CallableOutcome =
    | Returned(ty: TypeId, observation: ReturnObservation)
    | HandlerFinished(ty: TypeId, observation: ReturnObservation)
    | HandlerResumed(ty: TypeId, observation: ReturnObservation)
    | Raised(error: TypeId)
    | NonReturn

  datatype ExitFact = ExitFact(outcome: CallableOutcome, trace: Trace)

  datatype ExitArgument = ExitArgument(name: Option<string>, ty: TypeId, source: Span, value: Option<int>)

  /** The evidence key of a parameter exit. */
  datatype ExitKey = ExitKey(
    target: ParameterCallTarget,
    output: TypeId,
    source: Span,
    arguments: Option<seq<ExitArgument>>,
    enclosingHandlers: Option<seq<nat>>
  )

  datatype ParameterExit = ParameterExit(
    exitKey: ExitKey,
    handlerFree: Option<bool>,
    enclosingHandled: Option<EffectRow>,
    prefix: Trace
  )

  datatype Gap =
    | MissingReturnType
    | MissingReturnObservation
    | ParameterCallGap(call: nat, output: TypeId)
    | OtherGap(id: nat)

  datatype HandlerGapEvidence = HandlerGapEvidence(source: Span, normalControl: bool, handled: EffectRow, bodyEscaping: EffectRow)

  // ----- Merging evidence. -----

  function MergeFree(a: Option<bool>, b: Option<bool>): Option<bool>
  {
    if a != b && a.Some? then None else a
  }

  function MergeHandled(a: Option<EffectRow>, b: Option<EffectRow>): Option<EffectRow>
  {
    if a.Some? && b.Some? && !TailsConflict(a.value, b.value) then Some(RowUnion(a.value, b.value)) else None
  }

  function MergeParameter(keys: SortKeys): (ParameterExit, ParameterExit) -> ParameterExit
  {
    (a: ParameterExit, b: ParameterExit) =>
      a.(prefix := ChoiceOp(a.prefix, b.prefix, keys),
         handlerFree := MergeFree(a.handlerFree, b.handlerFree),
         enclosingHandled := MergeHandled(a.enclosingHandled, b.enclosingHandled))
  }

  function MergeExit(keys: SortKeys): (ExitFact, ExitFact) -> ExitFact
  {
    (a: ExitFact, b: ExitFact) => a.(trace := ChoiceOp(a.trace, b.trace, keys))
  }

  /** The orders by which the two lists are sorted. */
  datatype Ranks = Ranks(outcome: CallableOutcome -> Rank, parameter: ExitKey -> Rank)

  ghost predicate InjectiveRanks(ranks: Ranks)
  {
    && (forall a, b :: ranks.outcome(a) == ranks.outcome(b) ==> a == b)
    && (forall a, b :: ranks.parameter(a) == ranks.parameter(b) ==> a == b)
  }

  function ExitRank(ranks: Ranks): ExitFact -> Rank
  {
    (f: ExitFact) => ranks.outcome(f.outcome)
  }

  function ParameterRank(ranks: Ranks): ParameterExit -> Rank
  {
    (f: ParameterExit) => ranks.parameter(f.exitKey)
  }

  // ----- The exit summary as a value, and runs of recording. -----

  datatype ExitSummary = ExitSummary(
    exits: seq<ExitFact>,
    gaps: set<Gap>,
    parameterExits: seq<ParameterExit>,
    handlerGaps: set<HandlerGapEvidence>
  )

  const NoExits := ExitSummary([], {}, [], {})

  function JoinExits(s: ExitSummary, o: ExitSummary, ranks: Ranks, keys: SortKeys): ExitSummary
  {
    ExitSummary(UpsertAll(s.exits, o.exits, ExitRank(ranks), MergeExit(keys)),
                s.gaps + o.gaps,
                UpsertAll(s.parameterExits, o.parameterExits, ParameterRank(ranks), MergeParameter(keys)),
                s.handlerGaps + o.handlerGaps)
  }

  // ----- Stabilizing for the fixpoint. -----

  /** The trace the outcome had before, if it had one. */
  function OldTrace(fs: seq<ExitFact>, o: CallableOutcome): Option<Trace>
  {
    if fs == [] then None else if fs[0].outcome == o then Some(fs[0].trace) else OldTrace(fs[1..], o)
  }

  /** The keys agree but for the enclosing handlers, which the search for an old prefix does not look at. */
  predicate SameCall(a: ExitKey, b: ExitKey)
  {
    a.target == b.target && a.output == b.output && a.source == b.source && a.arguments == b.arguments
  }

  function OldPrefix(ps: seq<ParameterExit>, k: ExitKey): Option<Trace>
  {
    if ps == [] then None else if SameCall(ps[0].exitKey, k) then Some(ps[0].prefix) else OldPrefix(ps[1..], k)
  }

  function StabilizeExit(previous: Option<ExitSummary>, keys: SortKeys): ExitFact -> ExitFact
  {
    (f: ExitFact) => f.(trace := Stabilize(f.trace, if previous.Some? then OldTrace(previous.value.exits, f.outcome) else None, keys))
  }

  function StabilizeParameter(previous: Option<ExitSummary>, keys: SortKeys): ParameterExit -> ParameterExit
  {
    (p: ParameterExit) =>
      p.(prefix := Stabilize(p.prefix, if previous.Some? then OldPrefix(previous.value.parameterExits, p.exitKey) else None, keys))
  }

  function StabilizeExits(s: ExitSummary, previous: Option<ExitSummary>, keys: SortKeys): ExitSummary
  {
    s.(exits := SettleAll(s.exits, StabilizeExit(previous, keys)),
       parameterExits := SettleAll(s.parameterExits, StabilizeParameter(previous, keys)))
  }

  /** The trace fits the fixpoint's limit and has lost neither a letter nor a word of the old one. */
  ghost predicate StableForm(t: Trace, was: Trace)
  {
    && Size(t) <= FixpointTraceNodeLimit && !ContainsRepeat(t) && Letters(t) == Letters(was)
    && forall w :: In(w, was) ==> In(w, t)
  }

  lemma StabilizeStable(t: Trace, current: Option<Trace>, keys: SortKeys)
    ensures StableForm(Stabilize(t, current, keys), t)
  {
    RepeatStabilizeLetters(t, current, keys);
    forall w | In(w, t)
      ensures In(w, Stabilize(t, current, keys))
    {
      WidenSound(w, t, current, keys);
    }
  }

  /** Every trace of the summary is stabilized; outcomes, keys, evidence and gaps stay. */
  ghost predicate StableExits(s: ExitSummary, was: ExitSummary)
  {
    && |s.exits| == |was.exits| && |s.parameterExits| == |was.parameterExits|
    && s.gaps == was.gaps && s.handlerGaps == was.handlerGaps
    && (forall i :: 0 <= i < |s.exits| ==> s.exits[i].outcome == was.exits[i].outcome && StableForm(s.exits[i].trace, was.exits[i].trace))
    && (forall i :: 0 <= i < |s.parameterExits| ==>
          && s.parameterExits[i] == was.parameterExits[i].(prefix := s.parameterExits[i].prefix)
          && StableForm(s.parameterExits[i].prefix, was.parameterExits[i].prefix))
  }

  lemma StabilizeExitsStable(s: ExitSummary, previous: Option<ExitSummary>, keys: SortKeys)
    ensures StableExits(StabilizeExits(s, previous, keys), s)
  {
    var r := StabilizeExits(s, previous, keys);
    forall i | 0 <= i < |s.exits|
      ensures r.exits[i].outcome == s.exits[i].outcome && StableForm(r.exits[i].trace, s.exits[i].trace)
    {
      StabilizeStable(s.exits[i].trace, if previous.Some? then OldTrace(previous.value.exits, s.exits[i].outcome) else None, keys);
    }
    forall i | 0 <= i < |s.parameterExits|
      ensures r.parameterExits[i] == s.parameterExits[i].(prefix := r.parameterExits[i].prefix)
      ensures StableForm(r.parameterExits[i].prefix, s.parameterExits[i].prefix)
    {
      var p := s.parameterExits[i];
      StabilizeStable(p.prefix, if previous.Some? then OldPrefix(previous.value.parameterExits, p.exitKey) else None, keys);
    }
  }

  /** Exits have one entry per outcome in order, parameter exits one entry per key in order. */
  ghost predicate Canonical(s: ExitSummary, ranks: Ranks)
  {
    Strictly(s.exits, ExitRank(ranks)) && Strictly(s.parameterExits, ParameterRank(ranks))
  }

  lemma StabilizedCanonical(s: ExitSummary, previous: Option<ExitSummary>, ranks: Ranks, keys: SortKeys)
    requires Canonical(s, ranks)
    ensures Canonical(StabilizeExits(s, previous, keys), ranks)
  {
  }

  lemma MergesKeepKeys(ranks: Ranks, keys: SortKeys)
    ensures KeepsKey(ExitRank(ranks), MergeExit(keys)) && KeepsKey(ParameterRank(ranks), MergeParameter(keys))
  {
  }

  lemma JoinExitsCanonical(s: ExitSummary, o: ExitSummary, ranks: Ranks, keys: SortKeys)
    requires Canonical(s, ranks)
    ensures Canonical(JoinExits(s, o, ranks, keys), ranks)
  {
    MergesKeepKeys(ranks, keys);
    UpsertAllStrictly(s.exits, o.exits, ExitRank(ranks), MergeExit(keys));
    UpsertAllStrictly(s.parameterExits, o.parameterExits, ParameterRank(ranks), MergeParameter(keys));
  }

  // ----- What the merged evidence says about the records. -----

  // What a log says about one key, whatever its order.

  ghost predicate Recorded(log: seq<ParameterExit>, k: ExitKey)
  {
    exists r :: r in log && r.exitKey == k
  }

  ghost predicate AgreeOn(log: seq<ParameterExit>, k: ExitKey, v: bool)
  {
    forall r :: r in log && r.exitKey == k ==> r.handlerFree == Some(v)
  }

  ghost predicate RowsKnown(log: seq<ParameterExit>, k: ExitKey)
  {
    && (forall r :: r in log && r.exitKey == k ==> r.enclosingHandled.Some?)
    && (forall r, q :: r in log && q in log && r.exitKey == k && q.exitKey == k ==>
          !TailsConflict(r.enclosingHandled.value, q.enclosingHandled.value))
  }

  ghost predicate HandledSomewhere(log: seq<ParameterExit>, k: ExitKey, e: Effect)
  {
    exists r :: r in log && r.exitKey == k && r.enclosingHandled.Some? && e in r.enclosingHandled.value.effects
  }

  ghost predicate OpenSomewhere(log: seq<ParameterExit>, k: ExitKey, t: nat)
  {
    exists r :: r in log && r.exitKey == k && r.enclosingHandled.Some? && r.enclosingHandled.value.open == Some(t)
  }

  /** The entry carries exactly the evidence of the log. */
  ghost predicate Evidence(entry: ParameterExit, log: seq<ParameterExit>, k: ExitKey)
  {
    && entry.exitKey == k
    && (forall v :: entry.handlerFree == Some(v) <==> AgreeOn(log, k, v))
    && (entry.enclosingHandled.Some? <==> RowsKnown(log, k))
    && (entry.enclosingHandled.Some? ==>
          && (forall e :: e in entry.enclosingHandled.value.effects <==> HandledSomewhere(log, k, e))
          && (forall t: nat :: entry.enclosingHandled.value.open == Some(t) <==> OpenSomewhere(log, k, t)))
  }

  /** The entry of a key after a run that starts from an empty summary. */
  function EntryOf(run: Run<ParameterExit>, k: ExitKey, ranks: Ranks, keys: SortKeys): Option<ParameterExit>
  {
    Lookup(Entries(run, ParameterRank(ranks), MergeParameter(keys)), ranks.parameter(k), ParameterRank(ranks))
  }

  lemma EvidenceWeakens(entry: ParameterExit, a: seq<ParameterExit>, b: seq<ParameterExit>, k: ExitKey)
    requires Evidence(entry, a, k) && forall r :: r in b && r.exitKey == k ==> r in a
    requires forall r :: r in a ==> r in b
    ensures Evidence(entry, b, k)
  {
    assert forall v :: AgreeOn(a, k, v) <==> AgreeOn(b, k, v);
    assert forall e :: HandledSomewhere(a, k, e) <==> HandledSomewhere(b, k, e);
    assert forall t: nat :: OpenSomewhere(a, k, t) <==> OpenSomewhere(b, k, t);
  }

  lemma OwnEvidence(r: ParameterExit)
    ensures Evidence(r, [r], r.exitKey)
  {
    assert r in [r];
    assert forall v :: AgreeOn([r], r.exitKey, v) <==> r.handlerFree == Some(v);
    assert RowsKnown([r], r.exitKey) <==> r.enclosingHandled.Some?;
    if r.enclosingHandled.Some? {
      assert forall e :: HandledSomewhere([r], r.exitKey, e) <==> e in r.enclosingHandled.value.effects;
      assert forall t: nat :: OpenSomewhere([r], r.exitKey, t) <==> r.enclosingHandled.value.open == Some(t);
    }
  }

  /** No row of one log is open on another variable than a row of the other. */
  lemma RowsKnownTogether(x: EffectRow, y: EffectRow, a: seq<ParameterExit>, b: seq<ParameterExit>, k: ExitKey)
    requires RowsKnown(a, k) && RowsKnown(b, k)
    requires forall t: nat :: x.open == Some(t) <==> OpenSomewhere(a, k, t)
    requires forall t: nat :: y.open == Some(t) <==> OpenSomewhere(b, k, t)
    ensures RowsKnown(a + b, k) <==> !TailsConflict(x, y)
  {
    var both := a + b;
    assert forall r :: r in both <==> r in a || r in b;
    if TailsConflict(x, y) {
      assert OpenSomewhere(a, k, x.open.value) && OpenSomewhere(b, k, y.open.value);
      var r :| r in a && r.exitKey == k && r.enclosingHandled.Some? && r.enclosingHandled.value.open == x.open;
      var q :| q in b && q.exitKey == k && q.enclosingHandled.Some? && q.enclosingHandled.value.open == y.open;
      assert r in both && q in both && TailsConflict(r.enclosingHandled.value, q.enclosingHandled.value);
    } else {
      forall r, q | r in both && q in both && r.exitKey == k && q.exitKey == k
        ensures !TailsConflict(r.enclosingHandled.value, q.enclosingHandled.value)
      {
        var s, t := r.enclosingHandled.value.open, q.enclosingHandled.value.open;
        if s.Some? && t.Some? {
          assert r in a ==> OpenSomewhere(a, k, s.value);
          assert r in b ==> OpenSomewhere(b, k, s.value);
          assert q in a ==> OpenSomewhere(a, k, t.value);
          assert q in b ==> OpenSomewhere(b, k, t.value);
        }
      }
    }
  }

  lemma RowsKnownParts(a: seq<ParameterExit>, b: seq<ParameterExit>, k: ExitKey)
    requires RowsKnown(a + b, k)
    ensures RowsKnown(a, k) && RowsKnown(b, k)
  {
    assert forall r :: r in a || r in b ==> r in a + b;
  }

  /** Merging two entries gives the evidence of both logs together. */
  lemma EvidenceMerges(x: ParameterExit, y: ParameterExit, a: seq<ParameterExit>, b: seq<ParameterExit>, k: ExitKey, keys: SortKeys)
    requires Evidence(x, a, k) && Evidence(y, b, k)
    ensures Evidence(MergeParameter(keys)(x, y), a + b, k)
  {
    var both, merged := a + b, MergeParameter(keys)(x, y);
    assert forall r :: r in both <==> r in a || r in b;
    assert forall v :: AgreeOn(both, k, v) <==> AgreeOn(a, k, v) && AgreeOn(b, k, v);
    FreeOfBoth(x.handlerFree, y.handlerFree);
    if RowsKnown(both, k) {
      RowsKnownParts(a, b, k);
    }
    if x.enclosingHandled.Some? && y.enclosingHandled.Some? {
      RowsKnownTogether(x.enclosingHandled.value, y.enclosingHandled.value, a, b, k);
      assert forall e :: HandledSomewhere(both, k, e) <==> HandledSomewhere(a, k, e) || HandledSomewhere(b, k, e);
      assert forall t: nat :: OpenSomewhere(both, k, t) <==> OpenSomewhere(a, k, t) || OpenSomewhere(b, k, t);
    }
  }

  lemma FreeOfBoth(x: Option<bool>, y: Option<bool>)
    ensures forall v :: MergeFree(x, y) == Some(v) <==> x == Some(v) && y == Some(v)
  {
  }

  /** An entry under a key is there exactly when the key was recorded, and carries the log's evidence. */
  ghost predicate EntryTells(entry: Option<ParameterExit>, log: seq<ParameterExit>, k: ExitKey)
  {
    (entry.Some? <==> Recorded(log, k)) && (entry.Some? ==> Evidence(entry.value, log, k))
  }

  lemma EntriesMerge(x: Option<ParameterExit>, y: Option<ParameterExit>, a: seq<ParameterExit>, b: seq<ParameterExit>, k: ExitKey, keys: SortKeys)
    requires EntryTells(x, a, k) && EntryTells(y, b, k)
    ensures EntryTells(MergedEntry(x, y, MergeParameter(keys)), a + b, k)
  {
    assert forall r :: r in a + b <==> r in a || r in b;
    assert Recorded(a + b, k) <==> Recorded(a, k) || Recorded(b, k);
    if x.Some? && y.Some? {
      EvidenceMerges(x.value, y.value, a, b, k, keys);
    } else if x.Some? {
      EvidenceWeakens(x.value, a, a + b, k);
    } else if y.Some? {
      EvidenceWeakens(y.value, b, a + b, k);
    }
  }

  lemma OwnEntryTells(r: ParameterExit, k: ExitKey)
    ensures EntryTells(if r.exitKey == k then Some(r) else None, [r], k)
  {
    assert r in [r];
    OwnEvidence(r);
  }

  /** Settling touches prefixes only. */
  ghost predicate SettlesPrefixes(run: Run<ParameterExit>)
  {
    match run
    case Start => true
    case Recording(before, _) => SettlesPrefixes(before)
    case Joining(before, other) => SettlesPrefixes(before) && SettlesPrefixes(other)
    case Settling(before, settle) => SettlesPrefixes(before) && forall p :: PrefixOnly(p, settle(p))
  }

  predicate PrefixOnly(p: ParameterExit, settled: ParameterExit)
  {
    settled == p.(prefix := settled.prefix)
  }

  lemma {:induction false} PrefixesInPlace(run: Run<ParameterExit>, ranks: Ranks)
    requires SettlesPrefixes(run)
    ensures SettlesInPlace(run, ParameterRank(ranks))
  {
    match run
    case Start =>
    case Recording(before, _) => PrefixesInPlace(before, ranks);
    case Joining(before, other) =>
      PrefixesInPlace(before, ranks);
      PrefixesInPlace(other, ranks);
    case Settling(before, settle) =>
      PrefixesInPlace(before, ranks);
      forall p
        ensures ParameterRank(ranks)(settle(p)) == ParameterRank(ranks)(p)
      {
        assert PrefixOnly(p, settle(p));
      }
  }

  /**
   * Exit evidence after any run of record, join and stabilize calls: a key has an entry exactly when it was
   * recorded; `handler_free` is known exactly when all its records agree; the enclosing row is known
   * exactly when all its records are known without conflicting tails, and is then their union.
   */
  lemma {:induction false} ExitEvidence(run: Run<ParameterExit>, k: ExitKey, ranks: Ranks, keys: SortKeys)
    requires InjectiveRanks(ranks) && SettlesPrefixes(run)
    ensures EntryTells(EntryOf(run, k, ranks, keys), LogOf(run), k)
  {
    MergesKeepKeys(ranks, keys);
    PrefixesInPlace(run, ranks);
    var key, merge := ParameterRank(ranks), MergeParameter(keys);
    match run
    case Start =>
    case Recording(before, fact) =>
      ExitEvidence(before, k, ranks, keys);
      EntriesStrictly(before, key, merge);
      UpsertLookup(Entries(before, key, merge), fact, key, merge, ranks.parameter(k));
      OwnEntryTells(fact, k);
      EntriesMerge(EntryOf(before, k, ranks, keys), if fact.exitKey == k then Some(fact) else None, LogOf(before), [fact], k, keys);
    case Joining(before, other) =>
      ExitEvidence(before, k, ranks, keys);
      ExitEvidence(other, k, ranks, keys);
      EntriesStrictly(before, key, merge);
      EntriesStrictly(other, key, merge);
      UpsertAllLookup(Entries(before, key, merge), Entries(other, key, merge), key, merge, ranks.parameter(k));
      EntriesMerge(EntryOf(before, k, ranks, keys), EntryOf(other, k, ranks, keys), LogOf(before), LogOf(other), k, keys);
    case Settling(before, settle) =>
      ExitEvidence(before, k, ranks, keys);
      SettleLookup(Entries(before, key, merge), settle, ranks.parameter(k), key);
      var entry := EntryOf(before, k, ranks, keys);
      if entry.Some? {
        assert PrefixOnly(entry.value, settle(entry.value));
        SettledEvidence(entry.value, settle(entry.value), LogOf(before), k);
      }
  }

  lemma SettledEvidence(entry: ParameterExit, settled: ParameterExit, log: seq<ParameterExit>, k: ExitKey)
    requires Evidence(entry, log, k) && PrefixOnly(entry, settled)
    ensures Evidence(settled, log, k)
  {
    assert settled.handlerFree == entry.handlerFree && settled.enclosingHandled == entry.enclosingHandled && settled.exitKey == entry.exitKey;
  }

  /** Two runs over the same records, in any order, multiplicity and grouping, give every key the same evidence. */
  lemma EvidenceOrderIndependent(a: Run<ParameterExit>, b: Run<ParameterExit>, k: ExitKey, ranks: Ranks, keys: SortKeys)
    requires InjectiveRanks(ranks) && SettlesPrefixes(a) && SettlesPrefixes(b) && Elems(LogOf(a)) == Elems(LogOf(b))
    ensures var x, y := EntryOf(a, k, ranks, keys), EntryOf(b, k, ranks, keys);
            && x.Some? == y.Some?
            && (x.Some? ==> x.value.handlerFree == y.value.handlerFree && x.value.enclosingHandled == y.value.enclosingHandled)
  {
    var x, y := EntryOf(a, k, ranks, keys), EntryOf(b, k, ranks, keys);
    assert forall r :: r in LogOf(a) <==> r in Elems(LogOf(b));
    assert forall r :: r in LogOf(a) <==> r in LogOf(b);
    ExitEvidence(a, k, ranks, keys);
    ExitEvidence(b, k, ranks, keys);
    if x.Some? {
      SameEvidence(x.value, y.value, LogOf(a), LogOf(b), k);
    }
  }

  lemma SameEvidence(x: ParameterExit, y: ParameterExit, a: seq<ParameterExit>, b: seq<ParameterExit>, k: ExitKey)
    requires (forall r :: r in a <==> r in b) && Evidence(x, a, k) && Evidence(y, b, k)
    ensures x.handlerFree == y.handlerFree && x.enclosingHandled == y.enclosingHandled
  {
    forall v
      ensures x.handlerFree == Some(v) <==> y.handlerFree == Some(v)
    {
      assert AgreeOn(a, k, v) <==> AgreeOn(b, k, v);
    }
    assert x.handlerFree == Some(true) <==> y.handlerFree == Some(true);
    assert x.handlerFree == Some(false) <==> y.handlerFree == Some(false);
    assert RowsKnown(a, k) <==> RowsKnown(b, k);
    if x.enclosingHandled.Some? {
      var p, q := x.enclosingHandled.value, y.enclosingHandled.value;
      forall e
        ensures e in p.effects <==> e in q.effects
      {
        assert HandledSomewhere(a, k, e) <==> HandledSomewhere(b, k, e);
      }
      forall t: nat
        ensures p.open == Some(t) <==> q.open == Some(t)
      {
        assert OpenSomewhere(a, k, t) <==> OpenSomewhere(b, k, t);
      }
      assert p.effects == q.effects;
      assert p.open == q.open by {
        if p.open.Some? {
          assert q.open == Some(p.open.value);
        }
      }
    }
  }

  // ----- Outcomes. -----

  lemma MergedWord(w: Word, x: ExitFact, y: ExitFact, keys: SortKeys)
    requires In(w, x.trace) || In(w, y.trace)
    ensures In(w, MergeExit(keys)(x, y).trace)
  {
    ChoiceSound(w, x.trace, y.trace, keys);
  }

  function OutcomeEntry(run: Run<ExitFact>, o: CallableOutcome, ranks: Ranks, keys: SortKeys): Option<ExitFact>
  {
    Lookup(Entries(run, ExitRank(ranks), MergeExit(keys)), ranks.outcome(o), ExitRank(ranks))
  }

  ghost predicate OutcomeRecorded(log: seq<ExitFact>, o: CallableOutcome)
  {
    exists f :: f in log && f.outcome == o
  }

  /** An entry under an outcome is there exactly when the outcome was recorded, and carries all its words. */
  ghost predicate OutcomeTells(entry: Option<ExitFact>, log: seq<ExitFact>, o: CallableOutcome)
  {
    && (entry.Some? <==> OutcomeRecorded(log, o))
    && (entry.Some? ==>
          && entry.value.outcome == o
          && forall f, w :: f in log && f.outcome == o && In(w, f.trace) ==> In(w, entry.value.trace))
  }

  lemma OutcomesMerge(x: Option<ExitFact>, y: Option<ExitFact>, a: seq<ExitFact>, b: seq<ExitFact>, o: CallableOutcome, keys: SortKeys)
    requires OutcomeTells(x, a, o) && OutcomeTells(y, b, o)
    ensures OutcomeTells(MergedEntry(x, y, MergeExit(keys)), a + b, o)
  {
    assert forall f :: f in a + b <==> f in a || f in b;
    if x.Some? && y.Some? {
      forall f, w | f in a + b && f.outcome == o && In(w, f.trace)
        ensures In(w, MergeExit(keys)(x.value, y.value).trace)
      {
        MergedWord(w, x.value, y.value, keys);
      }
    }
  }

  lemma OwnOutcomeTells(f: ExitFact, o: CallableOutcome)
    ensures OutcomeTells(if f.outcome == o then Some(f) else None, [f], o)
  {
    assert f in [f];
  }

  /** Settling adds words to traces and touches nothing else. */
  ghost predicate SettlesTraces(run: Run<ExitFact>)
  {
    match run
    case Start => true
    case Recording(before, _) => SettlesTraces(before)
    case Joining(before, other) => SettlesTraces(before) && SettlesTraces(other)
    case Settling(before, settle) => SettlesTraces(before) && forall f :: AddsWords(f, settle(f))
  }

  ghost predicate AddsWords(f: ExitFact, settled: ExitFact)
  {
    settled.outcome == f.outcome && forall w :: In(w, f.trace) ==> In(w, settled.trace)
  }

  lemma {:induction false} TracesInPlace(run: Run<ExitFact>, ranks: Ranks)
    requires SettlesTraces(run)
    ensures SettlesInPlace(run, ExitRank(ranks))
  {
    match run
    case Start =>
    case Recording(before, _) => TracesInPlace(before, ranks);
    case Joining(before, other) =>
      TracesInPlace(before, ranks);
      TracesInPlace(other, ranks);
    case Settling(before, settle) =>
      TracesInPlace(before, ranks);
      forall f
        ensures ExitRank(ranks)(settle(f)) == ExitRank(ranks)(f)
      {
        assert AddsWords(f, settle(f));
      }
  }

  /** After any run an outcome has an entry exactly when it was recorded, and the entry keeps every recorded word. */
  lemma {:induction false} OutcomeEvidence(run: Run<ExitFact>, o: CallableOutcome, ranks: Ranks, keys: SortKeys)
    requires InjectiveRanks(ranks) && SettlesTraces(run)
    ensures OutcomeTells(OutcomeEntry(run, o, ranks, keys), LogOf(run), o)
  {
    MergesKeepKeys(ranks, keys);
    TracesInPlace(run, ranks);
    var key, merge := ExitRank(ranks), MergeExit(keys);
    match run
    case Start =>
    case Recording(before, fact) =>
      OutcomeEvidence(before, o, ranks, keys);
      EntriesStrictly(before, key, merge);
      UpsertLookup(Entries(before, key, merge), fact, key, merge, ranks.outcome(o));
      OwnOutcomeTells(fact, o);
      OutcomesMerge(OutcomeEntry(before, o, ranks, keys), if fact.outcome == o then Some(fact) else None, LogOf(before), [fact], o, keys);
    case Joining(before, other) =>
      OutcomeEvidence(before, o, ranks, keys);
      OutcomeEvidence(other, o, ranks, keys);
      EntriesStrictly(before, key, merge);
      EntriesStrictly(other, key, merge);
      UpsertAllLookup(Entries(before, key, merge), Entries(other, key, merge), key, merge, ranks.outcome(o));
      OutcomesMerge(OutcomeEntry(before, o, ranks, keys), OutcomeEntry(other, o, ranks, keys), LogOf(before), LogOf(other), o, keys);
    case Settling(before, settle) =>
      OutcomeEvidence(before, o, ranks, keys);
      SettleLookup(Entries(before, key, merge), settle, ranks.outcome(o), key);
      var entry := OutcomeEntry(before, o, ranks, keys);
      assert entry.Some? ==> AddsWords(entry.value, settle(entry.value));
  }

  lemma {:induction false} LookupMember<T>(s: seq<T>, k: Rank, key: T -> Rank)
    ensures Lookup(s, k, key).Some? ==> Lookup(s, k, key).value in s
  {
    if s != [] {
      LookupMember(s[1..], k, key);
    }
  }

  /** The outcomes in the list are exactly the recorded ones. */
  lemma OutcomesOfRun(run: Run<ExitFact>, o: CallableOutcome, ranks: Ranks, keys: SortKeys)
    requires InjectiveRanks(ranks) && SettlesTraces(run)
    ensures OutcomeRecorded(Entries(run, ExitRank(ranks), MergeExit(keys)), o) <==> OutcomeRecorded(LogOf(run), o)
  {
    var exits, key, k := Entries(run, ExitRank(ranks), MergeExit(keys)), ExitRank(ranks), ranks.outcome(o);
    OutcomeEvidence(run, o, ranks, keys);
    LookupMember(exits, k, key);
    LookupNone(exits, k, key);
    if f :| f in exits && f.outcome == o {
      var i :| 0 <= i < |exits| && exits[i] == f;
      assert key(exits[i]) == k;
    }
  }

  // ----- Whole runs of calls on one summary. -----

  datatype Calls =
    | NoCalls
    | RecordCall(before: Calls, fact: ExitFact)
    | ParameterExitCall(before: Calls, exit: ParameterExit)
    | GapCall(before: Calls, gap: Gap)
    | HandlerGapCall(before: Calls, evidence: HandlerGapEvidence)
    | StabilizeCall(before: Calls, previous: Option<ExitSummary>)
    | JoinCall(before: Calls, other: Calls)

  /** The summary the calls build. */
  function Built(calls: Calls, ranks: Ranks, keys: SortKeys): ExitSummary
  {
    match calls
    case NoCalls => NoExits
    case RecordCall(before, fact) =>
      var s := Built(before, ranks, keys);
      s.(exits := Upsert(s.exits, fact, ExitRank(ranks), MergeExit(keys)))
    case ParameterExitCall(before, exit) =>
      var s := Built(before, ranks, keys);
      s.(parameterExits := Upsert(s.parameterExits, exit, ParameterRank(ranks), MergeParameter(keys)))
    case GapCall(before, gap) =>
      var s := Built(before, ranks, keys);
      s.(gaps := s.gaps + {gap})
    case HandlerGapCall(before, evidence) =>
      var s := Built(before, ranks, keys);
      s.(handlerGaps := s.handlerGaps + {evidence})
    case StabilizeCall(before, previous) => StabilizeExits(Built(before, ranks, keys), previous, keys)
    case JoinCall(before, other) => JoinExits(Built(before, ranks, keys), Built(other, ranks, keys), ranks, keys)
  }

  function OutcomeRun(calls: Calls, keys: SortKeys): Run<ExitFact>
  {
    match calls
    case NoCalls => Start
    case RecordCall(before, fact) => Recording(OutcomeRun(before, keys), fact)
    case StabilizeCall(before, previous) => Settling(OutcomeRun(before, keys), StabilizeExit(previous, keys))
    case JoinCall(before, other) => Joining(OutcomeRun(before, keys), OutcomeRun(other, keys))
    case _ => OutcomeRun(calls.before, keys)
  }

  function ParameterRun(calls: Calls, keys: SortKeys): Run<ParameterExit>
  {
    match calls
    case NoCalls => Start
    case ParameterExitCall(before, exit) => Recording(ParameterRun(before, keys), exit)
    case StabilizeCall(before, previous) => Settling(ParameterRun(before, keys), StabilizeParameter(previous, keys))
    case JoinCall(before, other) => Joining(ParameterRun(before, keys), ParameterRun(other, keys))
    case _ => ParameterRun(calls.before, keys)
  }

  /** What calls settle are traces and prefixes, and they settle them by adding words. */
  lemma {:induction false} CallsSettle(calls: Calls, keys: SortKeys)
    ensures SettlesTraces(OutcomeRun(calls, keys)) && SettlesPrefixes(ParameterRun(calls, keys))
  {
    match calls
    case NoCalls =>
    case JoinCall(before, other) =>
      CallsSettle(before, keys);
      CallsSettle(other, keys);
    case StabilizeCall(before, previous) =>
      CallsSettle(before, keys);
      forall f
        ensures AddsWords(f, StabilizeExit(previous, keys)(f))
      {
        StabilizeStable(f.trace, if previous.Some? then OldTrace(previous.value.exits, f.outcome) else None, keys);
      }
    case _ => CallsSettle(calls.before, keys);
  }

  function RecordedGaps(calls: Calls): set<Gap>
  {
    match calls
    case NoCalls => {}
    case GapCall(before, gap) => RecordedGaps(before) + {gap}
    case JoinCall(before, other) => RecordedGaps(before) + RecordedGaps(other)
    case _ => RecordedGaps(calls.before)
  }

  function RecordedHandlerGaps(calls: Calls): set<HandlerGapEvidence>
  {
    match calls
    case NoCalls => {}
    case HandlerGapCall(before, evidence) => RecordedHandlerGaps(before) + {evidence}
    case JoinCall(before, other) => RecordedHandlerGaps(before) + RecordedHandlerGaps(other)
    case _ => RecordedHandlerGaps(calls.before)
  }

  /** Every exit fact recorded anywhere in the calls. */
  function RecordedExits(calls: Calls): seq<ExitFact>
  {
    match calls
    case NoCalls => []
    case RecordCall(before, fact) => RecordedExits(before) + [fact]
    case JoinCall(before, other) => RecordedExits(before) + RecordedExits(other)
    case _ => RecordedExits(calls.before)
  }

  /** Each part of the built summary is built by its own records alone. */
  lemma {:induction false} BuiltParts(calls: Calls, ranks: Ranks, keys: SortKeys)
    ensures var s := Built(calls, ranks, keys);
            && s.exits == Entries(OutcomeRun(calls, keys), ExitRank(ranks), MergeExit(keys))
            && s.parameterExits == Entries(ParameterRun(calls, keys), ParameterRank(ranks), MergeParameter(keys))
            && s.gaps == RecordedGaps(calls) && s.handlerGaps == RecordedHandlerGaps(calls)
            && RecordedExits(calls) == LogOf(OutcomeRun(calls, keys))
  {
    match calls
    case NoCalls =>
    case JoinCall(before, other) =>
      BuiltParts(before, ranks, keys);
      BuiltParts(other, ranks, keys);
    case _ => BuiltParts(calls.before, ranks, keys);
  }

  /** Every summary that calls build is canonical. */
  lemma BuiltCanonical(calls: Calls, ranks: Ranks, keys: SortKeys)
    ensures Canonical(Built(calls, ranks, keys), ranks)
  {
    BuiltParts(calls, ranks, keys);
    MergesKeepKeys(ranks, keys);
    CallsSettle(calls, keys);
    TracesInPlace(OutcomeRun(calls, keys), ranks);
    PrefixesInPlace(ParameterRun(calls, keys), ranks);
    EntriesStrictly(OutcomeRun(calls, keys), ExitRank(ranks), MergeExit(keys));
    EntriesStrictly(ParameterRun(calls, keys), ParameterRank(ranks), MergeParameter(keys));
  }

  predicate HasMissingReturn(gaps: set<Gap>)
  {
    MissingReturnType in gaps || MissingReturnObservation in gaps
  }

  /** A return that names at least one callable its value comes from. */
  predicate Sourced(o: CallableOutcome)
  {
    o.Returned? && o.observation.CallableSources? && o.observation.sources != {}
  }

  function Outcomes(fs: seq<ExitFact>): set<CallableOutcome>
  {
    set f | f in fs :: f.outcome
  }

  /** The answer is known exactly when no return is missing and all returns have sources; it is then their union. */
  ghost predicate SourcesOf(r: Option<set<ReturnSource>>, outcomes: set<CallableOutcome>, gaps: set<Gap>)
  {
    && (r.Some? <==>
          && !HasMissingReturn(gaps)
          && (forall o :: o in outcomes && o.Returned? ==> Sourced(o))
          && (exists o :: o in outcomes && o.Returned?))
    && (r.Some? ==> forall s :: s in r.value <==> exists o :: o in outcomes && Sourced(o) && s in o.observation.sources)
  }

  /** Through any calls, stabilizing ones included, the listed outcomes and the gaps are exactly the recorded ones. */
  lemma OutcomesOfCalls(calls: Calls, ranks: Ranks, keys: SortKeys)
    requires InjectiveRanks(ranks)
    ensures var s := Built(calls, ranks, keys);
            && Outcomes(s.exits) == Outcomes(RecordedExits(calls))
            && s.gaps == RecordedGaps(calls) && s.handlerGaps == RecordedHandlerGaps(calls)
  {
    var s := Built(calls, ranks, keys);
    BuiltParts(calls, ranks, keys);
    CallsSettle(calls, keys);
    forall o
      ensures o in Outcomes(s.exits) <==> o in Outcomes(RecordedExits(calls))
    {
      OutcomesOfRun(OutcomeRun(calls, keys), o, ranks, keys);
      assert o in Outcomes(s.exits) <==> OutcomeRecorded(s.exits, o);
      assert o in Outcomes(RecordedExits(calls)) <==> OutcomeRecorded(RecordedExits(calls), o);
    }
  }

  /** Through any calls, stabilizing ones included, every recorded word of an outcome stays a word of its entry. */
  lemma WordsOfCalls(calls: Calls, f: ExitFact, w: Word, ranks: Ranks, keys: SortKeys) returns (entry: ExitFact)
    requires InjectiveRanks(ranks) && f in RecordedExits(calls) && In(w, f.trace)
    ensures entry in Built(calls, ranks, keys).exits && entry.outcome == f.outcome && In(w, entry.trace)
  {
    BuiltParts(calls, ranks, keys);
    CallsSettle(calls, keys);
    var run := OutcomeRun(calls, keys);
    OutcomeEvidence(run, f.outcome, ranks, keys);
    assert OutcomeRecorded(LogOf(run), f.outcome);
    LookupMember(Entries(run, ExitRank(ranks), MergeExit(keys)), ranks.outcome(f.outcome), ExitRank(ranks));
    entry := OutcomeEntry(run, f.outcome, ranks, keys).value;
  }

  class CallableExitSummary {
    const ranks: Ranks
    const keys: SortKeys
    var exits: seq<ExitFact>
    var gaps: set<Gap>
    var parameterExits: seq<ParameterExit>
    var handlerGaps: set<HandlerGapEvidence>

    function State(): ExitSummary
      reads this
    {
      ExitSummary(exits, gaps, parameterExits, handlerGaps)
    }

    ghost predicate Valid()
      reads this
    {
      InjectiveRanks(ranks) && Canonical(State(), ranks)
    }

    constructor (ranks: Ranks, keys: SortKeys)
      requires InjectiveRanks(ranks)
      ensures Valid() && State() == NoExits && this.ranks == ranks && this.keys == keys
    {
      this.ranks, this.keys := ranks, keys;
      exits, gaps, parameterExits, handlerGaps := [], {}, [], {};
    }

    /** Takes over a summary given as a value. */
    constructor Of(s: ExitSummary, ranks: Ranks, keys: SortKeys)
      requires InjectiveRanks(ranks) && Canonical(s, ranks)
      ensures Valid() && State() == s && this.ranks == ranks && this.keys == keys
    {
      this.ranks, this.keys := ranks, keys;
      exits, gaps, parameterExits, handlerGaps := s.exits, s.gaps, s.parameterExits, s.handlerGaps;
    }

    method Record(outcome: CallableOutcome, trace: Trace) returns (changed: bool)
      requires Valid()
      modifies this`exits
      ensures Valid() && exits == Upsert(old(exits), ExitFact(outcome, trace), ExitRank(ranks), MergeExit(keys))
      ensures changed <==> exits != old(exits)
    {
      var fact := ExitFact(outcome, trace);
      MergesKeepKeys(ranks, keys);
      UpsertStrictly(exits, fact, ExitRank(ranks), MergeExit(keys));
      for i := 0 to |exits|
        invariant exits == old(exits) && forall j :: 0 <= j < i ==> exits[j].outcome != outcome
      {
        if exits[i].outcome == outcome {
          MergeAtIndex(exits, fact, ExitRank(ranks), MergeExit(keys), i);
          var joined := ChoiceOp(exits[i].trace, trace, keys);
          changed := joined != exits[i].trace;
          exits := exits[i := exits[i].(trace := joined)];
          return;
        }
      }
      LookupNone(exits, ExitRank(ranks)(fact), ExitRank(ranks));
      SortPushed(exits, fact, ExitRank(ranks));
      InsertElems(exits, fact, ExitRank(ranks));
      exits := SortBy(exits + [fact], ExitRank(ranks));
      return true;
    }

    method RecordParameterExit(exit: ParameterExit) returns (changed: bool)
      requires Valid()
      modifies this`parameterExits
      ensures Valid() && parameterExits == Upsert(old(parameterExits), exit, ParameterRank(ranks), MergeParameter(keys))
      ensures changed <==> parameterExits != old(parameterExits)
    {
      MergesKeepKeys(ranks, keys);
      UpsertStrictly(parameterExits, exit, ParameterRank(ranks), MergeParameter(keys));
      for i := 0 to |parameterExits|
        invariant parameterExits == old(parameterExits) && forall j :: 0 <= j < i ==> parameterExits[j].exitKey != exit.exitKey
      {
        if parameterExits[i].exitKey == exit.exitKey {
          MergeAtIndex(parameterExits, exit, ParameterRank(ranks), MergeParameter(keys), i);
          var merged, grew := MergeParameterInPlace(parameterExits[i], exit, keys);
          changed := grew;
          parameterExits := parameterExits[i := merged];
          return;
        }
      }
      LookupNone(parameterExits, ParameterRank(ranks)(exit), ParameterRank(ranks));
      SortPushed(parameterExits, exit, ParameterRank(ranks));
      InsertElems(parameterExits, exit, ParameterRank(ranks));
      parameterExits := SortBy(parameterExits + [exit], ParameterRank(ranks));
      return true;
    }

    /** "Unchanged" is never wrong; joining a canonical summary, "changed" is never wrong either. */
    method JoinAssign(other: ExitSummary) returns (changed: bool)
      requires Valid()
      modifies this
      ensures Valid() && State() == JoinExits(old(State()), other, ranks, keys)
      ensures !changed ==> State() == old(State())
      ensures Canonical(other, ranks) ==> (changed <==> State() != old(State()))
    {
      MergesKeepKeys(ranks, keys);
      ChangesStay(exits, other.exits, ExitRank(ranks), MergeExit(keys));
      ChangesStay(parameterExits, other.parameterExits, ParameterRank(ranks), MergeParameter(keys));
      var grew := RecordEach(other.exits);
      changed := grew;
      grew := RecordEachParameterExit(other.parameterExits);
      changed := changed || grew || handlerGaps + other.handlerGaps != handlerGaps || gaps + other.gaps != gaps;
      handlerGaps := handlerGaps + other.handlerGaps;
      gaps := gaps + other.gaps;
    }

    method RecordEach(fs: seq<ExitFact>) returns (changed: bool)
      requires Valid()
      modifies this`exits
      ensures Valid() && exits == UpsertAll(old(exits), fs, ExitRank(ranks), MergeExit(keys))
      ensures changed <==> ChangesAlong(old(exits), fs, ExitRank(ranks), MergeExit(keys))
    {
      changed := false;
      assert fs[0..] == fs;
      for i := 0 to |fs|
        invariant Valid()
        invariant UpsertAll(exits, fs[i..], ExitRank(ranks), MergeExit(keys)) == UpsertAll(old(exits), fs, ExitRank(ranks), MergeExit(keys))
        invariant changed || ChangesAlong(exits, fs[i..], ExitRank(ranks), MergeExit(keys))
             <==> ChangesAlong(old(exits), fs, ExitRank(ranks), MergeExit(keys))
      {
        assert fs[i..][1..] == fs[i + 1..];
        var grew := Record(fs[i].outcome, fs[i].trace);
        changed := changed || grew;
      }
    }

    method RecordEachParameterExit(ps: seq<ParameterExit>) returns (changed: bool)
      requires Valid()
      modifies this`parameterExits
      ensures Valid() && parameterExits == UpsertAll(old(parameterExits), ps, ParameterRank(ranks), MergeParameter(keys))
      ensures changed <==> ChangesAlong(old(parameterExits), ps, ParameterRank(ranks), MergeParameter(keys))
    {
      changed := false;
      assert ps[0..] == ps;
      for i := 0 to |ps|
        invariant Valid()
        invariant UpsertAll(parameterExits, ps[i..], ParameterRank(ranks), MergeParameter(keys))
               == UpsertAll(old(parameterExits), ps, ParameterRank(ranks), MergeParameter(keys))
        invariant changed || ChangesAlong(parameterExits, ps[i..], ParameterRank(ranks), MergeParameter(keys))
             <==> ChangesAlong(old(parameterExits), ps, ParameterRank(ranks), MergeParameter(keys))
      {
        assert ps[i..][1..] == ps[i + 1..];
        var grew := RecordParameterExit(ps[i]);
        changed := changed || grew;
      }
    }

    /** Every trace and prefix is stabilized against the one its key had before; nothing else changes. */
    method Stabilize(previous: Option<ExitSummary>)
      requires Valid()
      modifies this`exits, this`parameterExits
      ensures Valid() && State() == StabilizeExits(old(State()), previous, keys)
      ensures StableExits(State(), old(State()))
    {
      StabilizeExitsStable(State(), previous, keys);
      StabilizedCanonical(State(), previous, ranks, keys);
      StabilizeTraces(previous);
      StabilizePrefixes(previous);
    }

    method StabilizeTraces(previous: Option<ExitSummary>)
      modifies this`exits
      ensures exits == SettleAll(old(exits), StabilizeExit(previous, keys))
    {
      for i := 0 to |exits|
        invariant |exits| == |old(exits)|
        invariant forall j :: 0 <= j < i ==> exits[j] == StabilizeExit(previous, keys)(old(exits)[j])
        invariant forall j :: i <= j < |exits| ==> exits[j] == old(exits)[j]
      {
        var before := if previous.Some? then OldTrace(previous.value.exits, exits[i].outcome) else None;
        exits := exits[i := exits[i].(trace := TraceOps.Stabilize(exits[i].trace, before, keys))];
      }
    }

    method StabilizePrefixes(previous: Option<ExitSummary>)
      modifies this`parameterExits
      ensures parameterExits == SettleAll(old(parameterExits), StabilizeParameter(previous, keys))
    {
      for i := 0 to |parameterExits|
        invariant |parameterExits| == |old(parameterExits)|
        invariant forall j :: 0 <= j < i ==> parameterExits[j] == StabilizeParameter(previous, keys)(old(parameterExits)[j])
        invariant forall j :: i <= j < |parameterExits| ==> parameterExits[j] == old(parameterExits)[j]
      {
        var p := parameterExits[i];
        var before := if previous.Some? then OldPrefix(previous.value.parameterExits, p.exitKey) else None;
        parameterExits := parameterExits[i := p.(prefix := TraceOps.Stabilize(p.prefix, before, keys))];
      }
    }

    /**
     * The union of the sources of the listed returns, or nothing when one of them is missing; whatever
     * calls built the summary, it is that of all outcomes and gaps they recorded.
     */
    method CallableReturnSources() returns (r: Option<set<ReturnSource>>)
      ensures SourcesOf(r, Outcomes(exits), gaps)
      ensures InjectiveRanks(ranks) ==>
                forall calls :: Built(calls, ranks, keys) == State() ==> SourcesOf(r, Outcomes(RecordedExits(calls)), RecordedGaps(calls))
    {
      forall calls | InjectiveRanks(ranks) && Built(calls, ranks, keys) == State()
        ensures Outcomes(exits) == Outcomes(RecordedExits(calls)) && gaps == RecordedGaps(calls)
      {
        OutcomesOfCalls(calls, ranks, keys);
      }
      if HasMissingReturn(gaps) {
        return None;
      }
      var found: set<ReturnSource> := {};
      ghost var met := false;
      for i := 0 to |exits|
        invariant SourcesSoFar(found, met, Outcomes(exits[..i]))
      {
        var outcome := exits[i].outcome;
        OutcomesPush(exits, i);
        if Sourced(outcome) {
          found := found + outcome.observation.sources;
          met := true;
        } else if outcome.Returned? {
          assert exits[i] in exits && outcome in Outcomes(exits);
          return None;
        }
      }
      assert exits[..|exits|] == exits;
      SourcesComplete(found, met, Outcomes(exits));
      return if found == {} then None else Some(found);
    }
  }

  /** The sources found and whether a return was met, while all returns have sources. */
  ghost predicate SourcesSoFar(found: set<ReturnSource>, met: bool, outcomes: set<CallableOutcome>)
  {
    && (forall o :: o in outcomes && o.Returned? ==> Sourced(o))
    && (met <==> exists o :: o in outcomes && o.Returned?)
    && (forall s :: s in found <==> exists o :: o in outcomes && Sourced(o) && s in o.observation.sources)
  }

  lemma OutcomesPush(fs: seq<ExitFact>, i: nat)
    requires i < |fs|
    ensures Outcomes(fs[..i + 1]) == Outcomes(fs[..i]) + {fs[i].outcome}
  {
    assert fs[..i + 1] == fs[..i] + [fs[i]];
  }

  /** A return with sources contributes one, so no source means no return. */
  lemma SourcesComplete(found: set<ReturnSource>, met: bool, outcomes: set<CallableOutcome>)
    requires SourcesSoFar(found, met, outcomes)
    ensures met <==> found != {}
  {
    if o :| o in outcomes && o.Returned? {
      var s :| s in o.observation.sources;
      assert s in found;
    }
    if s :| s in found {
      var o :| o in outcomes && Sourced(o) && s in o.observation.sources;
    }
  }

  lemma {:induction false} MergeAtIndex<T>(s: seq<T>, x: T, key: T -> Rank, merge: (T, T) -> T, i: nat)
    requires i < |s| && key(s[i]) == key(x) && forall j :: 0 <= j < i ==> key(s[j]) != key(x)
    ensures MergeAt(s, x, key, merge) == s[i := merge(s[i], x)]
    ensures Lookup(s, key(x), key) == Some(s[i])
  {
    if i > 0 {
      assert s[1..][i - 1] == s[i];
      MergeAtIndex(s[1..], x, key, merge, i - 1);
    }
  }

  /** The field-by-field update of an existing parameter exit. */
  method MergeParameterInPlace(existing: ParameterExit, exit: ParameterExit, keys: SortKeys) returns (r: ParameterExit, changed: bool)
    ensures r == MergeParameter(keys)(existing, exit)
    ensures changed <==> r != existing
  {
    r := existing.(prefix := ChoiceOp(existing.prefix, exit.prefix, keys));
    changed := r.prefix != existing.prefix;
    if existing.handlerFree != exit.handlerFree && existing.handlerFree.Some? {
      r := r.(handlerFree := None);
      changed := true;
    }
    if existing.enclosingHandled.Some? && exit.enclosingHandled.Some? {
      if TailsConflict(existing.enclosingHandled.value, exit.enclosingHandled.value) {
        r := r.(enclosingHandled := None);
        changed := true;
      } else {
        var row := RowUnion(existing.enclosingHandled.value, exit.enclosingHandled.value);
        changed := changed || row != existing.enclosingHandled.value;
        r := r.(enclosingHandled := Some(row));
      }
    } else if existing.enclosingHandled.Some? {
      r := r.(enclosingHandled := None);
      changed := true;
    }
  }
}
