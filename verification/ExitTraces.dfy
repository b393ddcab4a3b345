/** The traces of exit entries after any run of calls: their words, their letters, and how each call changes them. */
module ExitTraces {
  import opened Prelude
  import opened Effects
  import opened Traces
  import opened Words
  import opened SortedLists
  import opened TraceOps
  import opened Exits

  // ----- For any kind of entry that carries a trace. -----

  ghost predicate Logged<T(!new)>(log: seq<T>, k: Rank, key: T -> Rank)
  {
    exists f :: f in log && key(f) == k
  }

  ghost predicate LoggedWord<T(!new)>(log: seq<T>, k: Rank, key: T -> Rank, trace: T -> Trace, w: Word)
  {
    exists f :: f in log && key(f) == k && In(w, trace(f))
  }

  ghost predicate LoggedLetter<T(!new)>(log: seq<T>, k: Rank, key: T -> Rank, trace: T -> Trace, l: Letter)
  {
    exists f :: f in log && key(f) == k && l in Letters(trace(f))
  }

  /** There is an entry exactly when something was recorded; it keeps the recorded words and has exactly the recorded letters. */
  ghost predicate TracesTell<T(!new)>(entry: Option<T>, log: seq<T>, k: Rank, key: T -> Rank, trace: T -> Trace)
  {
    && (entry.Some? <==> Logged(log, k, key))
    && (entry.Some? ==> forall w :: LoggedWord(log, k, key, trace, w) ==> In(w, trace(entry.value)))
    && (entry.Some? ==> forall l :: l in Letters(trace(entry.value)) <==> LoggedLetter(log, k, key, trace, l))
  }

  /** Merging two entries chooses between their traces. */
  ghost predicate Chooses<T(!new)>(merge: (T, T) -> T, trace: T -> Trace, keys: SortKeys)
  {
    forall a, b :: trace(merge(a, b)) == ChoiceOp(trace(a), trace(b), keys)
  }

  ghost predicate KeepsTrace<T(!new)>(settle: T -> T, key: T -> Rank, trace: T -> Trace)
  {
    forall f :: key(settle(f)) == key(f) && StableForm(trace(settle(f)), trace(f))
  }

  /** Settling widens traces and leaves keys alone. */
  ghost predicate SettlesWell<T(!new)>(run: Run<T>, key: T -> Rank, trace: T -> Trace)
  {
    match run
    case Start => true
    case Recording(before, _) => SettlesWell(before, key, trace)
    case Joining(before, other) => SettlesWell(before, key, trace) && SettlesWell(other, key, trace)
    case Settling(before, settle) => SettlesWell(before, key, trace) && KeepsTrace(settle, key, trace)
  }

  lemma {:induction false} WellInPlace<T(!new)>(run: Run<T>, key: T -> Rank, trace: T -> Trace)
    requires SettlesWell(run, key, trace)
    ensures SettlesInPlace(run, key)
  {
    match run
    case Start =>
    case Recording(before, _) => WellInPlace(before, key, trace);
    case Joining(before, other) =>
      WellInPlace(before, key, trace);
      WellInPlace(other, key, trace);
    case Settling(before, _) => WellInPlace(before, key, trace);
  }

  lemma LoggedTogether<T(!new)>(a: seq<T>, b: seq<T>, k: Rank, key: T -> Rank, trace: T -> Trace)
    ensures Logged(a + b, k, key) <==> Logged(a, k, key) || Logged(b, k, key)
    ensures forall w :: LoggedWord(a + b, k, key, trace, w) <==> LoggedWord(a, k, key, trace, w) || LoggedWord(b, k, key, trace, w)
    ensures forall l :: LoggedLetter(a + b, k, key, trace, l) <==> LoggedLetter(a, k, key, trace, l) || LoggedLetter(b, k, key, trace, l)
  {
    assert forall f :: f in a + b <==> f in a || f in b;
  }

  lemma NothingLogged<T(!new)>(log: seq<T>, k: Rank, key: T -> Rank, trace: T -> Trace)
    requires !Logged(log, k, key)
    ensures forall w :: !LoggedWord(log, k, key, trace, w)
    ensures forall l :: !LoggedLetter(log, k, key, trace, l)
  {
  }

  lemma OwnTells<T(!new)>(f: T, k: Rank, key: T -> Rank, trace: T -> Trace)
    ensures TracesTell(if key(f) == k then Some(f) else None, [f], k, key, trace)
  {
    assert f in [f];
  }

  lemma MergeTells<T(!new)>(x: Option<T>, y: Option<T>, a: seq<T>, b: seq<T>, k: Rank, key: T -> Rank, trace: T -> Trace, merge: (T, T) -> T, keys: SortKeys)
    requires Chooses(merge, trace, keys) && TracesTell(x, a, k, key, trace) && TracesTell(y, b, k, key, trace)
    ensures TracesTell(MergedEntry(x, y, merge), a + b, k, key, trace)
  {
    LoggedTogether(a, b, k, key, trace);
    if x.None? {
      NothingLogged(a, k, key, trace);
    }
    if y.None? {
      NothingLogged(b, k, key, trace);
    }
    if x.Some? && y.Some? {
      var p, q := trace(x.value), trace(y.value);
      assert trace(merge(x.value, y.value)) == ChoiceOp(p, q, keys);
      ChoiceLetters(p, q, keys);
      forall w | LoggedWord(a + b, k, key, trace, w)
        ensures In(w, ChoiceOp(p, q, keys))
      {
        ChoiceSound(w, p, q, keys);
      }
    }
  }

  lemma {:induction false} TracesOfRun<T(!new)>(run: Run<T>, k: Rank, key: T -> Rank, trace: T -> Trace, merge: (T, T) -> T, keys: SortKeys)
    requires KeepsKey(key, merge) && Chooses(merge, trace, keys) && SettlesWell(run, key, trace)
    ensures TracesTell(Lookup(Entries(run, key, merge), k, key), LogOf(run), k, key, trace)
  {
    WellInPlace(run, key, trace);
    match run
    case Start =>
    case Recording(before, fact) =>
      var entries := Entries(before, key, merge);
      TracesOfRun(before, k, key, trace, merge, keys);
      EntriesStrictly(before, key, merge);
      UpsertLookup(entries, fact, key, merge, k);
      OwnTells(fact, k, key, trace);
      MergeTells(Lookup(entries, k, key), if key(fact) == k then Some(fact) else None, LogOf(before), [fact], k, key, trace, merge, keys);
    case Joining(before, other) =>
      var entries, more := Entries(before, key, merge), Entries(other, key, merge);
      TracesOfRun(before, k, key, trace, merge, keys);
      TracesOfRun(other, k, key, trace, merge, keys);
      EntriesStrictly(before, key, merge);
      EntriesStrictly(other, key, merge);
      UpsertAllLookup(entries, more, key, merge, k);
      MergeTells(Lookup(entries, k, key), Lookup(more, k, key), LogOf(before), LogOf(other), k, key, trace, merge, keys);
    case Settling(before, settle) =>
      var entries := Entries(before, key, merge);
      TracesOfRun(before, k, key, trace, merge, keys);
      SettleLookup(entries, settle, k, key);
      var entry := Lookup(entries, k, key);
      assert entry.Some? ==> StableForm(trace(settle(entry.value)), trace(entry.value));
  }

  // ----- For the two lists of an exit summary. -----

  function TraceOfExit(): ExitFact -> Trace
  {
    (f: ExitFact) => f.trace
  }

  function PrefixOfExit(): ParameterExit -> Trace
  {
    (p: ParameterExit) => p.prefix
  }

  lemma {:induction false} CallsSettleWell(calls: Calls, ranks: Ranks, keys: SortKeys)
    ensures SettlesWell(OutcomeRun(calls, keys), ExitRank(ranks), TraceOfExit())
    ensures SettlesWell(ParameterRun(calls, keys), ParameterRank(ranks), PrefixOfExit())
  {
    match calls
    case NoCalls =>
    case JoinCall(before, other) =>
      CallsSettleWell(before, ranks, keys);
      CallsSettleWell(other, ranks, keys);
    case StabilizeCall(before, previous) =>
      CallsSettleWell(before, ranks, keys);
      forall f
        ensures StableForm(StabilizeExit(previous, keys)(f).trace, f.trace)
      {
        StabilizeStable(f.trace, if previous.Some? then OldTrace(previous.value.exits, f.outcome) else None, keys);
      }
      forall p
        ensures StableForm(StabilizeParameter(previous, keys)(p).prefix, p.prefix)
      {
        StabilizeStable(p.prefix, if previous.Some? then OldPrefix(previous.value.parameterExits, p.exitKey) else None, keys);
      }
    case _ => CallsSettleWell(calls.before, ranks, keys);
  }

  /** Every parameter exit recorded anywhere in the calls. */
  function RecordedParameters(calls: Calls): seq<ParameterExit>
  {
    match calls
    case NoCalls => []
    case ParameterExitCall(before, exit) => RecordedParameters(before) + [exit]
    case JoinCall(before, other) => RecordedParameters(before) + RecordedParameters(other)
    case _ => RecordedParameters(calls.before)
  }

  lemma {:induction false} ParametersLogged(calls: Calls, keys: SortKeys)
    ensures RecordedParameters(calls) == LogOf(ParameterRun(calls, keys))
  {
    match calls
    case NoCalls =>
    case JoinCall(before, other) =>
      ParametersLogged(before, keys);
      ParametersLogged(other, keys);
    case _ => ParametersLogged(calls.before, keys);
  }

  ghost predicate ExitWord(log: seq<ExitFact>, o: CallableOutcome, w: Word)
  {
    exists f :: f in log && f.outcome == o && In(w, f.trace)
  }

  ghost predicate ExitLetter(log: seq<ExitFact>, o: CallableOutcome, l: Letter)
  {
    exists f :: f in log && f.outcome == o && l in Letters(f.trace)
  }

  ghost predicate PrefixWord(log: seq<ParameterExit>, k: ExitKey, w: Word)
  {
    exists p :: p in log && p.exitKey == k && In(w, p.prefix)
  }

  ghost predicate PrefixLetter(log: seq<ParameterExit>, k: ExitKey, l: Letter)
  {
    exists p :: p in log && p.exitKey == k && l in Letters(p.prefix)
  }

  /** The entry of an outcome, and of an evidence key. */
  function ExitAt(s: ExitSummary, o: CallableOutcome, ranks: Ranks): Option<ExitFact>
  {
    Lookup(s.exits, ranks.outcome(o), ExitRank(ranks))
  }

  function ParameterAt(s: ExitSummary, k: ExitKey, ranks: Ranks): Option<ParameterExit>
  {
    Lookup(s.parameterExits, ranks.parameter(k), ParameterRank(ranks))
  }

  /**
   * After any calls an outcome has an entry exactly when it was recorded; its trace keeps every recorded
   * word and acts with exactly the recorded letters.
   */
  lemma ExitTracesOfCalls(calls: Calls, o: CallableOutcome, ranks: Ranks, keys: SortKeys)
    requires InjectiveRanks(ranks)
    ensures var entry, log := ExitAt(Built(calls, ranks, keys), o, ranks), RecordedExits(calls);
            && (entry.Some? <==> OutcomeRecorded(log, o))
            && (entry.Some? ==>
                  && entry.value in Built(calls, ranks, keys).exits && entry.value.outcome == o
                  && (forall w :: ExitWord(log, o, w) ==> In(w, entry.value.trace))
                  && forall l :: l in Letters(entry.value.trace) <==> ExitLetter(log, o, l))
  {
    var key, trace, log := ExitRank(ranks), TraceOfExit(), RecordedExits(calls);
    BuiltParts(calls, ranks, keys);
    CallsSettleWell(calls, ranks, keys);
    MergesKeepKeys(ranks, keys);
    TracesOfRun(OutcomeRun(calls, keys), ranks.outcome(o), key, trace, MergeExit(keys), keys);
    LookupHit(Built(calls, ranks, keys).exits, ranks.outcome(o), key);
    ExitLog(log, o, ranks);
  }

  lemma ExitLog(log: seq<ExitFact>, o: CallableOutcome, ranks: Ranks)
    requires InjectiveRanks(ranks)
    ensures Logged(log, ranks.outcome(o), ExitRank(ranks)) <==> OutcomeRecorded(log, o)
    ensures forall w :: LoggedWord(log, ranks.outcome(o), ExitRank(ranks), TraceOfExit(), w) <==> ExitWord(log, o, w)
    ensures forall l :: LoggedLetter(log, ranks.outcome(o), ExitRank(ranks), TraceOfExit(), l) <==> ExitLetter(log, o, l)
  {
    var key, trace := ExitRank(ranks), TraceOfExit();
    assert forall f: ExitFact :: trace(f) == f.trace && (key(f) == ranks.outcome(o) <==> f.outcome == o);
  }

  lemma {:induction false} LookupHit<T>(s: seq<T>, k: Rank, key: T -> Rank)
    ensures Lookup(s, k, key).Some? ==> Lookup(s, k, key).value in s && key(Lookup(s, k, key).value) == k
  {
    if s != [] {
      LookupHit(s[1..], k, key);
    }
  }

  /** The same of a parameter exit's prefix. */
  lemma PrefixesOfCalls(calls: Calls, k: ExitKey, ranks: Ranks, keys: SortKeys)
    requires InjectiveRanks(ranks)
    ensures var entry, log := ParameterAt(Built(calls, ranks, keys), k, ranks), RecordedParameters(calls);
            && (entry.Some? <==> Recorded(log, k))
            && (entry.Some? ==>
                  && entry.value in Built(calls, ranks, keys).parameterExits && entry.value.exitKey == k
                  && (forall w :: PrefixWord(log, k, w) ==> In(w, entry.value.prefix))
                  && forall l :: l in Letters(entry.value.prefix) <==> PrefixLetter(log, k, l))
  {
    var key, trace, log := ParameterRank(ranks), PrefixOfExit(), RecordedParameters(calls);
    BuiltParts(calls, ranks, keys);
    ParametersLogged(calls, keys);
    CallsSettleWell(calls, ranks, keys);
    MergesKeepKeys(ranks, keys);
    TracesOfRun(ParameterRun(calls, keys), ranks.parameter(k), key, trace, MergeParameter(keys), keys);
    LookupHit(Built(calls, ranks, keys).parameterExits, ranks.parameter(k), key);
    ParameterLog(log, k, ranks);
  }

  lemma ParameterLog(log: seq<ParameterExit>, k: ExitKey, ranks: Ranks)
    requires InjectiveRanks(ranks)
    ensures Logged(log, ranks.parameter(k), ParameterRank(ranks)) <==> Recorded(log, k)
    ensures forall w :: LoggedWord(log, ranks.parameter(k), ParameterRank(ranks), PrefixOfExit(), w) <==> PrefixWord(log, k, w)
    ensures forall l :: LoggedLetter(log, ranks.parameter(k), ParameterRank(ranks), PrefixOfExit(), l) <==> PrefixLetter(log, k, l)
  {
    var key, trace := ParameterRank(ranks), PrefixOfExit();
    assert forall p: ParameterExit :: trace(p) == p.prefix && (key(p) == ranks.parameter(k) <==> p.exitKey == k);
  }

  // ----- How each call changes an entry. -----

  /** The trace an outcome has. */
  function TraceAt(s: ExitSummary, o: CallableOutcome, ranks: Ranks): Option<Trace>
  {
    match ExitAt(s, o, ranks)
    case None => None
    case Some(f) => Some(f.trace)
  }

  function ChosenTrace(a: Option<Trace>, b: Option<Trace>, keys: SortKeys): Option<Trace>
  {
    if a.None? then b else if b.None? then a else Some(ChoiceOp(a.value, b.value, keys))
  }

  function StabilizedTrace(was: Option<Trace>, previous: Option<ExitSummary>, o: CallableOutcome, keys: SortKeys): Option<Trace>
  {
    if was.None? then None
    else Some(Stabilize(was.value, if previous.Some? then OldTrace(previous.value.exits, o) else None, keys))
  }

  /**
   * Recording offers its trace to its own outcome, joining offers each outcome the other's trace,
   * stabilizing stabilizes each against what it had before, and no other call touches a trace.
   */
  lemma TraceAfterCall(calls: Calls, o: CallableOutcome, ranks: Ranks, keys: SortKeys)
    requires InjectiveRanks(ranks) && !calls.NoCalls?
    ensures var was, now := TraceAt(Built(calls.before, ranks, keys), o, ranks), TraceAt(Built(calls, ranks, keys), o, ranks);
            && (calls.RecordCall? ==> now == if calls.fact.outcome == o then ChosenTrace(was, Some(calls.fact.trace), keys) else was)
            && (calls.JoinCall? ==> now == ChosenTrace(was, TraceAt(Built(calls.other, ranks, keys), o, ranks), keys))
            && (calls.StabilizeCall? ==> now == StabilizedTrace(was, calls.previous, o, keys))
            && (calls.ParameterExitCall? || calls.GapCall? || calls.HandlerGapCall? ==> now == was)
  {
    var s, k, key, merge := Built(calls.before, ranks, keys), ranks.outcome(o), ExitRank(ranks), MergeExit(keys);
    MergesKeepKeys(ranks, keys);
    BuiltCanonical(calls.before, ranks, keys);
    LookupHit(s.exits, k, key);
    if calls.RecordCall? {
      UpsertLookup(s.exits, calls.fact, key, merge, k);
    } else if calls.JoinCall? {
      BuiltCanonical(calls.other, ranks, keys);
      UpsertAllLookup(s.exits, Built(calls.other, ranks, keys).exits, key, merge, k);
    } else if calls.StabilizeCall? {
      SettleLookup(s.exits, StabilizeExit(calls.previous, keys), k, key);
    }
  }
}
