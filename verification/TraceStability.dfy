/** Repeated joining of traces changes the result a bounded number of times. */
module TraceStability {
  import opened Prelude
  import opened Effects
  import opened Traces
  import opened Words
  import opened SortedLists
  import opened TraceOps
  import opened TraceWorklists

  /** Every call key fixes the parameter name recorded with it. */
  ghost predicate Named(calls: seq<ParameterCallRef>, names: CallKey -> string)
  {
    forall c :: c in calls ==> c.parameter == names(KeyOf(c))
  }

  /** An input of a join: it is `Empty` or has a letter, and all its letters are known. */
  ghost predicate Joinable(t: Trace, alphabet: set<Letter>, names: CallKey -> string)
  {
    (t.Empty? || Letters(t) != {}) && Letters(t) <= alphabet && Named(Calls(t), names)
  }

  /** What every result of a join satisfies: repeat-free, at most 32 nodes, canonical lists. */
  ghost predicate Settled(t: Trace, alphabet: set<Letter>, names: CallKey -> string, keys: SortKeys)
  {
    && Fits(t)
    && Joinable(t, alphabet, names)
    && (t.Choice? ==> Strictly(t.parts, keys.trace))
    && (t.Widened? ==> StrictlyOrdered(t.calls, keys))
  }

  /** Grows with every change: structural nodes first, then the number of letters. */
  ghost function Potential(t: Trace): nat
  {
    if t.UnknownOrder? then FixpointTraceNodeLimit + 1 + |Letters(t)|
    else if t.Widened? then FixpointTraceNodeLimit + 2 + |Letters(t)|
    else Size(t)
  }

  // ----- Sorted lists are determined by their elements. -----

  lemma {:induction false} DedupSorted(ts: seq<Trace>, keys: SortKeys)
    requires Injective(keys) && Weakly(ts, keys.trace)
    ensures Strictly(Dedup(ts), keys.trace)
    ensures ts != [] ==> Dedup(ts) != [] && Dedup(ts)[0] == ts[0]
  {
    if |ts| > 1 {
      DedupSorted(ts[1..], keys);
      if ts[0] != ts[1] {
        var tail := Dedup(ts[1..]);
        assert keys.trace(ts[0]) != keys.trace(ts[1]);
        forall j | 0 <= j < |tail|
          ensures keys.trace(ts[0]) < keys.trace(tail[j])
        {
          assert keys.trace(tail[0]) <= keys.trace(tail[j]);
        }
      }
    }
  }

  lemma SortDedupSorted(ts: seq<Trace>, keys: SortKeys)
    requires Injective(keys)
    ensures Strictly(SortDedup(ts, keys), keys.trace)
  {
    SortWeakly(ts, keys.trace);
    DedupSorted(SortBy(ts, keys.trace), keys);
  }

  lemma ElemsTail<T>(s: seq<T>)
    requires s != []
    ensures Elems(s) == {s[0]} + Elems(s[1..])
  {
    assert s == [s[0]] + s[1..];
    ElemsAppend([s[0]], s[1..]);
  }

  lemma SkippedHead(a: seq<Trace>, b: seq<Trace>, keys: SortKeys)
    requires Strictly(a, keys.trace) && Strictly(b, keys.trace) && b != [] && Elems(a) <= Elems(b)
    requires a == [] || a[0] != b[0]
    ensures Elems(a) <= Elems(b[1..])
  {
    ElemsTail(b);
    forall i | 0 <= i < |a|
      ensures a[i] != b[0]
    {
      assert a[0] in Elems(b);
      var j :| 0 <= j < |b| && b[j] == a[0];
      assert keys.trace(b[0]) <= keys.trace(a[0]) <= keys.trace(a[i]);
    }
  }

  lemma SharedHead(a: seq<Trace>, b: seq<Trace>, keys: SortKeys)
    requires Strictly(a, keys.trace) && a != [] && b != [] && a[0] == b[0] && Elems(a) <= Elems(b)
    ensures Elems(a[1..]) <= Elems(b[1..])
  {
    ElemsTail(a);
    ElemsTail(b);
    assert forall i :: 0 < i < |a| ==> a[i] != a[0];
  }

  /** A sorted list with more elements has strictly more nodes. */
  lemma {:induction false} SortedGrowth(a: seq<Trace>, b: seq<Trace>, keys: SortKeys)
    requires Strictly(a, keys.trace) && Strictly(b, keys.trace)
    requires Elems(a) <= Elems(b)
    ensures SizeAll(a) <= SizeAll(b)
    ensures a != b ==> SizeAll(a) < SizeAll(b)
    decreases |b|
  {
    if b == [] {
      NonEmptyElems(a);
    } else if a != [] && a[0] == b[0] {
      SharedHead(a, b, keys);
      TailSorted(a, keys);
      TailSorted(b, keys);
      SortedGrowth(a[1..], b[1..], keys);
    } else {
      SkippedHead(a, b, keys);
      TailSorted(b, keys);
      SortedGrowth(a, b[1..], keys);
    }
  }

  lemma TailSorted(ts: seq<Trace>, keys: SortKeys)
    requires Strictly(ts, keys.trace) && ts != []
    ensures ts == [ts[0]] + ts[1..] && Strictly(ts[1..], keys.trace) && SizeAll(ts) > SizeAll(ts[1..])
  {
    SizePositive(ts[0]);
  }

  lemma MemberSize(ts: seq<Trace>, t: Trace)
    requires t in ts
    ensures Size(t) <= SizeAll(ts)
  {
    if t != ts[0] {
      MemberSize(ts[1..], t);
    }
  }

  /** An ordered, consistently named call list is determined by its keys. */
  lemma {:induction false} OrderedCallsUnique(a: seq<ParameterCallRef>, b: seq<ParameterCallRef>, names: CallKey -> string, keys: SortKeys)
    requires StrictlyOrdered(a, keys) && StrictlyOrdered(b, keys)
    requires Named(a, names) && Named(b, names)
    requires CallLetters(a) == CallLetters(b)
    ensures a == b
  {
    NonEmptyCallLetters(a);
    NonEmptyCallLetters(b);
    if a != [] {
      var i := LetterIndex(a, b[0]);
      var j := LetterIndex(b, a[0]);
      assert KeyOf(a[0]) == KeyOf(b[0]);
      assert a[0] in a && b[0] in b;
      assert a[0] == b[0];
      CallLettersTail(a, keys);
      CallLettersTail(b, keys);
      OrderedCallsUnique(a[1..], b[1..], names, keys);
      assert a == [a[0]] + a[1..] && b == [b[0]] + b[1..];
    }
  }

  lemma NonEmptyCallLetters(a: seq<ParameterCallRef>)
    ensures a == [] <==> CallLetters(a) == {}
  {
    if a != [] {
      assert CallLetter(a[0]) in CallLetters(a);
    }
  }

  lemma LetterIndex(a: seq<ParameterCallRef>, c: ParameterCallRef) returns (i: nat)
    requires CallLetter(c) in CallLetters(a)
    ensures i < |a| && KeyOf(a[i]) == KeyOf(c)
  {
    var d :| d in a && CallLetter(d) == CallLetter(c);
    i :| 0 <= i < |a| && a[i] == d;
  }

  lemma CallLettersTail(a: seq<ParameterCallRef>, keys: SortKeys)
    requires a != [] && StrictlyOrdered(a, keys)
    ensures CallLetters(a[1..]) == CallLetters(a) - {CallLetter(a[0])}
  {
    assert a == [a[0]] + a[1..];
    CallLettersAppend([a[0]], a[1..]);
    CallLettersOne(a[0]);
    forall c | c in a[1..]
      ensures CallLetter(c) != CallLetter(a[0])
    {
      var i :| 0 <= i < |a[1..]| && a[1..][i] == c;
      assert a[i + 1] == c;
      assert KeyOf(c) != KeyOf(a[0]);
    }
  }

  // ----- One join. -----

  lemma MergeSettled(left: Trace, right: Trace, alphabet: set<Letter>, names: CallKey -> string, keys: SortKeys)
    requires Injective(keys)
    requires Joinable(left, alphabet, names) && Joinable(right, alphabet, names)
    requires Letters(left) != {} || Letters(right) != {}
    ensures var d := MergeWidened(left, right, keys);
            d.Widened? && Settled(d, alphabet, names, keys) && Letters(d) == Letters(left) + Letters(right)
  {
    var d := MergeWidened(left, right, keys);
    MergeLetters(left, right, keys);
    var m := InsertCalls([], Calls(left), keys);
    InsertCallsOrdered([], Calls(left), keys);
    InsertCallsOrdered(m, Calls(right), keys);
    assert Letters(Empty) == {};
  }

  lemma WidenSettled(t: Trace, alphabet: set<Letter>, names: CallKey -> string, keys: SortKeys)
    requires Injective(keys)
    requires Letters(t) != {} && Letters(t) <= alphabet && Named(Calls(t), names)
    ensures var d := IntoWidened(t, keys);
            d.Widened? && Settled(d, alphabet, names, keys) && Letters(d) == Letters(t)
  {
    WidenLetters(t, keys);
    InsertCallsOrdered([], Calls(t), keys);
    assert Letters(Empty) == {};
  }

  lemma LettersGrow(a: set<Letter>, b: set<Letter>)
    requires a <= b
    ensures |a| <= |b|
    ensures a != b ==> |a| < |b|
  {
    assert b == a + (b - a);
    if a != b {
      var x :| x in b && x !in a;
      assert x in b - a;
    }
  }

  /** An unordered trace that keeps its letters keeps its value. */
  lemma UnorderedUnique(c: Trace, d: Trace, alphabet: set<Letter>, names: CallKey -> string, keys: SortKeys)
    requires Settled(c, alphabet, names, keys) && Settled(d, alphabet, names, keys)
    requires (c.UnknownOrder? && d.UnknownOrder?) || (c.Widened? && d.Widened?)
    requires Letters(c) == Letters(d)
    ensures c == d
  {
    forall a
      ensures a in c.actions <==> a in d.actions
    {
      assert Act(a) in Letters(c) <==> a in c.actions;
      assert Act(a) in Letters(d) <==> a in d.actions;
    }
    assert c.actions == d.actions;
    if c.Widened? {
      forall l
        ensures l in CallLetters(c.calls) <==> l in CallLetters(d.calls)
      {
        if l.Call? {
          assert l in Letters(c) <==> l in CallLetters(c.calls);
          assert l in Letters(d) <==> l in CallLetters(d.calls);
        }
      }
      OrderedCallsUnique(c.calls, d.calls, names, keys);
    }
  }

  lemma NamedChoice(ts: seq<Trace>, a: Trace, b: Trace, names: CallKey -> string)
    requires Elems(ts) <= Elems(ChoiceParts(a) + ChoiceParts(b))
    requires Named(Calls(a), names) && Named(Calls(b), names)
    ensures Named(AllCalls(ts), names)
  {
    var items := ChoiceParts(a) + ChoiceParts(b);
    forall c | c in AllCalls(ts)
      ensures c.parameter == names(KeyOf(c))
    {
      AllCallsMember(ts, c);
      var t :| t in ts && c in Calls(t);
      assert t in Elems(items);
      if t in ChoiceParts(a) {
        AllCallsMember(ChoiceParts(a), c);
        AllCallsOne(a);
      } else {
        AllCallsMember(ChoiceParts(b), c);
        AllCallsOne(b);
      }
    }
  }

  /** A choice that holds every part of `c` is larger than `c`, unless it is `c`. */
  lemma LargerChoice(c: Trace, branches: seq<Trace>, keys: SortKeys)
    requires Strictly(branches, keys.trace) && Elems(ChoiceParts(c)) <= Elems(branches)
    requires c.Choice? ==> Strictly(c.parts, keys.trace)
    ensures Choice(branches) != c ==> Size(Choice(branches)) > Size(c)
  {
    if c.Choice? {
      SortedGrowth(c.parts, branches, keys);
    } else {
      assert c in ChoiceParts(c) && c in Elems(branches);
      MemberSize(branches, c);
    }
  }

  /** Joining two traces that both keep their structure. */
  lemma {:induction false} StructuredStep(c: Trace, x: Trace, alphabet: set<Letter>, names: CallKey -> string, keys: SortKeys)
    requires Injective(keys) && Settled(c, alphabet, names, keys) && Joinable(x, alphabet, names)
    requires !Lossy(c, x) && c != x
    ensures Settled(ChoiceOp(c, x, keys), alphabet, names, keys)
    ensures ChoiceOp(c, x, keys) != c ==> Potential(ChoiceOp(c, x, keys)) > Potential(c)
  {
    var joined := Choice(SortDedup(ChoiceParts(c) + ChoiceParts(x), keys));
    StructuredJoin(c, x, alphabet, names, keys);
    if Fits(joined) {
      FittingStep(c, x, keys);
    } else {
      WidenSettled(joined, alphabet, names, keys);
    }
  }

  lemma StructuredJoin(c: Trace, x: Trace, alphabet: set<Letter>, names: CallKey -> string, keys: SortKeys)
    requires Injective(keys) && Settled(c, alphabet, names, keys) && Joinable(x, alphabet, names)
    requires !Lossy(c, x) && c != x
    ensures var branches := SortDedup(ChoiceParts(c) + ChoiceParts(x), keys);
            && ChoiceJoin(c, x, keys) == Choice(branches) && ChoiceOp(c, x, keys) == WidenIfNeeded(Choice(branches), keys)
            && Joinable(Choice(branches), alphabet, names) && Strictly(branches, keys.trace)
  {
    var items := ChoiceParts(c) + ChoiceParts(x);
    SortDedupElems(items, keys);
    SortDedupSorted(items, keys);
    NamedChoice(SortDedup(items, keys), c, x, names);
    ChoiceLetters(c, x, keys);
  }

  lemma FittingStep(c: Trace, x: Trace, keys: SortKeys)
    requires Injective(keys) && (c.Choice? ==> Strictly(c.parts, keys.trace))
    requires !c.UnknownOrder? && !c.Widened?
    ensures var joined := Choice(SortDedup(ChoiceParts(c) + ChoiceParts(x), keys)); joined != c ==> Potential(joined) > Potential(c)
  {
    var items := ChoiceParts(c) + ChoiceParts(x);
    SortDedupElems(items, keys);
    SortDedupSorted(items, keys);
    ElemsAppend(ChoiceParts(c), ChoiceParts(x));
    LargerChoice(c, SortDedup(items, keys), keys);
  }

  /** A join that loses the order gives a settled unordered trace over both alphabets. */
  lemma {:induction false} UnorderedJoin(c: Trace, x: Trace, alphabet: set<Letter>, names: CallKey -> string, keys: SortKeys)
    requires Injective(keys) && Joinable(c, alphabet, names) && Joinable(x, alphabet, names)
    requires Lossy(c, x) && c != x
    ensures var d := ChoiceJoin(c, x, keys);
            && (d.Widened? || (d.UnknownOrder? && !c.Widened?))
            && Settled(d, alphabet, names, keys)
            && Letters(d) == Letters(c) + Letters(x)
  {
    ChoiceLetters(c, x, keys);
    assert Letters(Empty) == {};
    assert Letters(c) != {} || Letters(x) != {};
    if c.Widened? {
      MergeSettled(c, x, alphabet, names, keys);
    } else if x.Widened? {
      MergeSettled(x, c, alphabet, names, keys);
    } else if c.UnknownOrder? && Calls(x) != [] {
      MergeSettled(c, x, alphabet, names, keys);
    } else if !c.UnknownOrder? && Calls(c) != [] {
      MergeSettled(x, c, alphabet, names, keys);
    }
  }

  /** Joining when at least one operand has lost its order. */
  lemma {:induction false} UnorderedStep(c: Trace, x: Trace, alphabet: set<Letter>, names: CallKey -> string, keys: SortKeys)
    requires Injective(keys) && Settled(c, alphabet, names, keys) && Joinable(x, alphabet, names)
    requires Lossy(c, x) && c != x
    ensures Settled(ChoiceOp(c, x, keys), alphabet, names, keys)
    ensures ChoiceOp(c, x, keys) != c ==> Potential(ChoiceOp(c, x, keys)) > Potential(c)
  {
    var d := ChoiceJoin(c, x, keys);
    UnorderedJoin(c, x, alphabet, names, keys);
    assert ChoiceOp(c, x, keys) == d;
    LettersGrow(Letters(c), Letters(d));
    if (c.UnknownOrder? && d.UnknownOrder?) || (c.Widened? && d.Widened?) {
      if Letters(c) == Letters(d) {
        UnorderedUnique(c, d, alphabet, names, keys);
      }
    }
  }

  /** A join keeps the invariant, and every change it reports raises the potential. */
  lemma ChoiceStep(c: Trace, x: Trace, alphabet: set<Letter>, names: CallKey -> string, keys: SortKeys)
    requires Injective(keys) && Settled(c, alphabet, names, keys) && Joinable(x, alphabet, names)
    ensures Settled(ChoiceOp(c, x, keys), alphabet, names, keys)
    ensures ChoiceOp(c, x, keys) != c ==> Potential(ChoiceOp(c, x, keys)) > Potential(c)
  {
    if c != x {
      if Lossy(c, x) {
        UnorderedStep(c, x, alphabet, names, keys);
      } else {
        StructuredStep(c, x, alphabet, names, keys);
      }
    }
  }

  // ----- Whole runs. -----

  /** Where steps along the inputs lead. */
  function RunBy<T>(step: (T, T) -> T, c: T, xs: seq<T>): T
    decreases |xs|
  {
    if xs == [] then c else RunBy(step, step(c, xs[0]), xs[1..])
  }

  /** How often a step along the inputs changes the value. */
  function ChangesBy<T(==)>(step: (T, T) -> T, c: T, xs: seq<T>): nat
    decreases |xs|
  {
    if xs == [] then 0 else (if step(c, xs[0]) != c then 1 else 0) + ChangesBy(step, step(c, xs[0]), xs[1..])
  }

  function Join(keys: SortKeys): (Trace, Trace) -> Trace
  {
    (c: Trace, x: Trace) => ChoiceOp(c, x, keys)
  }

  function JoinRun(c: Trace, xs: seq<Trace>, keys: SortKeys): Trace
  {
    RunBy(Join(keys), c, xs)
  }

  /** How often `choice_assign` reports a change along a run. */
  function Changes(c: Trace, xs: seq<Trace>, keys: SortKeys): nat
  {
    ChangesBy(Join(keys), c, xs)
  }

  /** A measure that no step lowers and every change raises bounds the changes of a run. */
  lemma {:induction false} MeasuredRun<T(!new)>(step: (T, T) -> T, inv: T -> bool, input: T -> bool, measure: T -> nat, c: T, xs: seq<T>)
    requires forall t, x :: inv(t) && input(x) ==> inv(step(t, x)) && (step(t, x) != t ==> measure(step(t, x)) > measure(t))
    requires inv(c) && forall x :: x in xs ==> input(x)
    ensures inv(RunBy(step, c, xs)) && measure(c) + ChangesBy(step, c, xs) <= measure(RunBy(step, c, xs))
    decreases |xs|
  {
    if xs != [] {
      assert xs[0] in xs;
      MeasuredRun(step, inv, input, measure, step(c, xs[0]), xs[1..]);
    }
  }

  lemma {:induction false} RunBound(c: Trace, xs: seq<Trace>, alphabet: set<Letter>, names: CallKey -> string, keys: SortKeys)
    requires Injective(keys) && Settled(c, alphabet, names, keys)
    requires forall x :: x in xs ==> Joinable(x, alphabet, names)
    ensures Settled(JoinRun(c, xs, keys), alphabet, names, keys)
    ensures Potential(c) + Changes(c, xs, keys) <= Potential(JoinRun(c, xs, keys))
  {
    var inv, input := (t: Trace) => Settled(t, alphabet, names, keys), (t: Trace) => Joinable(t, alphabet, names);
    forall t, x | inv(t) && input(x)
      ensures inv(Join(keys)(t, x)) && (Join(keys)(t, x) != t ==> Potential(Join(keys)(t, x)) > Potential(t))
    {
      ChoiceStep(t, x, alphabet, names, keys);
    }
    MeasuredRun(Join(keys), inv, input, Potential, c, xs);
  }

  /**
   * Joining stabilizes: from `Empty`, any run of joins over a finite alphabet reports at most
   * 33 + |alphabet| changes, and its result is repeat-free with at most 32 nodes.
   */
  lemma {:induction false} JoinStabilizes(xs: seq<Trace>, alphabet: set<Letter>, names: CallKey -> string, keys: SortKeys)
    requires Injective(keys)
    requires forall x :: x in xs ==> Joinable(x, alphabet, names)
    ensures Changes(Empty, xs, keys) <= FixpointTraceNodeLimit + 1 + |alphabet|
    ensures var r := JoinRun(Empty, xs, keys); Size(r) <= FixpointTraceNodeLimit && !ContainsRepeat(r)
  {
    assert Letters(Empty) == {};
    RunBound(Empty, xs, alphabet, names, keys);
    LettersGrow(Letters(JoinRun(Empty, xs, keys)), alphabet);
  }

  // ----- Both conditions on the inputs are needed. -----

  /** The same two inputs, one after the other, for that many rounds. */
  function Rounds<T>(a: T, b: T, n: nat): seq<T>
  {
    if n == 0 then [] else [a, b] + Rounds(a, b, n - 1)
  }

  /** Inputs that lead away and back again change the value in every round. */
  lemma {:induction false} RoundsChange<T>(step: (T, T) -> T, c: T, a: T, b: T, n: nat)
    requires step(c, a) != c && step(step(c, a), b) == c
    ensures ChangesBy(step, c, Rounds(a, b, n)) == 2 * n
  {
    if n > 0 {
      var xs := Rounds(a, b, n);
      assert xs[0] == a && xs[1..][0] == b && xs[1..][1..] == Rounds(a, b, n - 1);
      RoundsChange(step, c, a, b, n - 1);
    }
  }

  ghost predicate LetterFree(t: Trace)
  {
    Actions(t) == {} && Calls(t) == []
  }

  lemma LetterFreeLetters(t: Trace)
    ensures LetterFree(t) <==> Letters(t) == {}
  {
    NonEmptyCallLetters(Calls(t));
    if a :| a in Actions(t) {
      assert Act(a) in Letters(t);
    }
  }

  lemma LetterFreeWidens(a: Trace, b: Trace, keys: SortKeys)
    requires LetterFree(a) && LetterFree(b)
    ensures IntoWidened(a, keys) == Empty && MergeWidened(a, b, keys) == Empty
  {
  }

  /** A join that does not fit for `c` does not fit for a choice that holds `c` either. */
  lemma StillTooLarge(c: Trace, wider: seq<Trace>, x: Trace, keys: SortKeys)
    requires Injective(keys) && Elems(ChoiceParts(c)) <= Elems(wider)
    requires !Fits(Choice(SortDedup(ChoiceParts(c) + ChoiceParts(x), keys)))
    ensures !Fits(Choice(SortDedup(wider + ChoiceParts(x), keys)))
  {
    var small, large := ChoiceParts(c) + ChoiceParts(x), wider + ChoiceParts(x);
    ElemsAppend(ChoiceParts(c), ChoiceParts(x));
    ElemsAppend(wider, ChoiceParts(x));
    SortDedupElems(small, keys);
    SortDedupElems(large, keys);
    SortDedupSorted(small, keys);
    SortDedupSorted(large, keys);
    SortedGrowth(SortDedup(small, keys), SortDedup(large, keys), keys);
    AnyContainsRepeatMember(SortDedup(small, keys));
    AnyContainsRepeatMember(SortDedup(large, keys));
    assert forall t :: t in SortDedup(small, keys) ==> t in Elems(SortDedup(large, keys));
  }

  /** Between `Empty` and a task wait there is a choice of three nodes, in one order or the other. */
  lemma AwaitChoice(keys: SortKeys) returns (parts: seq<Trace>)
    requires Injective(keys)
    ensures ChoiceOp(Empty, TaskAwait(0), keys) == Choice(parts) && LetterFree(Choice(parts)) && Fits(Choice(parts))
    ensures Strictly(parts, keys.trace) && Elems(parts) == {Empty, TaskAwait(0)}
  {
    var items := [Empty, TaskAwait(0)];
    parts := SortDedup(items, keys);
    assert items == [Empty] + [TaskAwait(0)];
    assert Elems(items) == {Empty, TaskAwait(0)};
    SortDedupElems(items, keys);
    SortDedupSorted(items, keys);
    AwaitSmall(keys);
  }

  lemma AwaitSmall(keys: SortKeys)
    ensures var c := Choice(SortDedup([Empty, TaskAwait(0)], keys)); LetterFree(c) && Fits(c)
  {
    AwaitSorted(keys);
    if SortBy([Empty, TaskAwait(0)], keys.trace) == [Empty, TaskAwait(0)] {
      TwoParts(Empty, TaskAwait(0));
    } else {
      TwoParts(TaskAwait(0), Empty);
    }
  }

  lemma AwaitSorted(keys: SortKeys)
    ensures var sorted := SortBy([Empty, TaskAwait(0)], keys.trace); sorted == [Empty, TaskAwait(0)] || sorted == [TaskAwait(0), Empty]
  {
    var items := [Empty, TaskAwait(0)];
    assert Rest(items) == [Empty] && Top(items) == TaskAwait(0) && Rest([Empty]) == [];
    assert SortBy([Empty], keys.trace) == [Empty];
  }

  lemma TwoParts(p: Trace, q: Trace)
    requires p != q && Size(p) == Size(q) == 1 && !ContainsRepeat(p) && !ContainsRepeat(q) && LetterFree(p) && LetterFree(q)
    ensures Dedup([p, q]) == [p, q] && Fits(Choice([p, q])) && LetterFree(Choice([p, q]))
  {
    assert [p, q][1..] == [q];
    assert Dedup([q]) == [q];
    OnePart(q);
  }

  lemma OnePart(q: Trace)
    requires LetterFree(q)
    ensures SizeAll([q]) == Size(q) && AnyContainsRepeat([q]) == ContainsRepeat(q) && AllActions([q]) == {} && AllCalls([q]) == []
  {
    var none: seq<Trace> := [];
    assert [q][1..] == none;
    assert SizeAll(none) == 0 && !AnyContainsRepeat(none) && AllActions(none) == {} && AllCalls(none) == [];
  }

  /** Joining letter-free traces gives a letter-free one, which widens to `Empty`. */
  lemma LetterFreeJoin(c: Trace, x: Trace, keys: SortKeys)
    requires LetterFree(c) && LetterFree(x)
    ensures LetterFree(ChoiceJoin(c, x, keys)) && IntoWidened(ChoiceJoin(c, x, keys), keys) == Empty
    ensures Letters(ChoiceOp(c, x, keys)) == {}
  {
    ChoiceLetters(c, x, keys);
    LetterFreeLetters(c);
    LetterFreeLetters(x);
    LetterFreeLetters(ChoiceJoin(c, x, keys));
    LetterFreeWidens(ChoiceJoin(c, x, keys), x, keys);
  }

  /** A choice that already holds `Empty` is kept when it is joined to `Empty`. */
  lemma ChoiceWithEmpty(parts: seq<Trace>, keys: SortKeys)
    requires Injective(keys) && Strictly(parts, keys.trace) && Empty in Elems(parts) && Fits(Choice(parts))
    ensures ChoiceOp(Empty, Choice(parts), keys) == Choice(parts)
  {
    SortWithEmpty(parts, keys);
    assert ChoiceJoin(Empty, Choice(parts), keys) == Choice(parts);
  }

  lemma SortWithEmpty(parts: seq<Trace>, keys: SortKeys)
    requires Injective(keys) && Strictly(parts, keys.trace) && Empty in Elems(parts)
    ensures SortDedup([Empty] + parts, keys) == parts
  {
    var items := [Empty] + parts;
    ElemsAppend([Empty], parts);
    SortDedupElems(items, keys);
    SortDedupSorted(items, keys);
    SortedSame(SortDedup(items, keys), parts, keys);
  }

  /** A sorted list is determined by its elements. */
  lemma SortedSame(a: seq<Trace>, b: seq<Trace>, keys: SortKeys)
    requires Strictly(a, keys.trace) && Strictly(b, keys.trace) && Elems(a) == Elems(b)
    ensures a == b
  {
    SortedGrowth(a, b, keys);
    SortedGrowth(b, a, keys);
  }

  /** An input that is widened away at `Empty` is widened away at the choice with a task wait too. */
  lemma AwaitUndone(x: Trace, keys: SortKeys)
    requires Injective(keys) && LetterFree(x) && !x.Empty? && !x.Widened? && ChoiceOp(Empty, x, keys) == Empty
    ensures var away := ChoiceOp(Empty, TaskAwait(0), keys); away != Empty && ChoiceOp(away, x, keys) == Empty
  {
    var parts := AwaitChoice(keys);
    assert !x.UnknownOrder?;
    ChoiceWithEmpty(parts, keys);
    StillTooLarge(Empty, parts, x, keys);
    LetterFreeJoin(Choice(parts), x, keys);
  }

  /** What keeps its structure at `Empty` is lost again to a letter-free widened trace. */
  lemma StructureUndone(x: Trace, keys: SortKeys)
    requires LetterFree(x) && ChoiceOp(Empty, x, keys) != Empty
    ensures ChoiceOp(ChoiceOp(Empty, x, keys), Widened({}, []), keys) == Empty
  {
    var away := ChoiceOp(Empty, x, keys);
    LetterFreeJoin(Empty, x, keys);
    LetterFreeLetters(away);
    LetterFreeWidens(Widened({}, []), away, keys);
    LetterFreeWidens(away, Widened({}, []), keys);
  }

  /** From `Empty` the first input leads away and the second back again, and neither has a letter. */
  ghost predicate Alternate(step: (Trace, Trace) -> Trace, a: Trace, b: Trace)
  {
    step(Empty, a) != Empty && step(step(Empty, a), b) == Empty && LetterFree(a) && LetterFree(b)
  }

  lemma AlternateBy(step: (Trace, Trace) -> Trace, a: Trace, b: Trace, away: Trace)
    requires step(Empty, a) == away && away != Empty && step(away, b) == Empty && LetterFree(a) && LetterFree(b)
    ensures Alternate(step, a, b)
  {
  }

  lemma JoinIsChoice(c: Trace, x: Trace, keys: SortKeys)
    ensures Join(keys)(c, x) == ChoiceOp(c, x, keys)
  {
  }

  lemma BareLeavesAreLetterFree()
    ensures LetterFree(UnknownOrder({})) && LetterFree(TaskAwait(0)) && LetterFree(Widened({}, []))
  {
  }

  lemma WidenedUndone(x: Trace, keys: SortKeys)
    requires LetterFree(x) && x.Widened?
    ensures ChoiceOp(Empty, UnknownOrder({}), keys) == UnknownOrder({}) && ChoiceOp(UnknownOrder({}), x, keys) == Empty
  {
  }

  lemma WidenedAlternates(x: Trace, keys: SortKeys)
    requires LetterFree(x) && x.Widened?
    ensures Alternate(Join(keys), UnknownOrder({}), x)
  {
    var a := UnknownOrder({});
    WidenedUndone(x, keys);
    BareLeavesAreLetterFree();
    JoinIsChoice(Empty, a, keys);
    JoinIsChoice(a, x, keys);
    AlternateBy(Join(keys), a, x, a);
  }

  lemma AwaitAlternates(x: Trace, keys: SortKeys)
    requires Injective(keys) && LetterFree(x) && !x.Empty? && !x.Widened? && ChoiceOp(Empty, x, keys) == Empty
    ensures Alternate(Join(keys), TaskAwait(0), x)
  {
    var away := ChoiceOp(Empty, TaskAwait(0), keys);
    AwaitUndone(x, keys);
    BareLeavesAreLetterFree();
    JoinIsChoice(Empty, TaskAwait(0), keys);
    JoinIsChoice(away, x, keys);
    AlternateBy(Join(keys), TaskAwait(0), x, away);
  }

  lemma StructureAlternates(x: Trace, keys: SortKeys)
    requires LetterFree(x) && ChoiceOp(Empty, x, keys) != Empty
    ensures Alternate(Join(keys), x, Widened({}, []))
  {
    var away := ChoiceOp(Empty, x, keys);
    StructureUndone(x, keys);
    BareLeavesAreLetterFree();
    JoinIsChoice(Empty, x, keys);
    JoinIsChoice(away, Widened({}, []), keys);
    AlternateBy(Join(keys), x, Widened({}, []), away);
  }

  lemma Alternates(x: Trace, keys: SortKeys) returns (a: Trace, b: Trace)
    requires Injective(keys) && LetterFree(x) && !x.Empty?
    ensures (x == a || x == b) && Alternate(Join(keys), a, b)
  {
    if x.Widened? {
      a, b := UnknownOrder({}), x;
      WidenedAlternates(x, keys);
    } else if ChoiceOp(Empty, x, keys) == Empty {
      a, b := TaskAwait(0), x;
      AwaitAlternates(x, keys);
    } else {
      a, b := x, Widened({}, []);
      StructureAlternates(x, keys);
    }
  }

  /**
   * The letter condition is sharp: every input without a letter other than `Empty` has a partner with
   * which it changes the result in every round, for ever.
   */
  lemma LetterFreeInputsKeepChanging(x: Trace, keys: SortKeys) returns (a: Trace, b: Trace)
    requires Injective(keys) && Letters(x) == {} && !x.Empty?
    ensures (x == a || x == b) && Letters(a) == {} && Letters(b) == {}
    ensures forall n: nat :: Changes(Empty, Rounds(a, b, n), keys) == 2 * n
  {
    LetterFreeLetters(x);
    a, b := Alternates(x, keys);
    LetterFreeLetters(a);
    LetterFreeLetters(b);
    forall n: nat
      ensures Changes(Empty, Rounds(a, b, n), keys) == 2 * n
    {
      RoundsChange(Join(keys), Empty, a, b, n);
    }
  }

  /** The naming condition is sharp: two names under one call key replace each other for ever. */
  lemma TwoNamesKeepChanging(a: ParameterCallRef, b: ParameterCallRef, n: nat, keys: SortKeys)
    requires KeyOf(a) == KeyOf(b) && a != b
    ensures Changes(Widened({}, [b]), Rounds(Widened({}, [a]), Widened({}, [b]), n), keys) == 2 * n
  {
    TwoNamesSwap(a, b, keys);
    TwoNamesSwap(b, a, keys);
    RoundsChange(Join(keys), Widened({}, [b]), Widened({}, [a]), Widened({}, [b]), n);
  }

  lemma TwoNamesSwap(a: ParameterCallRef, b: ParameterCallRef, keys: SortKeys)
    requires KeyOf(a) == KeyOf(b) && a != b
    ensures ChoiceOp(Widened({}, [b]), Widened({}, [a]), keys) == Widened({}, [a])
  {
    assert InsertCalls([], [b], keys) == InsertCalls([b], [], keys) == [b];
    assert InsertCall([b], a, keys) == [a];
    assert InsertCalls([b], [a], keys) == InsertCalls([a], [], keys) == [a];
  }
}
