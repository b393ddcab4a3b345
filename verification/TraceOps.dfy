/** Sequencing, choice, repetition and widening of traces, and their soundness for word meanings. */
module TraceOps {
  import opened Prelude
  import opened Effects
  import opened Traces
  import opened Words
  import opened SortedLists

  const FixpointTraceNodeLimit: nat := 32

  datatype CallKey = CallKey(target: ParameterCallTarget, span: Span)

  /** The sort key of a trace (its debug text) and the map key order of parameter calls. */
  datatype SortKeys = SortKeys(trace: Trace -> Rank, call: CallKey -> Rank)

  ghost predicate Injective(keys: SortKeys)
  {
    && (forall a, b :: keys.trace(a) == keys.trace(b) ==> a == b)
    && (forall a, b :: keys.call(a) == keys.call(b) ==> a == b)
  }

  function KeyOf(c: ParameterCallRef): CallKey
  {
    CallKey(c.target, c.span)
  }

  // ----- The ordered map of parameter calls, as the list of its values in key order. -----

  function InsertCall(m: seq<ParameterCallRef>, c: ParameterCallRef, keys: SortKeys): seq<ParameterCallRef>
  {
    if m == [] || keys.call(KeyOf(c)) < keys.call(KeyOf(m[0])) then [c] + m
    else if KeyOf(c) == KeyOf(m[0]) then [c] + m[1..]
    else [m[0]] + InsertCall(m[1..], c, keys)
  }

  function InsertCalls(m: seq<ParameterCallRef>, cs: seq<ParameterCallRef>, keys: SortKeys): seq<ParameterCallRef>
    decreases |cs|
  {
    if cs == [] then m else InsertCalls(InsertCall(m, cs[0], keys), cs[1..], keys)
  }

  // ----- Sorting and deduplication of choice branches. -----

  /** Removes consecutive repetitions. */
  function Dedup(ts: seq<Trace>): seq<Trace>
  {
    if |ts| <= 1 then ts
    else if ts[0] == ts[1] then Dedup(ts[1..])
    else [ts[0]] + Dedup(ts[1..])
  }

  function SortDedup(ts: seq<Trace>, keys: SortKeys): seq<Trace>
  {
    Dedup(SortBy(ts, keys.trace))
  }

  // ----- The operators. -----

  function MakeWidened(actions: set<Effect>, calls: seq<ParameterCallRef>): Trace
  {
    if actions == {} && calls == [] then Empty else Widened(actions, calls)
  }

  function IntoWidened(t: Trace, keys: SortKeys): Trace
  {
    MakeWidened(Actions(t), InsertCalls([], Calls(t), keys))
  }

  function MergeWidened(left: Trace, right: Trace, keys: SortKeys): Trace
  {
    MakeWidened(Actions(left) + Actions(right), InsertCalls(InsertCalls([], Calls(left), keys), Calls(right), keys))
  }

  function WidenIfNeeded(t: Trace, keys: SortKeys): Trace
  {
    if Size(t) <= FixpointTraceNodeLimit && !ContainsRepeat(t) then t else IntoWidened(t, keys)
  }

  /** `unordered` is an `UnknownOrder`; the other operand loses its order too. */
  function Absorb(unordered: Trace, other: Trace, keys: SortKeys): Trace
    requires unordered.UnknownOrder?
  {
    if other.Widened? || Calls(other) != [] then MergeWidened(unordered, other, keys)
    else UnknownOrder(unordered.actions + Actions(other))
  }

  function SeqParts(t: Trace): seq<Trace>
  {
    if t.Seq? then t.parts else [t]
  }

  function ChoiceParts(t: Trace): seq<Trace>
  {
    if t.Choice? then t.parts else [t]
  }

  /** The sequential composition before the node limit is applied. */
  function SeqJoin(a: Trace, b: Trace, keys: SortKeys): Trace
  {
    if a.Empty? then b
    else if b.Empty? then a
    else if a.UnknownOrder? && b.UnknownOrder? then UnknownOrder(a.actions + b.actions)
    else if a.Widened? then MergeWidened(a, b, keys)
    else if b.Widened? then MergeWidened(b, a, keys)
    else if a.UnknownOrder? then Absorb(a, b, keys)
    else if b.UnknownOrder? then Absorb(b, a, keys)
    else Seq(SeqParts(a) + SeqParts(b))
  }

  function SeqOp(a: Trace, b: Trace, keys: SortKeys): Trace
  {
    WidenIfNeeded(SeqJoin(a, b, keys), keys)
  }

  /** The choice before the node limit is applied. */
  function ChoiceJoin(a: Trace, b: Trace, keys: SortKeys): Trace
  {
    if a == b then a
    else if a.UnknownOrder? && b.UnknownOrder? then UnknownOrder(a.actions + b.actions)
    else if a.Widened? then MergeWidened(a, b, keys)
    else if b.Widened? then MergeWidened(b, a, keys)
    else if a.UnknownOrder? then Absorb(a, b, keys)
    else if b.UnknownOrder? then Absorb(b, a, keys)
    else Choice(SortDedup(ChoiceParts(a) + ChoiceParts(b), keys))
  }

  function ChoiceOp(a: Trace, b: Trace, keys: SortKeys): Trace
  {
    WidenIfNeeded(ChoiceJoin(a, b, keys), keys)
  }

  function RepeatOp(t: Trace): Trace
  {
    if t.Empty? || t.Repeat? then t else Repeat(t)
  }

  function Stabilize(t: Trace, current: Option<Trace>, keys: SortKeys): Trace
  {
    if Size(t) > FixpointTraceNodeLimit || ContainsRepeat(t) || (current.Some? && ContainsRepeat(current.value))
    then IntoWidened(t, keys)
    else t
  }

  // ----- Letter conservation. -----

  lemma {:induction false} InsertCallLetters(m: seq<ParameterCallRef>, c: ParameterCallRef, keys: SortKeys)
    ensures CallLetters(InsertCall(m, c, keys)) == CallLetters(m) + {CallLetter(c)}
  {
    if m == [] || keys.call(KeyOf(c)) < keys.call(KeyOf(m[0])) {
      CallLettersAppend([c], m);
    } else if KeyOf(c) == KeyOf(m[0]) {
      CallLettersAppend([c], m[1..]);
      assert m == [m[0]] + m[1..];
      CallLettersAppend([m[0]], m[1..]);
    } else {
      InsertCallLetters(m[1..], c, keys);
      CallLettersAppend([m[0]], InsertCall(m[1..], c, keys));
      assert m == [m[0]] + m[1..];
      CallLettersAppend([m[0]], m[1..]);
    }
  }

  lemma CallLettersAppend(a: seq<ParameterCallRef>, b: seq<ParameterCallRef>)
    ensures CallLetters(a + b) == CallLetters(a) + CallLetters(b)
  {
    assert forall c :: c in a + b <==> c in a || c in b;
  }

  lemma CallLettersOne(c: ParameterCallRef)
    ensures CallLetters([c]) == {CallLetter(c)}
  {
  }

  lemma {:induction false} InsertCallsLetters(m: seq<ParameterCallRef>, cs: seq<ParameterCallRef>, keys: SortKeys)
    ensures CallLetters(InsertCalls(m, cs, keys)) == CallLetters(m) + CallLetters(cs)
    decreases |cs|
  {
    if cs == [] {
      assert CallLetters(cs) == {};
    } else {
      InsertCallLetters(m, cs[0], keys);
      InsertCallsLetters(InsertCall(m, cs[0], keys), cs[1..], keys);
      assert cs == [cs[0]] + cs[1..];
      CallLettersAppend([cs[0]], cs[1..]);
    }
  }

  lemma MakeWidenedLetters(actions: set<Effect>, calls: seq<ParameterCallRef>)
    ensures Letters(MakeWidened(actions, calls)) == ActLetters(actions) + CallLetters(calls)
  {
    if actions == {} && calls == [] {
      assert ActLetters(actions) == {} && CallLetters(calls) == {};
    }
  }

  /** Widening keeps exactly the letters of the trace. */
  lemma WidenLetters(t: Trace, keys: SortKeys)
    ensures Letters(IntoWidened(t, keys)) == Letters(t)
    ensures Letters(WidenIfNeeded(t, keys)) == Letters(t)
  {
    InsertCallsLetters([], Calls(t), keys);
    assert CallLetters([]) == {};
    MakeWidenedLetters(Actions(t), InsertCalls([], Calls(t), keys));
  }

  lemma MergeLetters(left: Trace, right: Trace, keys: SortKeys)
    ensures Letters(MergeWidened(left, right, keys)) == Letters(left) + Letters(right)
  {
    var m := InsertCalls([], Calls(left), keys);
    InsertCallsLetters([], Calls(left), keys);
    assert CallLetters([]) == {};
    InsertCallsLetters(m, Calls(right), keys);
    MakeWidenedLetters(Actions(left) + Actions(right), InsertCalls(m, Calls(right), keys));
    assert ActLetters(Actions(left) + Actions(right)) == ActLetters(Actions(left)) + ActLetters(Actions(right));
  }

  lemma AbsorbLetters(unordered: Trace, other: Trace, keys: SortKeys)
    requires unordered.UnknownOrder?
    ensures Letters(Absorb(unordered, other, keys)) == Letters(unordered) + Letters(other)
  {
    if other.Widened? || Calls(other) != [] {
      MergeLetters(unordered, other, keys);
    } else {
      assert ActLetters(unordered.actions + Actions(other)) == ActLetters(unordered.actions) + ActLetters(Actions(other));
      assert CallLetters([]) == {};
    }
  }

  lemma LettersOfAppend(a: seq<Trace>, b: seq<Trace>)
    ensures LettersOf(a + b) == LettersOf(a) + LettersOf(b)
  {
    AllActionsAppend(a, b);
    AllCallsAppend(a, b);
    CallLettersAppend(AllCalls(a), AllCalls(b));
    assert ActLetters(AllActions(a) + AllActions(b)) == ActLetters(AllActions(a)) + ActLetters(AllActions(b));
  }

  lemma LettersOfOne(t: Trace)
    ensures LettersOf([t]) == Letters(t)
  {
    assert [t][1..] == [];
    assert AllActions([t]) == Actions(t) + {} == Actions(t);
    assert AllCalls([t]) == Calls(t) + [] == Calls(t);
  }

  /** The letters of a list depend on its elements only. */
  lemma LettersOfElems(a: seq<Trace>, b: seq<Trace>)
    requires Elems(a) <= Elems(b)
    ensures LettersOf(a) <= LettersOf(b)
  {
    forall l | l in LettersOf(a)
      ensures l in LettersOf(b)
    {
      if l.Act? {
        AllActionsMember(a, l.action);
        var t :| t in a && l.action in Actions(t);
        assert t in Elems(b);
        AllActionsMember(b, l.action);
      } else {
        var c :| c in AllCalls(a) && CallLetter(c) == l;
        AllCallsMember(a, c);
        var t :| t in a && c in Calls(t);
        assert t in Elems(b);
        AllCallsMember(b, c);
      }
    }
  }

  lemma {:induction false} DedupElems(ts: seq<Trace>)
    ensures Elems(Dedup(ts)) == Elems(ts)
  {
    if |ts| > 1 {
      DedupElems(ts[1..]);
      assert ts == [ts[0]] + ts[1..];
      ElemsAppend([ts[0]], ts[1..]);
      if ts[0] != ts[1] {
        ElemsAppend([ts[0]], Dedup(ts[1..]));
      } else {
        assert ts[0] in ts[1..];
      }
    }
  }

  lemma SortDedupElems(ts: seq<Trace>, keys: SortKeys)
    ensures Elems(SortDedup(ts, keys)) == Elems(ts)
  {
    SortElems(ts, keys.trace);
    DedupElems(SortBy(ts, keys.trace));
  }

  lemma PartsLetters(t: Trace)
    ensures LettersOf(SeqParts(t)) == Letters(t)
    ensures LettersOf(ChoiceParts(t)) == Letters(t)
  {
    LettersOfOne(t);
  }

  /** `seq` keeps exactly the actions and call keys of its operands. */
  lemma SeqLetters(a: Trace, b: Trace, keys: SortKeys)
    ensures Letters(SeqOp(a, b, keys)) == Letters(a) + Letters(b)
  {
    var joined := SeqJoin(a, b, keys);
    WidenLetters(joined, keys);
    if a.Empty? || b.Empty? {
      assert Letters(Empty) == {};
    } else if a.UnknownOrder? && b.UnknownOrder? {
      assert ActLetters(a.actions + b.actions) == ActLetters(a.actions) + ActLetters(b.actions);
    } else if a.Widened? {
      MergeLetters(a, b, keys);
    } else if b.Widened? {
      MergeLetters(b, a, keys);
    } else if a.UnknownOrder? {
      AbsorbLetters(a, b, keys);
    } else if b.UnknownOrder? {
      AbsorbLetters(b, a, keys);
    } else {
      assert Letters(joined) == LettersOf(SeqParts(a) + SeqParts(b));
      LettersOfAppend(SeqParts(a), SeqParts(b));
      PartsLetters(a);
      PartsLetters(b);
    }
  }

  /** `choice` keeps exactly the actions and call keys of its operands. */
  lemma ChoiceLetters(a: Trace, b: Trace, keys: SortKeys)
    ensures Letters(ChoiceJoin(a, b, keys)) == Letters(a) + Letters(b)
    ensures Letters(ChoiceOp(a, b, keys)) == Letters(a) + Letters(b)
  {
    var joined := ChoiceJoin(a, b, keys);
    WidenLetters(joined, keys);
    if a == b {
    } else if a.UnknownOrder? && b.UnknownOrder? {
      assert ActLetters(a.actions + b.actions) == ActLetters(a.actions) + ActLetters(b.actions);
    } else if a.Widened? {
      MergeLetters(a, b, keys);
    } else if b.Widened? {
      MergeLetters(b, a, keys);
    } else if a.UnknownOrder? {
      AbsorbLetters(a, b, keys);
    } else if b.UnknownOrder? {
      AbsorbLetters(b, a, keys);
    } else {
      var items := ChoiceParts(a) + ChoiceParts(b);
      assert Letters(joined) == LettersOf(SortDedup(items, keys));
      SortDedupElems(items, keys);
      LettersOfElems(SortDedup(items, keys), items);
      LettersOfElems(items, SortDedup(items, keys));
      LettersOfAppend(ChoiceParts(a), ChoiceParts(b));
      PartsLetters(a);
      PartsLetters(b);
    }
  }

  /** `repeat` and `stabilize_for_fixpoint` keep exactly the letters of the trace. */
  lemma RepeatStabilizeLetters(t: Trace, current: Option<Trace>, keys: SortKeys)
    ensures Letters(RepeatOp(t)) == Letters(t)
    ensures Letters(Stabilize(t, current, keys)) == Letters(t)
  {
    WidenLetters(t, keys);
  }

  // ----- Soundness for word meanings. -----

  /** A trace that has lost its order means exactly all words over its letters. */
  lemma UnorderedWords(w: Word, t: Trace)
    requires t.Widened? || t.UnknownOrder? || t.Empty?
    ensures In(w, t) <==> Over(w, Letters(t))
  {
    assert CallLetters([]) == {};
    if t.Empty? && w != [] {
      assert w[0] in w;
    }
  }

  /** A widened trace means exactly all words over the letters of the trace. */
  lemma WidenMeaning(w: Word, t: Trace, keys: SortKeys)
    ensures In(w, IntoWidened(t, keys)) <==> Over(w, Letters(t))
  {
    UnorderedWords(w, IntoWidened(t, keys));
    WidenLetters(t, keys);
  }

  lemma MergeMeaning(w: Word, left: Trace, right: Trace, keys: SortKeys)
    ensures In(w, MergeWidened(left, right, keys)) <==> Over(w, Letters(left) + Letters(right))
  {
    UnorderedWords(w, MergeWidened(left, right, keys));
    MergeLetters(left, right, keys);
  }

  lemma AbsorbMeaning(w: Word, unordered: Trace, other: Trace, keys: SortKeys)
    requires unordered.UnknownOrder?
    ensures In(w, Absorb(unordered, other, keys)) <==> Over(w, Letters(unordered) + Letters(other))
  {
    UnorderedWords(w, Absorb(unordered, other, keys));
    AbsorbLetters(unordered, other, keys);
  }

  /** Widening only adds words. */
  lemma WidenSound(w: Word, t: Trace, current: Option<Trace>, keys: SortKeys)
    requires In(w, t)
    ensures In(w, IntoWidened(t, keys))
    ensures In(w, WidenIfNeeded(t, keys))
    ensures In(w, Stabilize(t, current, keys))
  {
    WordsOverLetters(w, t);
    WidenMeaning(w, t, keys);
  }

  lemma PartsMeaning(w: Word, t: Trace)
    ensures InSeq(w, SeqParts(t)) <==> In(w, t)
    ensures InSome(w, ChoiceParts(t)) <==> In(w, t)
  {
    SeqOne(w, t);
    if !t.Choice? {
      if In(w, t) {
        assert In(w, [t][0]);
      }
    }
  }

  lemma SomeElems(w: Word, a: seq<Trace>, b: seq<Trace>)
    requires Elems(a) <= Elems(b) && InSome(w, a)
    ensures InSome(w, b)
  {
    var i :| 0 <= i < |a| && In(w, a[i]);
    assert a[i] in Elems(a);
    assert a[i] in b;
    var j :| 0 <= j < |b| && b[j] == a[i];
  }

  /** When one operand has lost its order, sequencing and choice mean all words over both alphabets. */
  lemma UnorderedMeaning(w: Word, a: Trace, b: Trace, keys: SortKeys)
    requires a.UnknownOrder? || a.Widened? || b.UnknownOrder? || b.Widened?
    ensures !a.Empty? && !b.Empty? ==>
              (In(w, SeqJoin(a, b, keys)) <==> Over(w, Letters(a) + Letters(b)))
    ensures a != b ==>
              (In(w, ChoiceJoin(a, b, keys)) <==> Over(w, Letters(a) + Letters(b)))
  {
    if a.UnknownOrder? && b.UnknownOrder? {
      assert ActLetters(a.actions + b.actions) == Letters(a) + Letters(b);
    } else if a.Widened? {
      MergeMeaning(w, a, b, keys);
    } else if b.Widened? {
      MergeMeaning(w, b, a, keys);
      assert Letters(a) + Letters(b) == Letters(b) + Letters(a);
    } else if a.UnknownOrder? {
      AbsorbMeaning(w, a, b, keys);
    } else {
      AbsorbMeaning(w, b, a, keys);
      assert Letters(a) + Letters(b) == Letters(b) + Letters(a);
    }
  }

  predicate Lossy(a: Trace, b: Trace)
  {
    a.UnknownOrder? || a.Widened? || b.UnknownOrder? || b.Widened?
  }

  lemma {:induction false} SeqJoinSound(u: Word, v: Word, a: Trace, b: Trace, keys: SortKeys)
    requires In(u, a) && In(v, b)
    ensures In(u + v, SeqJoin(a, b, keys))
  {
    if a.Empty? {
      assert u + v == v;
    } else if b.Empty? {
      assert u + v == u;
    } else if Lossy(a, b) {
      WordsOverLetters(u, a);
      WordsOverLetters(v, b);
      OverConcat(u, v, Letters(a) + Letters(b));
      UnorderedMeaning(u + v, a, b, keys);
    } else {
      PartsMeaning(u, a);
      PartsMeaning(v, b);
      SeqConcat(u, v, SeqParts(a), SeqParts(b));
    }
  }

  /** Every concatenation of a word of `a` and a word of `b` is a word of `seq(a, b)`. */
  lemma {:induction false} SeqSound(u: Word, v: Word, a: Trace, b: Trace, keys: SortKeys)
    requires In(u, a) && In(v, b)
    ensures In(u + v, SeqOp(a, b, keys))
  {
    SeqJoinSound(u, v, a, b, keys);
    WidenSound(u + v, SeqJoin(a, b, keys), None, keys);
  }

  lemma {:induction false} ChoiceJoinSound(w: Word, a: Trace, b: Trace, keys: SortKeys)
    requires In(w, a) || In(w, b)
    ensures In(w, ChoiceJoin(a, b, keys))
  {
    if a == b {
    } else if Lossy(a, b) {
      if In(w, a) {
        WordsOverLetters(w, a);
      } else {
        WordsOverLetters(w, b);
      }
      UnorderedMeaning(w, a, b, keys);
    } else {
      var items := ChoiceParts(a) + ChoiceParts(b);
      PartsMeaning(w, a);
      PartsMeaning(w, b);
      ElemsAppend(ChoiceParts(a), ChoiceParts(b));
      SortDedupElems(items, keys);
      SomeElems(w, if In(w, a) then ChoiceParts(a) else ChoiceParts(b), SortDedup(items, keys));
    }
  }

  /** Every word of either operand is a word of the choice. */
  lemma {:induction false} ChoiceSound(w: Word, a: Trace, b: Trace, keys: SortKeys)
    requires In(w, a) || In(w, b)
    ensures In(w, ChoiceOp(a, b, keys))
  {
    ChoiceJoinSound(w, a, b, keys);
    WidenSound(w, ChoiceJoin(a, b, keys), None, keys);
  }

  /** `repeat` means exactly the Kleene star. */
  lemma RepeatExact(w: Word, t: Trace)
    ensures In(w, RepeatOp(t)) <==> InStar(w, t)
  {
    if t.Empty? {
      if InStar(w, t) && w != [] {
        var u, v := StarUncons(w, t);
        assert false;
      }
    } else if t.Repeat? {
      StarIdempotent(w, t.inner);
    }
  }

  // ----- Exactness. -----

  /** At most as many nodes as the limit allows, and no repetition. */
  predicate Fits(t: Trace)
  {
    Size(t) <= FixpointTraceNodeLimit && !ContainsRepeat(t)
  }

  /** The word is a word of `a` followed by a word of `b`. */
  ghost predicate Concatenates(w: Word, a: Trace, b: Trace)
  {
    exists k :: 0 <= k <= |w| && In(w[..k], a) && In(w[k..], b)
  }

  lemma {:induction false} SeqJoinExact(w: Word, a: Trace, b: Trace, keys: SortKeys)
    requires a.Empty? || b.Empty? || !Lossy(a, b)
    ensures In(w, SeqJoin(a, b, keys)) <==> Concatenates(w, a, b)
  {
    if k :| 0 <= k <= |w| && In(w[..k], a) && In(w[k..], b) {
      SeqJoinSound(w[..k], w[k..], a, b, keys);
      assert w[..k] + w[k..] == w;
    }
    if In(w, SeqJoin(a, b, keys)) {
      if a.Empty? {
        assert w[..0] == [] && w[0..] == w;
      } else if b.Empty? {
        assert w[..|w|] == w && w[|w|..] == [];
      } else {
        var u, v := SeqSplit(w, SeqParts(a), SeqParts(b));
        PartsMeaning(u, a);
        PartsMeaning(v, b);
        assert w[..|u|] == u && w[|u|..] == v;
      }
    }
  }

  lemma {:induction false} ChoiceJoinExact(w: Word, a: Trace, b: Trace, keys: SortKeys)
    requires a == b || !Lossy(a, b)
    ensures In(w, ChoiceJoin(a, b, keys)) <==> In(w, a) || In(w, b)
  {
    if In(w, a) || In(w, b) {
      ChoiceJoinSound(w, a, b, keys);
    }
    if In(w, ChoiceJoin(a, b, keys)) && a != b {
      var items := ChoiceParts(a) + ChoiceParts(b);
      SortDedupElems(items, keys);
      SomeElems(w, SortDedup(items, keys), items);
      var i :| 0 <= i < |items| && In(w, items[i]);
      PartsMeaning(w, a);
      PartsMeaning(w, b);
      if i < |ChoiceParts(a)| {
        assert items[i] == ChoiceParts(a)[i];
      } else {
        assert items[i] == ChoiceParts(b)[i - |ChoiceParts(a)|];
      }
    }
  }

  // ----- The operators never build an empty choice. -----

  lemma AllNoEmptyChoiceElems(a: seq<Trace>, b: seq<Trace>)
    requires Elems(a) <= Elems(b) && AllNoEmptyChoice(b)
    ensures AllNoEmptyChoice(a)
  {
    AllNoEmptyChoiceMember(a);
    AllNoEmptyChoiceMember(b);
    assert forall t :: t in a ==> t in Elems(b);
  }

  lemma NoEmptyChoiceParts(t: Trace)
    requires NoEmptyChoice(t)
    ensures AllNoEmptyChoice(SeqParts(t)) && AllNoEmptyChoice(ChoiceParts(t))
    ensures SeqParts(t) != [] || t == Seq([])
    ensures ChoiceParts(t) != []
  {
    assert [t][1..] == [];
  }

  lemma AllNoEmptyChoiceAppend(a: seq<Trace>, b: seq<Trace>)
    requires AllNoEmptyChoice(a) && AllNoEmptyChoice(b)
    ensures AllNoEmptyChoice(a + b)
  {
    AllNoEmptyChoiceMember(a);
    AllNoEmptyChoiceMember(b);
    AllNoEmptyChoiceMember(a + b);
  }

  lemma SeqKeepsNonEmptyChoices(a: Trace, b: Trace, keys: SortKeys)
    requires NoEmptyChoice(a) && NoEmptyChoice(b)
    ensures NoEmptyChoice(SeqOp(a, b, keys))
  {
    if !Lossy(a, b) {
      NoEmptyChoiceParts(a);
      NoEmptyChoiceParts(b);
      AllNoEmptyChoiceAppend(SeqParts(a), SeqParts(b));
    }
  }

  lemma ChoiceKeepsNonEmptyChoices(a: Trace, b: Trace, keys: SortKeys)
    requires NoEmptyChoice(a) && NoEmptyChoice(b)
    ensures NoEmptyChoice(ChoiceOp(a, b, keys))
  {
    if !Lossy(a, b) {
      NoEmptyChoiceParts(a);
      NoEmptyChoiceParts(b);
      var items := ChoiceParts(a) + ChoiceParts(b);
      AllNoEmptyChoiceAppend(ChoiceParts(a), ChoiceParts(b));
      SortDedupElems(items, keys);
      AllNoEmptyChoiceElems(SortDedup(items, keys), items);
      assert items[0] in Elems(SortDedup(items, keys));
    }
  }

  lemma OthersKeepNonEmptyChoices(t: Trace, current: Option<Trace>, keys: SortKeys)
    requires NoEmptyChoice(t)
    ensures NoEmptyChoice(RepeatOp(t)) && NoEmptyChoice(Stabilize(t, current, keys))
    ensures NoEmptyChoice(IntoWidened(t, keys)) && NoEmptyChoice(WidenIfNeeded(t, keys))
  {
  }
}
