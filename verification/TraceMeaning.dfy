/** The exact meaning of the trace operators, told from their operands alone. */
module TraceMeaning {
  import opened Prelude
  import opened Effects
  import opened Traces
  import opened Words
  import opened SortedLists
  import opened TraceOps
  import opened TraceWorklists
  import opened TraceStability
  import opened Passes

  // ----- The nodes of a trace. -----

  /** Every node of the trace, the trace itself first. */
  function Nodes(t: Trace): seq<Trace>
    decreases t, 0
  {
    [t] + if Compound(t) then NodesOf(t.parts) else if Wrapper(t) then Nodes(t.inner) else []
  }

  function NodesOf(ts: seq<Trace>): seq<Trace>
    decreases ts, 1
  {
    if ts == [] then [] else Nodes(ts[0]) + NodesOf(ts[1..])
  }

  ghost predicate SomeNode(ns: seq<Trace>, holds: Trace -> bool)
  {
    exists n :: n in ns && holds(n)
  }

  lemma SomeNodeAppend(a: seq<Trace>, b: seq<Trace>, holds: Trace -> bool)
    ensures SomeNode(a + b, holds) <==> SomeNode(a, holds) || SomeNode(b, holds)
  {
    assert forall n :: n in a + b <==> n in a || n in b;
  }

  lemma SomeNodeOne(t: Trace, holds: Trace -> bool)
    ensures SomeNode([t], holds) <==> holds(t)
  {
    assert t in [t];
  }

  /** The parts of one node that carry a letter, and the letters they carry. */
  function OwnLetters(n: Trace): set<Letter>
  {
    match n
    case Event(e) => {Act(e.action)}
    case ParameterCall(c) => {CallLetter(c)}
    case UnknownOrder(actions) => ActLetters(actions)
    case Widened(actions, calls) => ActLetters(actions) + CallLetters(calls)
    case _ => {}
  }

  function IsRepeat(): Trace -> bool
  {
    (n: Trace) => n.Repeat?
  }

  function IsUnordered(): Trace -> bool
  {
    (n: Trace) => n.UnknownOrder? || n.Widened?
  }

  function Carries(l: Letter): Trace -> bool
  {
    (n: Trace) => l in OwnLetters(n)
  }

  /** The size is the number of nodes; repeats, lost order and letters are those of some node. */
  lemma {:induction false} NodesTell(t: Trace, l: Letter)
    ensures Size(t) == |Nodes(t)|
    ensures ContainsRepeat(t) <==> SomeNode(Nodes(t), IsRepeat())
    ensures Unordered(t) <==> SomeNode(Nodes(t), IsUnordered())
    ensures l in Letters(t) <==> SomeNode(Nodes(t), Carries(l))
    decreases t, 0
  {
    var below := if Compound(t) then NodesOf(t.parts) else if Wrapper(t) then Nodes(t.inner) else [];
    if Compound(t) {
      AllNodesTell(t.parts, l);
    } else if Wrapper(t) {
      NodesTell(t.inner, l);
    }
    SomeNodeAppend([t], below, IsRepeat());
    SomeNodeAppend([t], below, IsUnordered());
    SomeNodeAppend([t], below, Carries(l));
    SomeNodeOne(t, IsRepeat());
    SomeNodeOne(t, IsUnordered());
    SomeNodeOne(t, Carries(l));
  }

  lemma {:induction false} AllNodesTell(ts: seq<Trace>, l: Letter)
    ensures SizeAll(ts) == |NodesOf(ts)|
    ensures AnyContainsRepeat(ts) <==> SomeNode(NodesOf(ts), IsRepeat())
    ensures AnyUnordered(ts) <==> SomeNode(NodesOf(ts), IsUnordered())
    ensures l in ActLetters(AllActions(ts)) + CallLetters(AllCalls(ts)) <==> SomeNode(NodesOf(ts), Carries(l))
    decreases ts, 1
  {
    if ts != [] {
      NodesTell(ts[0], l);
      AllNodesTell(ts[1..], l);
      var a, b := Nodes(ts[0]), NodesOf(ts[1..]);
      SomeNodeAppend(a, b, IsRepeat());
      SomeNodeAppend(a, b, IsUnordered());
      SomeNodeAppend(a, b, Carries(l));
    }
  }

  // ----- Sequencing. -----

  /** The nodes below a trace that is flattened into a sequence. */
  function Inlined(t: Trace): nat
  {
    if t.Seq? then Size(t) - 1 else Size(t)
  }

  function SeqSize(a: Trace, b: Trace): nat
  {
    if a.Empty? then Size(b) else if b.Empty? then Size(a) else 1 + Inlined(a) + Inlined(b)
  }

  /** Two operands lose their order when one has lost it already, one repeats, or together they are too large. */
  predicate SeqLoses(a: Trace, b: Trace)
  {
    || (!a.Empty? && !b.Empty? && Lossy(a, b))
    || ContainsRepeat(a) || ContainsRepeat(b)
    || SeqSize(a, b) > FixpointTraceNodeLimit
  }

  lemma SeqJoinSize(a: Trace, b: Trace, keys: SortKeys)
    requires a.Empty? || b.Empty? || !Lossy(a, b)
    ensures Size(SeqJoin(a, b, keys)) == SeqSize(a, b)
    ensures ContainsRepeat(SeqJoin(a, b, keys)) <==> ContainsRepeat(a) || ContainsRepeat(b)
  {
    if !a.Empty? && !b.Empty? {
      SizeAllAppend(SeqParts(a), SeqParts(b));
      AnyContainsRepeatAppend(SeqParts(a), SeqParts(b));
      SinglePart(a);
      SinglePart(b);
    }
  }

  lemma SinglePart(t: Trace)
    ensures SizeAll([t]) == Size(t) && (AnyContainsRepeat([t]) <==> ContainsRepeat(t))
  {
    var none: seq<Trace> := [];
    assert [t][1..] == none;
  }

  /** For all operands: the concatenations of their words, or all words over their letters where order is lost. */
  lemma SeqMeaning(w: Word, a: Trace, b: Trace, keys: SortKeys)
    ensures In(w, SeqOp(a, b, keys)) <==>
              if SeqLoses(a, b) then Over(w, Letters(a) + Letters(b)) else Concatenates(w, a, b)
  {
    var joined := SeqJoin(a, b, keys);
    SeqLetters(a, b, keys);
    if !a.Empty? && !b.Empty? && Lossy(a, b) {
      UnorderedMeaning(w, a, b, keys);
      WidenMeaning(w, joined, keys);
    } else {
      SeqJoinExact(w, a, b, keys);
      SeqJoinSize(a, b, keys);
      WidenMeaning(w, joined, keys);
    }
  }

  // ----- Choice. -----

  /** The branches a trace contributes to a choice. */
  function Branches(t: Trace): set<Trace>
  {
    if t.Choice? then Elems(t.parts) else {t}
  }

  /** The node of the choice and those of its distinct branches. */
  ghost function ChoiceSize(a: Trace, b: Trace): nat
  {
    if a == b then Size(a) else 1 + SetSum(Branches(a) + Branches(b), Size)
  }

  ghost predicate ChoiceLoses(a: Trace, b: Trace)
  {
    || (a != b && Lossy(a, b))
    || ContainsRepeat(a) || ContainsRepeat(b)
    || ChoiceSize(a, b) > FixpointTraceNodeLimit
  }

  lemma {:induction false} DistinctSize(ts: seq<Trace>, keys: SortKeys)
    requires Strictly(ts, keys.trace)
    ensures SizeAll(ts) == SetSum(Elems(ts), Size)
  {
    if ts != [] {
      ElemsTail(ts);
      DistinctSize(ts[1..], keys);
      assert ts[0] !in Elems(ts[1..]);
      SetSumRemove(Elems(ts), ts[0], Size);
      assert Elems(ts) - {ts[0]} == Elems(ts[1..]);
    }
  }

  lemma BranchesAre(t: Trace)
    ensures Elems(ChoiceParts(t)) == Branches(t)
    ensures AnyContainsRepeat(ChoiceParts(t)) <==> ContainsRepeat(t)
  {
    SinglePart(t);
  }

  lemma SortedChoiceSize(items: seq<Trace>, keys: SortKeys)
    requires Injective(keys)
    ensures SizeAll(SortDedup(items, keys)) == SetSum(Elems(items), Size)
    ensures AnyContainsRepeat(SortDedup(items, keys)) <==> AnyContainsRepeat(items)
  {
    SortDedupElems(items, keys);
    SortDedupSorted(items, keys);
    DistinctSize(SortDedup(items, keys), keys);
    SameElemsRepeat(SortDedup(items, keys), items);
  }

  lemma ChoiceItems(a: Trace, b: Trace)
    ensures Elems(ChoiceParts(a) + ChoiceParts(b)) == Branches(a) + Branches(b)
    ensures AnyContainsRepeat(ChoiceParts(a) + ChoiceParts(b)) <==> ContainsRepeat(a) || ContainsRepeat(b)
  {
    BranchesAre(a);
    BranchesAre(b);
    ElemsAppend(ChoiceParts(a), ChoiceParts(b));
    AnyContainsRepeatAppend(ChoiceParts(a), ChoiceParts(b));
  }

  lemma ChoiceJoinSize(a: Trace, b: Trace, keys: SortKeys)
    requires Injective(keys) && (a == b || !Lossy(a, b))
    ensures Size(ChoiceJoin(a, b, keys)) == ChoiceSize(a, b)
    ensures ContainsRepeat(ChoiceJoin(a, b, keys)) <==> ContainsRepeat(a) || ContainsRepeat(b)
  {
    if a != b {
      ChoiceItems(a, b);
      SortedChoiceSize(ChoiceParts(a) + ChoiceParts(b), keys);
    }
  }

  lemma SameElemsRepeat(a: seq<Trace>, b: seq<Trace>)
    requires Elems(a) == Elems(b)
    ensures AnyContainsRepeat(a) <==> AnyContainsRepeat(b)
  {
    AnyContainsRepeatMember(a);
    AnyContainsRepeatMember(b);
    assert forall t :: t in a <==> t in Elems(b);
  }

  /** For all operands: the words of either, or all words over their letters where order is lost. */
  lemma ChoiceMeaning(w: Word, a: Trace, b: Trace, keys: SortKeys)
    requires Injective(keys)
    ensures In(w, ChoiceOp(a, b, keys)) <==>
              if ChoiceLoses(a, b) then Over(w, Letters(a) + Letters(b)) else In(w, a) || In(w, b)
  {
    var joined := ChoiceJoin(a, b, keys);
    ChoiceLetters(a, b, keys);
    if a != b && Lossy(a, b) {
      UnorderedMeaning(w, a, b, keys);
      WidenMeaning(w, joined, keys);
    } else {
      ChoiceJoinExact(w, a, b, keys);
      ChoiceJoinSize(a, b, keys);
      WidenMeaning(w, joined, keys);
    }
  }

  // ----- Stabilizing. -----

  predicate StabilizeLoses(t: Trace, current: Option<Trace>)
  {
    Size(t) > FixpointTraceNodeLimit || ContainsRepeat(t) || (current.Some? && ContainsRepeat(current.value))
  }

  /** A trace is kept as it is, or means all words over its letters when it is too large or either trace repeats. */
  lemma StabilizeMeaning(w: Word, t: Trace, current: Option<Trace>, keys: SortKeys)
    ensures !StabilizeLoses(t, current) ==> Stabilize(t, current, keys) == t
    ensures In(w, Stabilize(t, current, keys)) <==> if StabilizeLoses(t, current) then Over(w, Letters(t)) else In(w, t)
  {
    WidenMeaning(w, t, keys);
  }

  // ----- What an operator that loses the order builds. -----

  /** No letter of the operands is a call, and neither is widened. */
  predicate OnlyUnordered(a: Trace, b: Trace)
  {
    (a.UnknownOrder? || b.UnknownOrder?) && !a.Widened? && !b.Widened? && Calls(a) == [] && Calls(b) == []
  }

  /** Where order is lost, the actions stay without a call table exactly when there was none and none is needed. */
  lemma LostForm(a: Trace, b: Trace, keys: SortKeys)
    ensures !a.Empty? && !b.Empty? ==>
              (OnlyUnordered(a, b) ==> SeqOp(a, b, keys) == UnknownOrder(Actions(a) + Actions(b)))
              && (SeqLoses(a, b) && !OnlyUnordered(a, b) ==> SeqOp(a, b, keys).Widened? || SeqOp(a, b, keys) == Empty)
    ensures a != b ==>
              (OnlyUnordered(a, b) ==> ChoiceOp(a, b, keys) == UnknownOrder(Actions(a) + Actions(b)))
  {
    if !a.Empty? && !b.Empty? && !Lossy(a, b) {
      SeqJoinSize(a, b, keys);
    }
    assert Actions(a) + Actions(b) == Actions(b) + Actions(a);
  }
}
