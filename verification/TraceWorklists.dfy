/** The iterative collectors over a `pending` stack agree with the recursive definitions. */
module TraceWorklists {
  import opened Prelude
  import opened Effects
  import opened Traces
  import opened Words
  import opened TraceOps

  lemma SizePositive(t: Trace)
    ensures Size(t) >= 1
  {
  }

  lemma SizeAllPop(pending: seq<Trace>)
    requires pending != []
    ensures SizeAll(pending) == SizeAll(Rest(pending)) + Size(Top(pending))
    ensures SizeAll(Rest(pending)) < SizeAll(pending)
  {
    SizeAllAppend(Rest(pending), [Top(pending)]);
    assert [Top(pending)][1..] == [];
  }

  lemma SizeAllOne(t: Trace)
    ensures SizeAll([t]) == Size(t)
  {
    assert [t][1..] == [];
  }

  /** What one step of a worklist pushes. */
  function Children(t: Trace): seq<Trace>
  {
    if Compound(t) then t.parts else if Wrapper(t) then [t.inner] else []
  }

  lemma ChildrenSize(t: Trace)
    ensures Size(t) == 1 + SizeAll(Children(t))
  {
    if Wrapper(t) {
      SizeAllOne(t.inner);
    }
  }

  lemma PushSize(rest: seq<Trace>, t: Trace)
    ensures SizeAll(rest + Children(t)) == SizeAll(rest) + Size(t) - 1
  {
    SizeAllAppend(rest, Children(t));
    ChildrenSize(t);
  }

  /** The early-exit node counter is exact up to the limit, and above it exactly when the trace is. */
  method NodeCount(t: Trace) returns (count: nat)
    ensures count == if Size(t) <= FixpointTraceNodeLimit then Size(t) else FixpointTraceNodeLimit + 1
  {
    count := 0;
    var pending := [t];
    SizeAllOne(t);
    while pending != []
      invariant count <= FixpointTraceNodeLimit
      invariant count + SizeAll(pending) == Size(t)
      decreases SizeAll(pending)
    {
      var top := Top(pending);
      SizeAllPop(pending);
      PushSize(Rest(pending), top);
      pending := Rest(pending);
      count := count + 1;
      if count > FixpointTraceNodeLimit {
        return;
      }
      pending := pending + Children(top);
    }
  }

  lemma AnyContainsRepeatAppend(a: seq<Trace>, b: seq<Trace>)
    ensures AnyContainsRepeat(a + b) <==> AnyContainsRepeat(a) || AnyContainsRepeat(b)
  {
    if a == [] {
      assert a + b == b;
    } else {
      assert (a + b)[1..] == a[1..] + b;
      AnyContainsRepeatAppend(a[1..], b);
    }
  }

  lemma AnyUnorderedAppend(a: seq<Trace>, b: seq<Trace>)
    ensures AnyUnordered(a + b) <==> AnyUnordered(a) || AnyUnordered(b)
  {
    if a == [] {
      assert a + b == b;
    } else {
      assert (a + b)[1..] == a[1..] + b;
      AnyUnorderedAppend(a[1..], b);
    }
  }

  method FindRepeat(t: Trace) returns (found: bool)
    ensures found <==> ContainsRepeat(t)
  {
    var pending := [t];
    assert [t][1..] == [];
    while pending != []
      invariant AnyContainsRepeat(pending) <==> ContainsRepeat(t)
      decreases SizeAll(pending)
    {
      var top := Top(pending);
      SizeAllPop(pending);
      PushSize(Rest(pending), top);
      AnyContainsRepeatAppend(Rest(pending), [top]);
      assert [top][1..] == [];
      if top.Repeat? {
        return true;
      }
      AnyContainsRepeatAppend(Rest(pending), Children(top));
      if Wrapper(top) {
        assert [top.inner][1..] == [];
      }
      pending := Rest(pending) + Children(top);
    }
    return false;
  }

  method HasUnorderedApproximation(t: Trace) returns (found: bool)
    ensures found <==> Unordered(t)
  {
    var pending := [t];
    assert [t][1..] == [];
    while pending != []
      invariant AnyUnordered(pending) <==> Unordered(t)
      decreases SizeAll(pending)
    {
      var top := Top(pending);
      SizeAllPop(pending);
      PushSize(Rest(pending), top);
      AnyUnorderedAppend(Rest(pending), [top]);
      assert [top][1..] == [];
      if top.UnknownOrder? || top.Widened? {
        return true;
      }
      AnyUnorderedAppend(Rest(pending), Children(top));
      if Wrapper(top) {
        assert [top.inner][1..] == [];
      }
      pending := Rest(pending) + Children(top);
    }
    return false;
  }

  lemma CallsPop(pending: seq<Trace>)
    requires pending != []
    ensures AllCalls(pending) == AllCalls(Rest(pending)) + Calls(Top(pending))
  {
    AllCallsAppend(Rest(pending), [Top(pending)]);
    AllCallsOne(Top(pending));
  }

  lemma AllCallsOne(t: Trace)
    ensures AllCalls([t]) == Calls(t)
  {
    assert [t][1..] == [];
    assert AllCalls([t]) == Calls(t) + [];
  }

  lemma ChildrenCalls(t: Trace)
    requires Compound(t) || Wrapper(t)
    ensures AllCalls(Children(t)) == Calls(t)
    ensures AllActions(Children(t)) == Actions(t)
  {
    if Wrapper(t) {
      AllCallsOne(t.inner);
      AllActionsOne(t.inner);
    }
  }

  lemma AllActionsOne(t: Trace)
    ensures AllActions([t]) == Actions(t)
  {
    assert [t][1..] == [];
    assert AllActions([t]) == Actions(t) + {};
  }

  lemma ActionsPop(pending: seq<Trace>)
    requires pending != []
    ensures AllActions(pending) == AllActions(Rest(pending)) + Actions(Top(pending))
  {
    AllActionsAppend(Rest(pending), [Top(pending)]);
    AllActionsOne(Top(pending));
  }

  method HasParameterCalls(t: Trace) returns (found: bool)
    ensures found <==> Calls(t) != []
  {
    var pending := [t];
    AllCallsOne(t);
    while pending != []
      invariant AllCalls(pending) != [] <==> Calls(t) != []
      decreases SizeAll(pending)
    {
      var top := Top(pending);
      SizeAllPop(pending);
      PushSize(Rest(pending), top);
      CallsPop(pending);
      if top.ParameterCall? || (top.Widened? && top.calls != []) {
        return true;
      }
      AllCallsAppend(Rest(pending), Children(top));
      if Compound(top) || Wrapper(top) {
        ChildrenCalls(top);
      }
      pending := Rest(pending) + Children(top);
    }
    return false;
  }

  method CollectActions(t: Trace, known: set<Effect>) returns (actions: set<Effect>)
    ensures actions == known + Actions(t)
  {
    actions := known;
    var pending := [t];
    AllActionsOne(t);
    while pending != []
      invariant actions + AllActions(pending) == known + Actions(t)
      decreases SizeAll(pending)
    {
      var top := Top(pending);
      SizeAllPop(pending);
      PushSize(Rest(pending), top);
      ActionsPop(pending);
      AllActionsAppend(Rest(pending), Children(top));
      pending := Rest(pending);
      if top.UnknownOrder? || top.Widened? {
        actions := actions + top.actions;
      } else if top.Event? {
        actions := actions + {top.event.action};
      } else if Compound(top) || Wrapper(top) {
        ChildrenCalls(top);
        pending := pending + Children(top);
      }
    }
  }

  /** Later parts are visited first, so only the keys of the collected calls are determined by the trace. */
  method CollectParameterCalls(t: Trace, known: seq<ParameterCallRef>, keys: SortKeys)
    returns (calls: seq<ParameterCallRef>)
    ensures CallLetters(calls) == CallLetters(known) + CallLetters(Calls(t))
    ensures forall c :: c in calls ==> c in known || c in Calls(t)
    ensures StrictlyOrdered(known, keys) && Injective(keys) ==> StrictlyOrdered(calls, keys)
  {
    calls := known;
    var pending := [t];
    AllCallsOne(t);
    while pending != []
      invariant CallLetters(calls) + CallLetters(AllCalls(pending)) == CallLetters(known) + CallLetters(Calls(t))
      invariant forall c :: c in calls || c in AllCalls(pending) ==> c in known || c in Calls(t)
      invariant StrictlyOrdered(known, keys) && Injective(keys) ==> StrictlyOrdered(calls, keys)
      decreases SizeAll(pending)
    {
      var top := Top(pending);
      SizeAllPop(pending);
      PushSize(Rest(pending), top);
      CallsPop(pending);
      CallLettersAppend(AllCalls(Rest(pending)), Calls(top));
      if Compound(top) || Wrapper(top) {
        AllCallsAppend(Rest(pending), Children(top));
        ChildrenCalls(top);
        pending := Rest(pending) + Children(top);
      } else {
        pending := Rest(pending);
        calls := InsertEach(calls, Calls(top), keys);
      }
    }
    assert CallLetters([]) == {};
  }

  method InsertEach(m: seq<ParameterCallRef>, added: seq<ParameterCallRef>, keys: SortKeys)
    returns (calls: seq<ParameterCallRef>)
    ensures calls == InsertCalls(m, added, keys)
    ensures CallLetters(calls) == CallLetters(m) + CallLetters(added)
    ensures forall c :: c in calls ==> c in m || c in added
    ensures StrictlyOrdered(m, keys) && Injective(keys) ==> StrictlyOrdered(calls, keys)
  {
    calls := m;
    for i := 0 to |added|
      invariant InsertCalls(calls, added[i..], keys) == InsertCalls(m, added, keys)
      invariant forall c :: c in calls ==> c in m || c in added
      invariant StrictlyOrdered(m, keys) && Injective(keys) ==> StrictlyOrdered(calls, keys)
    {
      InsertCallMembers(calls, added[i], keys);
      if Injective(keys) && StrictlyOrdered(calls, keys) {
        InsertCallOrdered(calls, added[i], keys);
      }
      assert added[i..][1..] == added[i + 1..];
      calls := InsertCall(calls, added[i], keys);
    }
    assert added[|added|..] == [];
    InsertCallsLetters(m, added, keys);
  }

  // ----- Canonical call lists. -----

  /** The list holds one call per key, in key order. */
  predicate StrictlyOrdered(m: seq<ParameterCallRef>, keys: SortKeys)
  {
    forall i, j :: 0 <= i < j < |m| ==> keys.call(KeyOf(m[i])) < keys.call(KeyOf(m[j]))
  }

  lemma {:induction false} InsertCallMembers(m: seq<ParameterCallRef>, c: ParameterCallRef, keys: SortKeys)
    ensures forall x :: x in InsertCall(m, c, keys) ==> x in m || x == c
  {
    if m == [] || keys.call(KeyOf(c)) < keys.call(KeyOf(m[0])) {
    } else if KeyOf(c) == KeyOf(m[0]) {
    } else {
      InsertCallMembers(m[1..], c, keys);
    }
  }

  lemma {:induction false} InsertCallOrdered(m: seq<ParameterCallRef>, c: ParameterCallRef, keys: SortKeys)
    requires Injective(keys) && StrictlyOrdered(m, keys)
    ensures StrictlyOrdered(InsertCall(m, c, keys), keys)
  {
    if m == [] || keys.call(KeyOf(c)) < keys.call(KeyOf(m[0])) {
    } else if KeyOf(c) == KeyOf(m[0]) {
    } else {
      assert keys.call(KeyOf(m[0])) < keys.call(KeyOf(c));
      var tail := InsertCall(m[1..], c, keys);
      InsertCallOrdered(m[1..], c, keys);
      InsertCallMembers(m[1..], c, keys);
      forall j | 0 <= j < |tail|
        ensures keys.call(KeyOf(m[0])) < keys.call(KeyOf(tail[j]))
      {
        assert tail[j] in tail;
        if tail[j] != c {
          assert tail[j] in m[1..];
        }
      }
      ConsOrdered(m[0], tail, keys);
    }
  }

  lemma ConsOrdered(x: ParameterCallRef, tail: seq<ParameterCallRef>, keys: SortKeys)
    requires StrictlyOrdered(tail, keys) && forall j :: 0 <= j < |tail| ==> keys.call(KeyOf(x)) < keys.call(KeyOf(tail[j]))
    ensures StrictlyOrdered([x] + tail, keys)
  {
  }

  lemma {:induction false} InsertCallsOrdered(m: seq<ParameterCallRef>, cs: seq<ParameterCallRef>, keys: SortKeys)
    requires Injective(keys) && StrictlyOrdered(m, keys)
    ensures StrictlyOrdered(InsertCalls(m, cs, keys), keys)
    ensures forall x :: x in InsertCalls(m, cs, keys) ==> x in m || x in cs
    decreases |cs|
  {
    if cs != [] {
      InsertCallOrdered(m, cs[0], keys);
      InsertCallMembers(m, cs[0], keys);
      InsertCallsOrdered(InsertCall(m, cs[0], keys), cs[1..], keys);
    }
  }

  /** `collect_widened` visits the leaves left to right, so a later call overrides an earlier one. */
  method CollectWidened(t: Trace, knownActions: set<Effect>, knownCalls: seq<ParameterCallRef>, keys: SortKeys)
    returns (actions: set<Effect>, calls: seq<ParameterCallRef>)
    ensures actions == knownActions + Actions(t)
    ensures calls == InsertCalls(knownCalls, Calls(t), keys)
  {
    actions, calls := knownActions, knownCalls;
    var pending := [t];
    AllActionsOne(t);
    AllCallsOne(t);
    assert Reverse([t]) == [t];
    while pending != []
      invariant actions + AllActions(pending) == knownActions + Actions(t)
      invariant InsertCalls(calls, AllCalls(Reverse(pending)), keys) == InsertCalls(knownCalls, Calls(t), keys)
      decreases SizeAll(pending)
    {
      var top, rest := Top(pending), Rest(pending);
      SizeAllPop(pending);
      ReverseAppend(rest, [top]);
      assert Reverse([top]) == [top];
      AllCallsAppend([top], Reverse(rest));
      AllCallsOne(top);
      ActionsPop(pending);
      if Compound(top) || Wrapper(top) {
        PushReversed(rest, top);
        pending := rest + Reverse(Children(top));
      } else {
        actions := actions + Actions(top);
        InsertCallsAppend(calls, Calls(top), AllCalls(Reverse(rest)), keys);
        calls := InsertEach(calls, Calls(top), keys);
        pending := rest;
      }
    }
  }

  lemma PushReversed(rest: seq<Trace>, t: Trace)
    requires Compound(t) || Wrapper(t)
    ensures AllCalls(Reverse(rest + Reverse(Children(t)))) == Calls(t) + AllCalls(Reverse(rest))
    ensures AllActions(rest + Reverse(Children(t))) == AllActions(rest) + Actions(t)
    ensures SizeAll(rest + Reverse(Children(t))) == SizeAll(rest) + Size(t) - 1
  {
    var pushed := Reverse(Children(t));
    ReverseAppend(rest, pushed);
    ReverseTwice(Children(t));
    AllCallsAppend(Children(t), Reverse(rest));
    ChildrenCalls(t);
    AllActionsAppend(rest, pushed);
    ReverseActions(Children(t));
    SizeAllAppend(rest, pushed);
    ReverseSize(Children(t));
    ChildrenSize(t);
  }

  lemma {:induction false} ReverseActions(ts: seq<Trace>)
    ensures AllActions(Reverse(ts)) == AllActions(ts)
  {
    if ts != [] {
      ReverseActions(ts[1..]);
      AllActionsAppend(Reverse(ts[1..]), [ts[0]]);
      AllActionsOne(ts[0]);
    }
  }

  lemma {:induction false} ReverseSize(ts: seq<Trace>)
    ensures SizeAll(Reverse(ts)) == SizeAll(ts)
  {
    if ts != [] {
      ReverseSize(ts[1..]);
      SizeAllAppend(Reverse(ts[1..]), [ts[0]]);
      SizeAllOne(ts[0]);
    }
  }

  lemma {:induction false} InsertCallsAppend(m: seq<ParameterCallRef>, a: seq<ParameterCallRef>, b: seq<ParameterCallRef>, keys: SortKeys)
    ensures InsertCalls(m, a + b, keys) == InsertCalls(InsertCalls(m, a, keys), b, keys)
    decreases |a|
  {
    if a == [] {
      assert a + b == b;
    } else {
      assert (a + b)[1..] == a[1..] + b;
      InsertCallsAppend(InsertCall(m, a[0], keys), a[1..], b, keys);
    }
  }

  /** The worklist form of widening computes `IntoWidened`. */
  method WidenByWorklist(t: Trace, keys: SortKeys) returns (widened: Trace)
    ensures widened == IntoWidened(t, keys)
  {
    var actions, calls := CollectWidened(t, {}, [], keys);
    widened := if actions == {} && calls == [] then Empty else Widened(actions, calls);
  }

  method MergeByWorklist(left: Trace, right: Trace, keys: SortKeys) returns (merged: Trace)
    ensures merged == MergeWidened(left, right, keys)
  {
    var actions, calls := CollectWidened(left, {}, [], keys);
    actions, calls := CollectWidened(right, actions, calls, keys);
    merged := if actions == {} && calls == [] then Empty else Widened(actions, calls);
  }
}
