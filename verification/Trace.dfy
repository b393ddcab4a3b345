/** The action-trace domain (crates/etas_effects/src/infer/domain.rs). */
module Traces {
  import opened Prelude
  import opened Effects

  datatype Span = Span(source: nat, start: nat, end: nat)

  datatype ParameterCallTarget =
    | Native(symbol: nat)
    | SpecMethod(call: nat, environment: nat)
    | MetadataSpecMethod(invocation: nat, metadataEnvironment: Option<nat>)
    | Interface(index: nat)
    | Graph(graph: nat, graphParameter: nat)

  datatype EventSource = Perform | StdIntrinsic | AgentCall | ExternalMetadata | Transfer | UnknownSource

  datatype ActionEvent = ActionEvent(action: Effect, span: Span, source: EventSource)

  datatype ParameterCallRef = ParameterCallRef(target: ParameterCallTarget, parameter: string, span: Span)

  /** `Compound` traces hold `parts`, `Wrapper` traces hold one `inner` trace. */
  datatype Trace =
    | Empty
    | Event(event: ActionEvent)
    | ParameterCall(call: ParameterCallRef)
    | Parallel(parts: seq<Trace>)
    | TaskStart(site: nat, inner: Trace)
    | TaskAwait(site: nat)
    | Seq(parts: seq<Trace>)
    | Choice(parts: seq<Trace>)
    | Repeat(inner: Trace)
    | UnknownOrder(actions: set<Effect>)
    | Widened(actions: set<Effect>, calls: seq<ParameterCallRef>)

  predicate Compound(t: Trace)
  {
    t.Seq? || t.Choice? || t.Parallel?
  }

  predicate Wrapper(t: Trace)
  {
    t.Repeat? || t.TaskStart?
  }

  /** A letter is an action or a parameter call, identified by target and span. */
  datatype Letter = Act(action: Effect) | Call(target: ParameterCallTarget, span: Span)

  function CallLetter(c: ParameterCallRef): Letter
  {
    Call(c.target, c.span)
  }

  function ActLetters(actions: set<Effect>): set<Letter>
  {
    set a | a in actions :: Act(a)
  }

  function CallLetters(calls: seq<ParameterCallRef>): set<Letter>
  {
    set c | c in calls :: CallLetter(c)
  }

  // ----- Recursive definitions that the worklists of the source compute. -----

  function Size(t: Trace): nat
  {
    1 + if Compound(t) then SizeAll(t.parts) else if Wrapper(t) then Size(t.inner) else 0
  }

  function SizeAll(ts: seq<Trace>): nat
  {
    if ts == [] then 0 else Size(ts[0]) + SizeAll(ts[1..])
  }

  predicate ContainsRepeat(t: Trace)
  {
    if Compound(t) then AnyContainsRepeat(t.parts)
    else if t.TaskStart? then ContainsRepeat(t.inner)
    else t.Repeat?
  }

  predicate AnyContainsRepeat(ts: seq<Trace>)
  {
    ts != [] && (ContainsRepeat(ts[0]) || AnyContainsRepeat(ts[1..]))
  }

  predicate Unordered(t: Trace)
  {
    if Compound(t) then AnyUnordered(t.parts)
    else if Wrapper(t) then Unordered(t.inner)
    else t.UnknownOrder? || t.Widened?
  }

  predicate AnyUnordered(ts: seq<Trace>)
  {
    ts != [] && (Unordered(ts[0]) || AnyUnordered(ts[1..]))
  }

  function Actions(t: Trace): set<Effect>
  {
    if Compound(t) then AllActions(t.parts)
    else if Wrapper(t) then Actions(t.inner)
    else if t.Event? then {t.event.action}
    else if t.UnknownOrder? || t.Widened? then t.actions
    else {}
  }

  function AllActions(ts: seq<Trace>): set<Effect>
  {
    if ts == [] then {} else Actions(ts[0]) + AllActions(ts[1..])
  }

  /** Every parameter call of a trace, left to right, repetitions kept. */
  function Calls(t: Trace): seq<ParameterCallRef>
  {
    if Compound(t) then AllCalls(t.parts)
    else if Wrapper(t) then Calls(t.inner)
    else if t.ParameterCall? then [t.call]
    else if t.Widened? then t.calls
    else []
  }

  function AllCalls(ts: seq<Trace>): seq<ParameterCallRef>
  {
    if ts == [] then [] else Calls(ts[0]) + AllCalls(ts[1..])
  }

  function Letters(t: Trace): set<Letter>
  {
    ActLetters(Actions(t)) + CallLetters(Calls(t))
  }

  predicate NoEmptyChoice(t: Trace)
  {
    if Compound(t) then (t.Choice? ==> t.parts != []) && AllNoEmptyChoice(t.parts)
    else Wrapper(t) ==> NoEmptyChoice(t.inner)
  }

  predicate AllNoEmptyChoice(ts: seq<Trace>)
  {
    ts != [] ==> NoEmptyChoice(ts[0]) && AllNoEmptyChoice(ts[1..])
  }

  // ----- Concatenation laws of the list forms. -----

  lemma SizeAllAppend(a: seq<Trace>, b: seq<Trace>)
    ensures SizeAll(a + b) == SizeAll(a) + SizeAll(b)
  {
    if a == [] {
      assert a + b == b;
    } else {
      assert (a + b)[1..] == a[1..] + b;
      SizeAllAppend(a[1..], b);
    }
  }

  lemma AllActionsAppend(a: seq<Trace>, b: seq<Trace>)
    ensures AllActions(a + b) == AllActions(a) + AllActions(b)
  {
    if a == [] {
      assert a + b == b;
    } else {
      assert (a + b)[1..] == a[1..] + b;
      AllActionsAppend(a[1..], b);
    }
  }

  lemma AllCallsAppend(a: seq<Trace>, b: seq<Trace>)
    ensures AllCalls(a + b) == AllCalls(a) + AllCalls(b)
  {
    if a == [] {
      assert a + b == b;
    } else {
      assert (a + b)[1..] == a[1..] + b;
      AllCallsAppend(a[1..], b);
    }
  }

  lemma AnyContainsRepeatMember(ts: seq<Trace>)
    ensures AnyContainsRepeat(ts) <==> exists t :: t in ts && ContainsRepeat(t)
  {
    if ts != [] {
      AnyContainsRepeatMember(ts[1..]);
      assert forall t :: t in ts <==> t == ts[0] || t in ts[1..];
    }
  }

  lemma AllNoEmptyChoiceMember(ts: seq<Trace>)
    ensures AllNoEmptyChoice(ts) <==> forall t :: t in ts ==> NoEmptyChoice(t)
  {
    if ts != [] {
      AllNoEmptyChoiceMember(ts[1..]);
      assert forall t :: t in ts <==> t == ts[0] || t in ts[1..];
    }
  }

  lemma AllActionsMember(ts: seq<Trace>, a: Effect)
    ensures a in AllActions(ts) <==> exists t :: t in ts && a in Actions(t)
  {
    if ts != [] {
      AllActionsMember(ts[1..], a);
      assert forall t :: t in ts <==> t == ts[0] || t in ts[1..];
    }
  }

  lemma AllCallsMember(ts: seq<Trace>, c: ParameterCallRef)
    ensures c in AllCalls(ts) <==> exists t :: t in ts && c in Calls(t)
  {
    if ts != [] {
      AllCallsMember(ts[1..], c);
      assert forall t :: t in ts <==> t == ts[0] || t in ts[1..];
    }
  }
}
