/** The traces the engine builds: by its operators, by substitution and from external metadata. */
module BuiltTraces {
  import opened Prelude
  import opened Effects
  import opened Traces
  import opened Words
  import opened TraceOps
  import opened TraceMapping
  import opened TraceMonitor
  import opened ExternalTrace

  /** A derivation of a trace. */
  datatype Build =
    | NoTrace
    | Performed(event: ActionEvent)
    | Called(call: ParameterCallRef)
    | Awaited(site: nat)
    | Unsorted(actions: set<Effect>)
    | Started(site: nat, body: Build)
    | Together(bodies: seq<Build>)
    | Then(first: Build, second: Build)
    | Either(first: Build, second: Build)
    | Again(body: Build)
    | Loose(body: Build)
    | Stable(body: Build, current: Option<Trace>)
    | Substituted(body: Build, renaming: Effect -> Effect)
    | External(lowering: Lowering, metadata: Metadata)

  /** External metadata only counts as built when lowering accepts it. */
  predicate Accepted(b: Build)
  {
    match b
    case External(lowering, metadata) => Sound(lowering, metadata, 0)
    case Together(bodies) => AllAccepted(bodies)
    case Then(first, second) => Accepted(first) && Accepted(second)
    case Either(first, second) => Accepted(first) && Accepted(second)
    case Started(_, body) => Accepted(body)
    case Again(body) => Accepted(body)
    case Loose(body) => Accepted(body)
    case Stable(body, _) => Accepted(body)
    case Substituted(body, _) => Accepted(body)
    case _ => true
  }

  predicate AllAccepted(bs: seq<Build>)
  {
    bs == [] || (Accepted(bs[0]) && AllAccepted(bs[1..]))
  }

  function TraceOf(b: Build, keys: SortKeys): Trace
    requires Accepted(b)
  {
    match b
    case NoTrace => Empty
    case Performed(event) => Event(event)
    case Called(call) => ParameterCall(call)
    case Awaited(site) => TaskAwait(site)
    case Unsorted(actions) => UnknownOrder(actions)
    case Started(site, body) => TaskStart(site, TraceOf(body, keys))
    case Together(bodies) => Parallel(TracesOf(bodies, keys))
    case Then(first, second) => SeqOp(TraceOf(first, keys), TraceOf(second, keys), keys)
    case Either(first, second) => ChoiceOp(TraceOf(first, keys), TraceOf(second, keys), keys)
    case Again(body) => RepeatOp(TraceOf(body, keys))
    case Loose(body) => IntoWidened(TraceOf(body, keys), keys)
    case Stable(body, current) => Stabilize(TraceOf(body, keys), current, keys)
    case Substituted(body, renaming) => Rename(TraceOf(body, keys), renaming)
    case External(lowering, metadata) => Lowered(lowering, metadata, 0)
  }

  function TracesOf(bs: seq<Build>, keys: SortKeys): seq<Trace>
    requires AllAccepted(bs)
  {
    if bs == [] then [] else [TraceOf(bs[0], keys)] + TracesOf(bs[1..], keys)
  }

  lemma {:induction false} RenameKeepsNonEmptyChoices(t: Trace, f: Effect -> Effect)
    requires NoEmptyChoice(t)
    ensures NoEmptyChoice(Rename(t, f))
    decreases t, 0
  {
    if Compound(t) {
      RenameAllKeepsNonEmptyChoices(t.parts, f);
    } else if Wrapper(t) {
      RenameKeepsNonEmptyChoices(t.inner, f);
    }
  }

  lemma {:induction false} RenameAllKeepsNonEmptyChoices(ts: seq<Trace>, f: Effect -> Effect)
    requires AllNoEmptyChoice(ts)
    ensures AllNoEmptyChoice(RenameAll(ts, f))
    decreases ts, 1
  {
    if ts != [] {
      RenameKeepsNonEmptyChoices(ts[0], f);
      RenameAllKeepsNonEmptyChoices(ts[1..], f);
      assert RenameAll(ts, f)[1..] == RenameAll(ts[1..], f);
    }
  }

  /** No trace the engine builds holds an empty choice. */
  lemma {:induction false} BuiltHasNoEmptyChoice(b: Build, keys: SortKeys)
    requires Accepted(b)
    ensures NoEmptyChoice(TraceOf(b, keys))
    decreases b, 0
  {
    match b
    case Started(_, body) => BuiltHasNoEmptyChoice(body, keys);
    case Together(bodies) => AllBuiltHaveNoEmptyChoice(b, bodies, keys);
    case Then(first, second) =>
      BuiltHasNoEmptyChoice(first, keys);
      BuiltHasNoEmptyChoice(second, keys);
      SeqKeepsNonEmptyChoices(TraceOf(first, keys), TraceOf(second, keys), keys);
    case Either(first, second) =>
      BuiltHasNoEmptyChoice(first, keys);
      BuiltHasNoEmptyChoice(second, keys);
      ChoiceKeepsNonEmptyChoices(TraceOf(first, keys), TraceOf(second, keys), keys);
    case Again(body) =>
      BuiltHasNoEmptyChoice(body, keys);
      OthersKeepNonEmptyChoices(TraceOf(body, keys), None, keys);
    case Loose(body) =>
      BuiltHasNoEmptyChoice(body, keys);
      OthersKeepNonEmptyChoices(TraceOf(body, keys), None, keys);
    case Stable(body, current) =>
      BuiltHasNoEmptyChoice(body, keys);
      OthersKeepNonEmptyChoices(TraceOf(body, keys), current, keys);
    case Substituted(body, renaming) =>
      BuiltHasNoEmptyChoice(body, keys);
      RenameKeepsNonEmptyChoices(TraceOf(body, keys), renaming);
    case External(lowering, metadata) => LoweredHasNoEmptyChoice(lowering, metadata, 0);
    case _ =>
  }

  lemma {:induction false} AllBuiltHaveNoEmptyChoice(parent: Build, bs: seq<Build>, keys: SortKeys)
    requires AllAccepted(bs) && forall i :: 0 <= i < |bs| ==> bs[i] < parent
    ensures AllNoEmptyChoice(TracesOf(bs, keys))
    decreases parent, 0, |bs|
  {
    if bs != [] {
      BuiltHasNoEmptyChoice(bs[0], keys);
      AllBuiltHaveNoEmptyChoice(parent, bs[1..], keys);
      assert TracesOf(bs, keys)[1..] == TracesOf(bs[1..], keys);
    }
  }

  /** On every trace the engine builds, a reported violation is real. */
  lemma BuiltViolationIsReal(b: Build, m: Monitor, keys: SortKeys) returns (w: Word)
    requires Accepted(b) && RequireBefore(m, TraceOf(b, keys)).MonitorViolation?
    ensures In(w, TraceOf(b, keys)) && Unsafe(m, w, NoGuard)
  {
    BuiltHasNoEmptyChoice(b, keys);
    w := ViolationWord(m, TraceOf(b, keys));
  }
}
