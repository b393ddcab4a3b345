/** Mapping a trace with an explicit work/value stack machine (substitution/trace.rs). */
module TraceMapping {
  import opened Prelude
  import opened Effects
  import opened Traces
  import opened Words
  import opened TraceOps
  import opened TraceWorklists

  /**
   * A summary mapper in state-passing form. `order` is the iteration order of an effect set;
   * `invalid` is the error for a malformed structure.
   */
  datatype Mapper<!S, E> = Mapper(
    checkpoint: S -> Result<S, E>,
    effect: (Effect, S) -> Result<(Effect, S), E>,
    event: (ActionEvent, S) -> Result<(Trace, S), E>,
    invalid: S -> E,
    order: set<Effect> -> seq<Effect>
  )

  // ----- Left-to-right structural recursion. -----

  function Checkpoints<S, E>(m: Mapper<S, E>, n: nat, s: S): Result<S, E>
  {
    if n == 0 then Ok(s)
    else
      var s1 :- m.checkpoint(s);
      Checkpoints(m, n - 1, s1)
  }

  function MapEffects<S, E>(m: Mapper<S, E>, es: seq<Effect>, s: S): Result<(seq<Effect>, S), E>
  {
    if es == [] then Ok(([], s))
    else
      var head :- m.effect(es[0], s);
      var tail :- MapEffects(m, es[1..], head.1);
      Ok(([head.0] + tail.0, tail.1))
  }

  /** The compound or wrapper trace like `t` around new children. */
  function Rebuild(t: Trace, children: seq<Trace>): Trace
    requires Compound(t) || (Wrapper(t) && |children| == 1)
  {
    match t
    case Seq(_) => Seq(children)
    case Choice(_) => Choice(children)
    case Parallel(_) => Parallel(children)
    case TaskStart(site, _) => TaskStart(site, children[0])
    case Repeat(_) => Repeat(children[0])
  }

  function MapRec<S, E>(m: Mapper<S, E>, t: Trace, s: S): Result<(Trace, S), E>
    decreases t, 0
  {
    var s1 :- m.checkpoint(s);
    if Compound(t) then
      var s2 :- Checkpoints(m, |t.parts|, s1);
      var children :- MapAll(m, t.parts, s2);
      Combine(m, t, children.0, children.1)
    else if Wrapper(t) then
      var child :- MapRec(m, t.inner, s1);
      Combine(m, t, [child.0], child.1)
    else MapLeaf(m, t, s1)
  }

  /** The checkpoint taken when the marker of a finished node is popped. */
  function Combine<S, E>(m: Mapper<S, E>, t: Trace, children: seq<Trace>, s: S): Result<(Trace, S), E>
    requires Compound(t) || (Wrapper(t) && |children| == 1)
  {
    var s1 :- m.checkpoint(s);
    Ok((Rebuild(t, children), s1))
  }

  function MapLeaf<S, E>(m: Mapper<S, E>, t: Trace, s: S): Result<(Trace, S), E>
    requires !Compound(t) && !Wrapper(t)
  {
    if t.Event? then m.event(t.event, s)
    else if t.UnknownOrder? then
      var mapped :- MapEffects(m, m.order(t.actions), s);
      Ok((UnknownOrder(Elems(mapped.0)), mapped.1))
    else if t.Widened? then
      var s1 :- Checkpoints(m, |t.calls|, s);
      var mapped :- MapEffects(m, m.order(t.actions), s1);
      Ok((Widened(Elems(mapped.0), t.calls), mapped.1))
    else Ok((t, s))
  }

  function MapAll<S, E>(m: Mapper<S, E>, ts: seq<Trace>, s: S): (r: Result<(seq<Trace>, S), E>)
    ensures r.Ok? ==> |r.value.0| == |ts|
    decreases ts, 1
  {
    if ts == [] then Ok(([], s))
    else
      var head :- MapRec(m, ts[0], s);
      var tail :- MapAll(m, ts[1..], head.1);
      Ok(([head.0] + tail.0, tail.1))
  }

  // ----- The stack machine. -----

  datatype Work =
    | Visit(trace: Trace)
    | MakeSeq(count: nat)
    | MakeChoice(count: nat)
    | MakeParallel(count: nat)
    | MakeTaskStart(site: nat)
    | MakeRepeat

  /** How many values a marker takes from the value stack. */
  function Arity(w: Work): nat
    requires !w.Visit?
  {
    if w.MakeTaskStart? || w.MakeRepeat? then 1 else w.count
  }

  function Marker(t: Trace): Work
    requires Compound(t) || Wrapper(t)
  {
    match t
    case Seq(parts) => MakeSeq(|parts|)
    case Choice(parts) => MakeChoice(|parts|)
    case Parallel(parts) => MakeParallel(|parts|)
    case TaskStart(site, _) => MakeTaskStart(site)
    case Repeat(_) => MakeRepeat
  }

  function Build(w: Work, parts: seq<Trace>): Trace
    requires !w.Visit? && |parts| == Arity(w)
  {
    match w
    case MakeSeq(_) => Seq(parts)
    case MakeChoice(_) => Choice(parts)
    case MakeParallel(_) => Parallel(parts)
    case MakeTaskStart(site) => TaskStart(site, parts[0])
    case MakeRepeat => Repeat(parts[0])
  }

  function WorkSize(work: seq<Work>): nat
  {
    if work == [] then 0
    else (if Top(work).Visit? then 2 * Size(Top(work).trace) else 1) + WorkSize(Rest(work))
  }

  /** What the machine still has to return, told with the structural recursion. */
  function Finish<S, E>(m: Mapper<S, E>, work: seq<Work>, values: seq<Trace>, s: S): Result<(Trace, S), E>
    decreases |work|
  {
    if work == [] then
      if |values| == 1 then Ok((values[0], s)) else Err(m.invalid(s))
    else if Top(work).Visit? then
      var x :- MapRec(m, Top(work).trace, s);
      Finish(m, Rest(work), values + [x.0], x.1)
    else
      var s1 :- m.checkpoint(s);
      if |values| < Arity(Top(work)) then Err(m.invalid(s1))
      else
        var k := |values| - Arity(Top(work));
        Finish(m, Rest(work), values[..k] + [Build(Top(work), values[k..])], s1)
  }

  /** The machine after the values of `r` were pushed, or the error of `r`. */
  function FinishAfter<S, E>(m: Mapper<S, E>, work: seq<Work>, values: seq<Trace>, r: Result<(seq<Trace>, S), E>): Result<(Trace, S), E>
  {
    var pushed :- r;
    Finish(m, work, values + pushed.0, pushed.1)
  }

  function Single<S, E>(r: Result<(Trace, S), E>): Result<(seq<Trace>, S), E>
  {
    var x :- r;
    Ok(([x.0], x.1))
  }

  function CombineAll<S, E>(m: Mapper<S, E>, t: Trace, r: Result<(seq<Trace>, S), E>): Result<(seq<Trace>, S), E>
    requires Compound(t) || Wrapper(t)
    requires Wrapper(t) && r.Ok? ==> |r.value.0| == 1
  {
    var children :- r;
    Single(Combine(m, t, children.0, children.1))
  }

  /** The visits of a list, the first one on top. */
  function Visits(ts: seq<Trace>): seq<Work>
  {
    if ts == [] then [] else Visits(ts[1..]) + [Visit(ts[0])]
  }

  lemma PushTop<T>(rest: seq<T>, x: T)
    ensures Top(rest + [x]) == x && Rest(rest + [x]) == rest
  {
  }

  lemma WorkSizePush(work: seq<Work>, ts: seq<Trace>)
    ensures WorkSize(work + Visits(ts)) == WorkSize(work) + 2 * SizeAll(ts)
  {
    if ts == [] {
      assert work + Visits(ts) == work;
    } else {
      WorkSizePush(work, ts[1..]);
      assert work + Visits(ts) == (work + Visits(ts[1..])) + [Visit(ts[0])];
      PushTop(work + Visits(ts[1..]), Visit(ts[0]));
    }
  }

  lemma {:induction false} FinishVisits<S, E>(m: Mapper<S, E>, work: seq<Work>, ts: seq<Trace>, values: seq<Trace>, s: S)
    ensures Finish(m, work + Visits(ts), values, s) == FinishAfter(m, work, values, MapAll(m, ts, s))
    decreases |ts|
  {
    if ts == [] {
      assert work + Visits(ts) == work;
      assert values + [] == values;
    } else {
      assert work + Visits(ts) == (work + Visits(ts[1..])) + [Visit(ts[0])];
      PushTop(work + Visits(ts[1..]), Visit(ts[0]));
      var head := MapRec(m, ts[0], s);
      if head.Ok? {
        FinishVisits(m, work, ts[1..], values + [head.value.0], head.value.1);
        var tail := MapAll(m, ts[1..], head.value.1);
        if tail.Ok? {
          assert values + ([head.value.0] + tail.value.0) == (values + [head.value.0]) + tail.value.0;
        }
      }
    }
  }

  /** Popping the marker of a node rebuilds exactly that node. */
  lemma FinishMarker<S, E>(m: Mapper<S, E>, work: seq<Work>, t: Trace, children: seq<Trace>, values: seq<Trace>, s: S)
    requires (Compound(t) && |children| == |t.parts|) || (Wrapper(t) && |children| == 1)
    ensures Finish(m, work + [Marker(t)], values + children, s)
         == FinishAfter(m, work, values, Single(Combine(m, t, children, s)))
  {
    PushTop(work, Marker(t));
    var all := values + children;
    assert all[..|values|] == values && all[|values|..] == children;
    assert Build(Marker(t), children) == Rebuild(t, children);
  }

  /** Visiting a compound or wrapper node continues with its children and then its marker. */
  lemma {:induction false} FinishNode<S, E>(m: Mapper<S, E>, work: seq<Work>, t: Trace, values: seq<Trace>, s: S)
    requires Compound(t) || Wrapper(t)
    ensures Finish(m, (work + [Marker(t)]) + Visits(Children(t)), values, s)
         == FinishAfter(m, work, values, CombineAll(m, t, MapAll(m, Children(t), s)))
  {
    FinishVisits(m, work + [Marker(t)], Children(t), values, s);
    var children := MapAll(m, Children(t), s);
    if children.Ok? {
      FinishMarker(m, work, t, children.value.0, values, children.value.1);
    }
  }

  lemma MapAllOne<S, E>(m: Mapper<S, E>, t: Trace, s: S)
    ensures MapAll(m, [t], s) == Single(MapRec(m, t, s))
  {
    assert [t][1..] == [];
    var x := MapRec(m, t, s);
    if x.Ok? {
      assert [x.value.0] + [] == [x.value.0];
    }
  }

  method PushParts<S, E>(m: Mapper<S, E>, base: seq<Work>, parts: seq<Trace>, s0: S)
    returns (work: seq<Work>, r: Result<S, E>)
    ensures r == Checkpoints(m, |parts|, s0)
    ensures r.Ok? ==> work == base + Visits(parts)
  {
    work := base;
    var s := s0;
    var i := |parts|;
    assert parts[|parts|..] == [];
    assert base + Visits([]) == base;
    while i > 0
      invariant 0 <= i <= |parts|
      invariant work == base + Visits(parts[i..])
      invariant Checkpoints(m, i, s) == Checkpoints(m, |parts|, s0)
    {
      var c := m.checkpoint(s);
      if c.Err? {
        return work, Err(c.error);
      }
      s := c.value;
      i := i - 1;
      assert parts[i..][1..] == parts[i + 1..];
      work := work + [Visit(parts[i])];
      assert work == base + Visits(parts[i..]);
    }
    assert parts[0..] == parts;
    r := Ok(s);
  }

  method CheckpointLoop<S, E>(m: Mapper<S, E>, n: nat, s0: S) returns (r: Result<S, E>)
    ensures r == Checkpoints(m, n, s0)
  {
    var s := s0;
    var left := n;
    while left > 0
      invariant Checkpoints(m, left, s) == Checkpoints(m, n, s0)
    {
      var c := m.checkpoint(s);
      if c.Err? {
        return Err(c.error);
      }
      s := c.value;
      left := left - 1;
    }
    r := Ok(s);
  }

  /** With `n` values on its stack the machine has the values every marker needs, and ends with one. */
  predicate Fed(work: seq<Work>, n: nat)
  {
    if work == [] then n == 1
    else if Top(work).Visit? then Fed(Rest(work), n + 1)
    else n >= Arity(Top(work)) && Fed(Rest(work), n - Arity(Top(work)) + 1)
  }

  lemma {:induction false} FedVisits(work: seq<Work>, ts: seq<Trace>, n: nat)
    ensures Fed(work + Visits(ts), n) <==> Fed(work, n + |ts|)
    decreases |ts|
  {
    if ts == [] {
      assert work + Visits(ts) == work;
    } else {
      assert work + Visits(ts) == (work + Visits(ts[1..])) + [Visit(ts[0])];
      PushTop(work + Visits(ts[1..]), Visit(ts[0]));
      FedVisits(work, ts[1..], n + 1);
    }
  }

  /** A node leaves one value once its children and its marker are done. */
  lemma FedNode(work: seq<Work>, t: Trace, n: nat)
    requires (Compound(t) || Wrapper(t)) && Fed(work, n + 1)
    ensures Fed((work + [Marker(t)]) + Visits(Children(t)), n)
  {
    FedVisits(work + [Marker(t)], Children(t), n);
    FedMarker(work, t, n + |Children(t)|);
  }

  lemma FedMarker(work: seq<Work>, t: Trace, n: nat)
    requires Compound(t) || Wrapper(t)
    ensures Fed(work + [Marker(t)], n) <==> n >= Arity(Marker(t)) && Fed(work, n - Arity(Marker(t)) + 1)
  {
    PushTop(work, Marker(t));
  }

  /** The machine is on its way to `goal`, with the values it needs. */
  ghost predicate OnWay<S, E>(m: Mapper<S, E>, work: seq<Work>, values: seq<Trace>, s: S, goal: Result<(Trace, S), E>)
  {
    Finish(m, work, values, s) == goal && Fed(work, |values|)
  }

  /** Visiting a compound or wrapper node: its marker and its children are pushed. */
  method OpenNode<S, E>(m: Mapper<S, E>, rest: seq<Work>, t: Trace, s1: S, ghost values: seq<Trace>, ghost s: S, ghost goal: Result<(Trace, S), E>)
    returns (work: seq<Work>, r: Result<S, E>)
    requires (Compound(t) || Wrapper(t)) && m.checkpoint(s) == Ok(s1) && OnWay(m, rest + [Visit(t)], values, s, goal)
    ensures r.Err? ==> goal == Err(r.error)
    ensures r.Ok? ==> OnWay(m, work, values, r.value, goal) && WorkSize(work) < WorkSize(rest + [Visit(t)])
  {
    if Compound(t) {
      work, r := OpenCompound(m, rest, t, s1, values, s, goal);
    } else {
      work := OpenWrapper(m, rest, t, s1, values, s, goal);
      r := Ok(s1);
    }
  }

  method OpenCompound<S, E>(m: Mapper<S, E>, rest: seq<Work>, t: Trace, s1: S, ghost values: seq<Trace>, ghost s: S, ghost goal: Result<(Trace, S), E>)
    returns (work: seq<Work>, r: Result<S, E>)
    requires Compound(t) && m.checkpoint(s) == Ok(s1) && OnWay(m, rest + [Visit(t)], values, s, goal)
    ensures r.Err? ==> goal == Err(r.error)
    ensures r.Ok? ==> OnWay(m, work, values, r.value, goal) && WorkSize(work) < WorkSize(rest + [Visit(t)])
  {
    PushTop(rest, Visit(t));
    PushTop(rest, Marker(t));
    FedNode(rest, t, |values|);
    WorkSizePush(rest + [Marker(t)], t.parts);
    work, r := PushParts(m, rest + [Marker(t)], t.parts, s1);
    if r.Ok? {
      FinishNode(m, rest, t, values, r.value);
    }
  }

  method OpenWrapper<S, E>(m: Mapper<S, E>, rest: seq<Work>, t: Trace, s1: S, ghost values: seq<Trace>, ghost s: S, ghost goal: Result<(Trace, S), E>)
    returns (work: seq<Work>)
    requires Wrapper(t) && m.checkpoint(s) == Ok(s1) && OnWay(m, rest + [Visit(t)], values, s, goal)
    ensures OnWay(m, work, values, s1, goal) && WorkSize(work) < WorkSize(rest + [Visit(t)])
  {
    PushTop(rest, Visit(t));
    PushTop(rest, Marker(t));
    FedNode(rest, t, |values|);
    FinishNode(m, rest, t, values, s1);
    MapAllOne(m, t.inner, s1);
    WorkSizePush(rest + [Marker(t)], [t.inner]);
    SizeAllOne(t.inner);
    assert Visits([t.inner]) == [Visit(t.inner)];
    work := (rest + [Marker(t)]) + [Visit(t.inner)];
  }

  /**
   * The stack machine returns exactly what structural recursion returns, for every trace and mapper. Its
   * stacks are always fed, so the checks for a missing or surplus value that the source makes never fail.
   */
  method MapTrace<S, E>(m: Mapper<S, E>, root: Trace, s0: S) returns (r: Result<(Trace, S), E>)
    ensures r == MapRec(m, root, s0)
  {
    var work := [Visit(root)];
    var values := [];
    var s := s0;
    assert Rest(work) == [];
    while work != []
      invariant OnWay(m, work, values, s, MapRec(m, root, s0))
      decreases WorkSize(work)
    {
      var next := Top(work);
      var rest := Rest(work);
      var c := m.checkpoint(s);
      if c.Err? {
        return Err(c.error);
      }
      var s1 := c.value;
      if next.Visit? {
        var t := next.trace;
        if Compound(t) || Wrapper(t) {
          var pushed, p := OpenNode(m, rest, t, s1, values, s, MapRec(m, root, s0));
          if p.Err? {
            return Err(p.error);
          }
          work, s := pushed, p.value;
        } else {
          var leaf := MapLeafByLoop(m, t, s1);
          if leaf.Err? {
            return Err(leaf.error);
          }
          work, values, s := rest, values + [leaf.value.0], leaf.value.1;
        }
      } else {
        var start := |values| - Arity(next);
        work, values, s := rest, values[..start] + [Build(next, values[start..])], s1;
      }
    }
    r := Ok((values[0], s));
  }

  method MapLeafByLoop<S, E>(m: Mapper<S, E>, t: Trace, s: S) returns (r: Result<(Trace, S), E>)
    requires !Compound(t) && !Wrapper(t)
    ensures r == MapLeaf(m, t, s)
  {
    if t.Event? {
      return m.event(t.event, s);
    }
    if !t.UnknownOrder? && !t.Widened? {
      return Ok((t, s));
    }
    var s1 := s;
    if t.Widened? {
      var c := CheckpointLoop(m, |t.calls|, s);
      if c.Err? {
        return Err(c.error);
      }
      s1 := c.value;
    }
    var mapped := MapEffects(m, m.order(t.actions), s1);
    if mapped.Err? {
      return Err(mapped.error);
    }
    var es := Elems(mapped.value.0);
    r := Ok((if t.UnknownOrder? then UnknownOrder(es) else Widened(es, t.calls), mapped.value.1));
  }

  // ----- Mapping builds no empty choice. -----

  ghost predicate EventsNonEmpty<S(!new), E>(m: Mapper<S, E>)
  {
    forall e: ActionEvent, s: S :: m.event(e, s).Ok? ==> NoEmptyChoice(m.event(e, s).value.0)
  }

  lemma {:induction false} MapRecKeepsNonEmptyChoices<S(!new), E>(m: Mapper<S, E>, t: Trace, s: S)
    requires EventsNonEmpty(m) && NoEmptyChoice(t) && MapRec(m, t, s).Ok?
    ensures NoEmptyChoice(MapRec(m, t, s).value.0)
    decreases t, 0
  {
    var s1 := m.checkpoint(s).value;
    if Compound(t) {
      MapAllKeepsNonEmptyChoices(m, t.parts, Checkpoints(m, |t.parts|, s1).value);
    } else if Wrapper(t) {
      MapRecKeepsNonEmptyChoices(m, t.inner, s1);
    }
  }

  lemma {:induction false} MapAllKeepsNonEmptyChoices<S(!new), E>(m: Mapper<S, E>, ts: seq<Trace>, s: S)
    requires EventsNonEmpty(m) && AllNoEmptyChoice(ts) && MapAll(m, ts, s).Ok?
    ensures AllNoEmptyChoice(MapAll(m, ts, s).value.0)
    decreases ts, 1
  {
    if ts != [] {
      var head := MapRec(m, ts[0], s).value;
      MapRecKeepsNonEmptyChoices(m, ts[0], s);
      MapAllKeepsNonEmptyChoices(m, ts[1..], head.1);
      assert ([head.0] + MapAll(m, ts[1..], head.1).value.0)[1..] == MapAll(m, ts[1..], head.1).value.0;
    }
  }

  // ----- The meaning of the mapped trace is the letterwise image. -----

  /** The mapper renames effects by `f` whenever it succeeds, and enumerates sets faithfully. */
  ghost predicate Renames<S(!new), E>(m: Mapper<S, E>, f: Effect -> Effect)
  {
    && (forall e: Effect, s: S :: m.effect(e, s).Ok? ==> m.effect(e, s).value.0 == f(e))
    && (forall e: ActionEvent, s: S :: m.event(e, s).Ok? ==> m.event(e, s).value.0 == Event(e.(action := f(e.action))))
    && (forall es: set<Effect> :: Elems(m.order(es)) == es)
  }

  function Rename(t: Trace, f: Effect -> Effect): Trace
    decreases t, 0
  {
    match t
    case Empty => t
    case Event(e) => Event(e.(action := f(e.action)))
    case ParameterCall(_) => t
    case TaskAwait(_) => t
    case TaskStart(site, inner) => TaskStart(site, Rename(inner, f))
    case Seq(parts) => Seq(RenameAll(parts, f))
    case Choice(parts) => Choice(RenameAll(parts, f))
    case Parallel(parts) => Parallel(RenameAll(parts, f))
    case Repeat(inner) => Repeat(Rename(inner, f))
    case UnknownOrder(actions) => UnknownOrder(set a | a in actions :: f(a))
    case Widened(actions, calls) => Widened(set a | a in actions :: f(a), calls)
  }

  function RenameAll(ts: seq<Trace>, f: Effect -> Effect): (r: seq<Trace>)
    ensures |r| == |ts| && forall i :: 0 <= i < |ts| ==> r[i] == Rename(ts[i], f)
    decreases ts, 1
  {
    if ts == [] then [] else [Rename(ts[0], f)] + RenameAll(ts[1..], f)
  }

  lemma {:induction false} MapEffectsRenames<S(!new), E>(m: Mapper<S, E>, es: seq<Effect>, s: S, f: Effect -> Effect)
    requires Renames(m, f) && MapEffects(m, es, s).Ok?
    ensures Elems(MapEffects(m, es, s).value.0) == set a | a in Elems(es) :: f(a)
    decreases |es|
  {
    if es != [] {
      var x, s1 := m.effect(es[0], s).value.0, m.effect(es[0], s).value.1;
      MapEffectsRenames(m, es[1..], s1, f);
      var xs := MapEffects(m, es[1..], s1).value.0;
      ElemsAppend([x], xs);
      assert es == [es[0]] + es[1..];
      ElemsAppend([es[0]], es[1..]);
      assert Elems([es[0]]) == {es[0]} && Elems([x]) == {x};
    }
  }

  /** A successful mapping changes nothing but the actions. */
  lemma {:induction false} MapRecRenames<S(!new), E>(m: Mapper<S, E>, t: Trace, s: S, f: Effect -> Effect)
    requires Renames(m, f) && MapRec(m, t, s).Ok?
    ensures MapRec(m, t, s).value.0 == Rename(t, f)
    decreases t, 0
  {
    var s1 := m.checkpoint(s).value;
    if Compound(t) {
      var s2 := Checkpoints(m, |t.parts|, s1).value;
      MapAllRenames(m, t.parts, s2, f);
    } else if Wrapper(t) {
      MapRecRenames(m, t.inner, s1, f);
    } else if t.UnknownOrder? {
      MapEffectsRenames(m, m.order(t.actions), s1, f);
    } else if t.Widened? {
      MapEffectsRenames(m, m.order(t.actions), Checkpoints(m, |t.calls|, s1).value, f);
    }
  }

  lemma {:induction false} MapAllRenames<S(!new), E>(m: Mapper<S, E>, ts: seq<Trace>, s: S, f: Effect -> Effect)
    requires Renames(m, f) && MapAll(m, ts, s).Ok?
    ensures MapAll(m, ts, s).value.0 == RenameAll(ts, f)
    decreases ts, 1
  {
    if ts != [] {
      MapRecRenames(m, ts[0], s, f);
      MapAllRenames(m, ts[1..], MapRec(m, ts[0], s).value.1, f);
    }
  }

  function RenameLetter(l: Letter, f: Effect -> Effect): Letter
  {
    if l.Act? then Act(f(l.action)) else l
  }

  function RenameWord(w: Word, f: Effect -> Effect): (r: Word)
    ensures |r| == |w| && forall i :: 0 <= i < |w| ==> r[i] == RenameLetter(w[i], f)
  {
    if w == [] then [] else [RenameLetter(w[0], f)] + RenameWord(w[1..], f)
  }

  lemma RenameWordAppend(u: Word, v: Word, f: Effect -> Effect)
    ensures RenameWord(u + v, f) == RenameWord(u, f) + RenameWord(v, f)
  {
  }

  lemma {:induction false} RenameInterleave(u: Word, v: Word, w: Word, f: Effect -> Effect)
    requires Interleave(u, v, w)
    ensures Interleave(RenameWord(u, f), RenameWord(v, f), RenameWord(w, f))
    decreases |w|
  {
    if w != [] {
      if u != [] && u[0] == w[0] && Interleave(u[1..], v, w[1..]) {
        RenameInterleave(u[1..], v, w[1..], f);
      } else {
        RenameInterleave(u, v[1..], w[1..], f);
      }
    }
  }

  /** A shuffle of two images is the image of a shuffle. */
  lemma {:induction false} UnrenameInterleave(u: Word, v: Word, image: Word, f: Effect -> Effect) returns (w: Word)
    requires Interleave(RenameWord(u, f), RenameWord(v, f), image)
    ensures Interleave(u, v, w) && RenameWord(w, f) == image
    decreases |image|
  {
    if image == [] {
      w := [];
    } else {
      var fu, fv := RenameWord(u, f), RenameWord(v, f);
      if fu != [] && fu[0] == image[0] && Interleave(fu[1..], fv, image[1..]) {
        var tail := UnrenameInterleave(u[1..], v, image[1..], f);
        w := [u[0]] + tail;
        assert w[1..] == tail;
      } else {
        var tail := UnrenameInterleave(u, v[1..], image[1..], f);
        w := [v[0]] + tail;
        assert w[1..] == tail;
      }
    }
  }

  /** The letters of the renamed alphabet are the images of letters. */
  lemma {:induction false} UnrenameOver(image: Word, actions: set<Effect>, calls: seq<ParameterCallRef>, f: Effect -> Effect) returns (w: Word)
    requires Over(image, ActLetters(set a | a in actions :: f(a)) + CallLetters(calls))
    ensures Over(w, ActLetters(actions) + CallLetters(calls)) && RenameWord(w, f) == image
  {
    if image == [] {
      w := [];
    } else {
      assert image[0] in image;
      var l := image[0];
      if l.Act? {
        var a :| a in actions && f(a) == l.action;
        l := Act(a);
      }
      assert RenameLetter(l, f) == image[0];
      assert l in ActLetters(actions) + CallLetters(calls);
      var tail := UnrenameOver(image[1..], actions, calls, f);
      w := [l] + tail;
      assert w[1..] == tail;
    }
  }

  lemma RenameOver(w: Word, actions: set<Effect>, calls: seq<ParameterCallRef>, f: Effect -> Effect)
    requires Over(w, ActLetters(actions) + CallLetters(calls))
    ensures Over(RenameWord(w, f), ActLetters(set a | a in actions :: f(a)) + CallLetters(calls))
  {
    var image := RenameWord(w, f);
    var renamed := set a | a in actions :: f(a);
    forall l | l in image
      ensures l in ActLetters(renamed) + CallLetters(calls)
    {
      var i :| 0 <= i < |image| && image[i] == l;
      assert w[i] in w;
      if w[i].Act? {
        assert f(w[i].action) in renamed;
      }
    }
  }

  /** Every word of the trace maps to a word of the renamed trace. */
  lemma {:induction false} RenameForward(w: Word, t: Trace, f: Effect -> Effect)
    requires In(w, t)
    ensures In(RenameWord(w, f), Rename(t, f))
    decreases t, 0, 0
  {
    match t
    case Empty =>
    case Event(e) =>
    case ParameterCall(c) =>
    case TaskAwait(_) =>
    case TaskStart(_, inner) => RenameForward(w, inner, f);
    case Seq(parts) => RenameForwardSeq(w, parts, f);
    case Choice(parts) =>
      var i :| 0 <= i < |parts| && In(w, parts[i]);
      RenameForward(w, parts[i], f);
      assert RenameAll(parts, f)[i] == Rename(parts[i], f);
    case Parallel(parts) => RenameForwardShuffle(w, parts, f);
    case Repeat(inner) => RenameForwardStar(w, inner, f);
    case UnknownOrder(actions) =>
      assert CallLetters([]) == {};
      RenameOver(w, actions, [], f);
    case Widened(actions, calls) => RenameOver(w, actions, calls, f);
  }

  lemma {:induction false} RenameForwardSeq(w: Word, ts: seq<Trace>, f: Effect -> Effect)
    requires InSeq(w, ts)
    ensures InSeq(RenameWord(w, f), RenameAll(ts, f))
    decreases ts, 1, 0
  {
    if ts != [] {
      var u, v := SeqUncons(w, ts);
      RenameForward(u, ts[0], f);
      RenameForwardSeq(v, ts[1..], f);
      RenameWordAppend(u, v, f);
      assert RenameAll(ts, f)[1..] == RenameAll(ts[1..], f);
      SeqCons(RenameWord(u, f), RenameWord(v, f), RenameAll(ts, f));
    }
  }

  lemma {:induction false} RenameForwardShuffle(w: Word, ts: seq<Trace>, f: Effect -> Effect)
    requires InShuffle(w, ts)
    ensures InShuffle(RenameWord(w, f), RenameAll(ts, f))
    decreases ts, 1, 0
  {
    if ts != [] {
      var u, v :| Interleave(u, v, w) && In(u, ts[0]) && InShuffle(v, ts[1..]);
      RenameForward(u, ts[0], f);
      RenameForwardShuffle(v, ts[1..], f);
      RenameInterleave(u, v, w, f);
      assert RenameAll(ts, f)[1..] == RenameAll(ts[1..], f);
    }
  }

  lemma {:induction false} RenameForwardStar(w: Word, t: Trace, f: Effect -> Effect)
    requires InStar(w, t)
    ensures InStar(RenameWord(w, f), Rename(t, f))
    decreases t, 1, |w|
  {
    if w != [] {
      var u, v := StarUncons(w, t);
      RenameForward(u, t, f);
      RenameForwardStar(v, t, f);
      RenameWordAppend(u, v, f);
      StarCons(RenameWord(u, f), RenameWord(v, f), Rename(t, f));
    }
  }

  /** Every word of the renamed trace is the image of a word of the trace. */
  lemma {:induction false} RenameBackward(image: Word, t: Trace, f: Effect -> Effect) returns (w: Word)
    requires In(image, Rename(t, f))
    ensures In(w, t) && RenameWord(w, f) == image
    decreases t, 0, 0
  {
    match t
    case Empty => w := [];
    case Event(e) => w := [Act(e.action)];
    case ParameterCall(c) => w := [CallLetter(c)];
    case TaskAwait(_) => w := [];
    case TaskStart(_, inner) => w := RenameBackward(image, inner, f);
    case Seq(parts) => w := RenameBackwardSeq(image, parts, f);
    case Choice(parts) =>
      var i :| 0 <= i < |parts| && In(image, RenameAll(parts, f)[i]);
      w := RenameBackward(image, parts[i], f);
    case Parallel(parts) => w := RenameBackwardShuffle(image, parts, f);
    case Repeat(inner) => w := RenameBackwardStar(image, inner, f);
    case UnknownOrder(actions) =>
      assert CallLetters([]) == {};
      w := UnrenameOver(image, actions, [], f);
    case Widened(actions, calls) => w := UnrenameOver(image, actions, calls, f);
  }

  lemma {:induction false} RenameBackwardSeq(image: Word, ts: seq<Trace>, f: Effect -> Effect) returns (w: Word)
    requires InSeq(image, RenameAll(ts, f))
    ensures InSeq(w, ts) && RenameWord(w, f) == image
    decreases ts, 1, 0
  {
    if ts == [] {
      w := [];
    } else {
      assert RenameAll(ts, f)[1..] == RenameAll(ts[1..], f);
      var x, y := SeqUncons(image, RenameAll(ts, f));
      var u := RenameBackward(x, ts[0], f);
      var v := RenameBackwardSeq(y, ts[1..], f);
      SeqCons(u, v, ts);
      RenameWordAppend(u, v, f);
      w := u + v;
    }
  }

  lemma {:induction false} RenameBackwardShuffle(image: Word, ts: seq<Trace>, f: Effect -> Effect) returns (w: Word)
    requires InShuffle(image, RenameAll(ts, f))
    ensures InShuffle(w, ts) && RenameWord(w, f) == image
    decreases ts, 1, 0
  {
    if ts == [] {
      w := [];
    } else {
      assert RenameAll(ts, f)[1..] == RenameAll(ts[1..], f);
      var x, y :| Interleave(x, y, image) && In(x, RenameAll(ts, f)[0]) && InShuffle(y, RenameAll(ts, f)[1..]);
      var u := RenameBackward(x, ts[0], f);
      var v := RenameBackwardShuffle(y, ts[1..], f);
      w := UnrenameInterleave(u, v, image, f);
    }
  }

  lemma {:induction false} RenameBackwardStar(image: Word, t: Trace, f: Effect -> Effect) returns (w: Word)
    requires InStar(image, Rename(t, f))
    ensures InStar(w, t) && RenameWord(w, f) == image
    decreases t, 1, |image|
  {
    if image == [] {
      w := [];
    } else {
      var x, y := StarUncons(image, Rename(t, f));
      var u := RenameBackward(x, t, f);
      var v := RenameBackwardStar(y, t, f);
      StarCons(u, v, t);
      RenameWordAppend(u, v, f);
      w := u + v;
    }
  }

  /** The meaning of a successfully mapped trace is the letterwise image of the input's meaning. */
  lemma {:induction false} MapMeaning<S(!new), E>(m: Mapper<S, E>, t: Trace, s: S, f: Effect -> Effect, image: Word)
    requires Renames(m, f) && MapRec(m, t, s).Ok?
    ensures In(image, MapRec(m, t, s).value.0) <==> exists w :: In(w, t) && RenameWord(w, f) == image
  {
    MapRecRenames(m, t, s, f);
    if In(image, MapRec(m, t, s).value.0) {
      var w := RenameBackward(image, t, f);
    }
    if w :| In(w, t) && RenameWord(w, f) == image {
      RenameForward(w, t, f);
    }
  }

  // ----- The node budget. -----

  /** The mapper's state is its remaining budget, and running out is its only failure. */
  ghost predicate FailsOnlyOnBudget<E(!new)>(m: Mapper<nat, E>, cost: Effect -> nat, limit: E)
  {
    && (forall n: nat :: m.checkpoint(n) == if n == 0 then Err(limit) else Ok(n - 1))
    && (forall e: Effect, n: nat ::
          if n < cost(e) then m.effect(e, n) == Err(limit) else m.effect(e, n).Ok? && m.effect(e, n).value.1 == n - cost(e))
    && (forall e: ActionEvent, n: nat ::
          if n < cost(e.action) then m.event(e, n) == Err(limit)
          else m.event(e, n).Ok? && m.event(e, n).value.1 == n - cost(e.action))
  }

  function EffectsCost(es: seq<Effect>, cost: Effect -> nat): nat
  {
    if es == [] then 0 else cost(es[0]) + EffectsCost(es[1..], cost)
  }

  /** One unit per visit, per pushed part, per popped marker and per call, plus the cost of the effects. */
  function Cost<E>(m: Mapper<nat, E>, t: Trace, cost: Effect -> nat): nat
    decreases t, 0
  {
    if Compound(t) then 2 + |t.parts| + CostAll(m, t.parts, cost)
    else if Wrapper(t) then 2 + Cost(m, t.inner, cost)
    else if t.Event? then 1 + cost(t.event.action)
    else if t.UnknownOrder? then 1 + EffectsCost(m.order(t.actions), cost)
    else if t.Widened? then 1 + |t.calls| + EffectsCost(m.order(t.actions), cost)
    else 1
  }

  function CostAll<E>(m: Mapper<nat, E>, ts: seq<Trace>, cost: Effect -> nat): nat
    decreases ts, 1
  {
    if ts == [] then 0 else Cost(m, ts[0], cost) + CostAll(m, ts[1..], cost)
  }

  lemma {:induction false} CheckpointsBudget<E(!new)>(m: Mapper<nat, E>, k: nat, n: nat, cost: Effect -> nat, limit: E)
    requires FailsOnlyOnBudget(m, cost, limit)
    ensures Checkpoints(m, k, n) == if n < k then Err(limit) else Ok(n - k)
  {
    if k > 0 && n > 0 {
      CheckpointsBudget(m, k - 1, n - 1, cost, limit);
    }
  }

  lemma {:induction false} EffectsBudget<E(!new)>(m: Mapper<nat, E>, es: seq<Effect>, n: nat, cost: Effect -> nat, limit: E)
    requires FailsOnlyOnBudget(m, cost, limit)
    ensures var need := EffectsCost(es, cost);
            if n < need then MapEffects(m, es, n) == Err(limit)
            else MapEffects(m, es, n).Ok? && MapEffects(m, es, n).value.1 == n - need
  {
    if es != [] && n >= cost(es[0]) {
      EffectsBudget(m, es[1..], n - cost(es[0]), cost, limit);
    }
  }

  /** With a mapper that fails only on budget, mapping succeeds exactly when the budget covers the cost. */
  lemma {:induction false} MapBudget<E(!new)>(m: Mapper<nat, E>, t: Trace, n: nat, cost: Effect -> nat, limit: E)
    requires FailsOnlyOnBudget(m, cost, limit)
    ensures var need := Cost(m, t, cost);
            if n < need then MapRec(m, t, n) == Err(limit)
            else MapRec(m, t, n).Ok? && MapRec(m, t, n).value.1 == n - need
    decreases t, 0
  {
    if n > 0 {
      var n1 := n - 1;
      assert m.checkpoint(n) == Ok(n1);
      if Compound(t) {
        CheckpointsBudget(m, |t.parts|, n1, cost, limit);
        if n1 >= |t.parts| {
          MapAllBudget(m, t.parts, n1 - |t.parts|, cost, limit);
        }
      } else if Wrapper(t) {
        MapBudget(m, t.inner, n1, cost, limit);
      } else if t.UnknownOrder? {
        EffectsBudget(m, m.order(t.actions), n1, cost, limit);
      } else if t.Widened? {
        CheckpointsBudget(m, |t.calls|, n1, cost, limit);
        if n1 >= |t.calls| {
          EffectsBudget(m, m.order(t.actions), n1 - |t.calls|, cost, limit);
        }
      }
    }
  }

  lemma {:induction false} MapAllBudget<E(!new)>(m: Mapper<nat, E>, ts: seq<Trace>, n: nat, cost: Effect -> nat, limit: E)
    requires FailsOnlyOnBudget(m, cost, limit)
    ensures var need := CostAll(m, ts, cost);
            if n < need then MapAll(m, ts, n) == Err(limit)
            else MapAll(m, ts, n).Ok? && MapAll(m, ts, n).value.1 == n - need
    decreases ts, 1
  {
    if ts != [] {
      MapBudget(m, ts[0], n, cost, limit);
      if n >= Cost(m, ts[0], cost) {
        MapAllBudget(m, ts[1..], n - Cost(m, ts[0], cost), cost, limit);
      }
    }
  }

  // ----- When a mapper with a budget succeeds. -----

  /** The mapper charges `cost`, maps exactly the effects in `can` and the events on actions in `acts`. */
  ghost predicate Charges<E>(m: Mapper<nat, E>, cost: Effect -> nat, can: Effect -> bool, acts: Effect -> bool)
  {
    && (forall n: nat :: if n == 0 then m.checkpoint(n).Err? else m.checkpoint(n) == Ok(n - 1))
    && (forall e: Effect, n: nat :: m.effect(e, n).Ok? <==> can(e) && n >= cost(e))
    && (forall e: Effect, n: nat :: m.effect(e, n).Ok? ==> m.effect(e, n).value.1 == n - cost(e))
    && (forall e: ActionEvent, n: nat :: m.event(e, n).Ok? <==> acts(e.action) && n >= cost(e.action))
    && (forall e: ActionEvent, n: nat :: m.event(e, n).Ok? ==> m.event(e, n).value.1 == n - cost(e.action))
    && (forall es: set<Effect> :: Elems(m.order(es)) == es)
  }

  /** Every effect of the trace can be mapped, and every event can be mapped as an action. */
  predicate Maps(t: Trace, can: Effect -> bool, acts: Effect -> bool)
  {
    if Compound(t) then AllMap(t.parts, can, acts)
    else if Wrapper(t) then Maps(t.inner, can, acts)
    else if t.Event? then acts(t.event.action)
    else t.UnknownOrder? || t.Widened? ==> forall e :: e in t.actions ==> can(e)
  }

  predicate AllMap(ts: seq<Trace>, can: Effect -> bool, acts: Effect -> bool)
  {
    ts != [] ==> Maps(ts[0], can, acts) && AllMap(ts[1..], can, acts)
  }

  lemma {:induction false} CheckpointsExactly<E>(m: Mapper<nat, E>, k: nat, n: nat, cost: Effect -> nat, can: Effect -> bool, acts: Effect -> bool)
    requires Charges(m, cost, can, acts)
    ensures if n < k then Checkpoints(m, k, n).Err? else Checkpoints(m, k, n) == Ok(n - k)
    decreases k
  {
    if k > 0 && n > 0 {
      CheckpointsExactly(m, k - 1, n - 1, cost, can, acts);
    }
  }

  lemma {:induction false} EffectsExactly<E>(m: Mapper<nat, E>, es: seq<Effect>, n: nat, cost: Effect -> nat, can: Effect -> bool, acts: Effect -> bool)
    requires Charges(m, cost, can, acts)
    ensures MapEffects(m, es, n).Ok? <==> (forall e :: e in Elems(es) ==> can(e)) && n >= EffectsCost(es, cost)
    ensures MapEffects(m, es, n).Ok? ==> MapEffects(m, es, n).value.1 == n - EffectsCost(es, cost)
    decreases |es|
  {
    if es != [] {
      assert forall e :: e in es <==> e == es[0] || e in es[1..];
      assert es[0] in Elems(es);
      if can(es[0]) && n >= cost(es[0]) {
        EffectsExactly(m, es[1..], n - cost(es[0]), cost, can, acts);
      }
    }
  }

  /** Mapping succeeds exactly when the trace can be mapped and the budget covers its cost, which is then used up. */
  lemma {:induction false} MapExactly<E>(m: Mapper<nat, E>, t: Trace, n: nat, cost: Effect -> nat, can: Effect -> bool, acts: Effect -> bool)
    requires Charges(m, cost, can, acts)
    ensures MapRec(m, t, n).Ok? <==> Maps(t, can, acts) && n >= Cost(m, t, cost)
    ensures MapRec(m, t, n).Ok? ==> MapRec(m, t, n).value.1 == n - Cost(m, t, cost)
    decreases t, 0
  {
    if n > 0 {
      var n1 := n - 1;
      assert m.checkpoint(n) == Ok(n1);
      if Compound(t) {
        CheckpointsExactly(m, |t.parts|, n1, cost, can, acts);
        if n1 >= |t.parts| {
          MapAllExactly(m, t.parts, n1 - |t.parts|, cost, can, acts);
        }
      } else if Wrapper(t) {
        MapExactly(m, t.inner, n1, cost, can, acts);
      } else if t.UnknownOrder? {
        EffectsExactly(m, m.order(t.actions), n1, cost, can, acts);
      } else if t.Widened? {
        CheckpointsExactly(m, |t.calls|, n1, cost, can, acts);
        if n1 >= |t.calls| {
          EffectsExactly(m, m.order(t.actions), n1 - |t.calls|, cost, can, acts);
        }
      }
    }
  }

  lemma {:induction false} MapAllExactly<E>(m: Mapper<nat, E>, ts: seq<Trace>, n: nat, cost: Effect -> nat, can: Effect -> bool, acts: Effect -> bool)
    requires Charges(m, cost, can, acts)
    ensures MapAll(m, ts, n).Ok? <==> AllMap(ts, can, acts) && n >= CostAll(m, ts, cost)
    ensures MapAll(m, ts, n).Ok? ==> MapAll(m, ts, n).value.1 == n - CostAll(m, ts, cost)
    decreases ts, 1
  {
    if ts != [] {
      MapExactly(m, ts[0], n, cost, can, acts);
      if MapRec(m, ts[0], n).Ok? {
        MapAllExactly(m, ts[1..], n - Cost(m, ts[0], cost), cost, can, acts);
      }
    }
  }
}
