/** Static string evaluation (crates/etas_hir_analysis/src/static_string.rs). */
module StaticString {
  import opened Prelude

  type ExprId = nat
  type SymbolId = nat
  type ItemId = nat

  datatype Transform = Trim | Lowercase | Uppercase

  datatype CallSemantics =
    | StringTransform(argument: nat, transform: Transform)
    | SourceFlow(item: ItemId, params: seq<SymbolId>, returnExpr: ExprId)

  datatype Resolution =
    | Resolved(symbol: SymbolId)
    | PartiallyResolved(prefix: Option<SymbolId>, remaining: seq<string>)
    | Unresolved
    | Ambiguous

  datatype FieldInit = Named(name: string, value: ExprId) | Shorthand(name: string, resolution: Resolution) | OtherField

  datatype Expr =
    | StringLiteral(text: string)
    | Record(fields: seq<FieldInit>)
    | FieldOf(base: ExprId, field: string)
    | Path(resolution: Resolution)
    | Call(callee: ExprId, args: seq<ExprId>)
    | OtherExpr

  /** The program, the initializers of its symbols, and the oracle for calls and transforms. */
  datatype Program = Program(
    exprs: map<ExprId, Expr>,
    initializers: map<SymbolId, ExprId>,
    semantics: ExprId -> Option<CallSemantics>,
    apply: (string, Transform) -> string
  )

  datatype EvaluationError =
    | Cycle(expr: ExprId)
    | MissingExpression(expr: ExprId)
    | UnsupportedExpression(expr: ExprId)
    | MissingRecordField(expr: ExprId, field: string)
    | UnresolvedPath(expr: ExprId)
    | UnboundSymbol(expr: ExprId, symbol: SymbolId)
    | UnsupportedCall(expr: ExprId)
    | MissingCallArgument(expr: ExprId, argument: nat)

  type Outcome = Result<string, EvaluationError>

  // ----- One expansion step, for any representation `E` of environments. -----

  datatype Ref<E> = Ref(expr: ExprId, env: E)

  datatype Frame<E> = Frame(bindings: map<SymbolId, Ref<E>>, activeCalls: set<ItemId>)

  datatype Query<E> = Query(expression: Ref<E>, projection: seq<string>)

  datatype Expansion<E> =
    | Value(text: string)
    | Fail(error: EvaluationError)
    | Depends(dependency: Query<E>, transform: Option<Transform>)
    | EnterFlow(next: Frame<E>, body: ExprId, projection: seq<string>)

  function SymbolRef<E>(h: Program, expr: ExprId, symbol: SymbolId, env: E, frame: Frame<E>): Result<Ref<E>, EvaluationError>
  {
    if symbol in frame.bindings then Ok(frame.bindings[symbol])
    else if symbol in h.initializers then Ok(Ref(h.initializers[symbol], env))
    else Err(UnboundSymbol(expr, symbol))
  }

  /** The first field of that name that leads to an expression. */
  function FindField<E>(h: Program, fields: seq<FieldInit>, name: string, expr: ExprId, env: E, frame: Frame<E>): Option<Ref<E>>
  {
    if fields == [] then None
    else
      var f := fields[0];
      if f.Named? && f.name == name then Some(Ref(f.value, env))
      else if f.Shorthand? && f.name == name && f.resolution.Resolved? && SymbolRef(h, expr, f.resolution.symbol, env, frame).Ok? then
        Some(SymbolRef(h, expr, f.resolution.symbol, env, frame).value)
      else FindField(h, fields[1..], name, expr, env, frame)
  }

  /** The parameters bound to the arguments in the caller's environment. */
  function BindParams<E>(params: seq<SymbolId>, args: seq<ExprId>, env: E): map<SymbolId, Ref<E>>
    requires |params| <= |args|
  {
    if params == [] then map[]
    else
      var last := |params| - 1;
      BindParams(params[..last], args, env)[params[last] := Ref(args[last], env)]
  }

  function ExpandCall<E>(h: Program, q: Query<E>, callee: ExprId, args: seq<ExprId>, frame: Frame<E>): Expansion<E>
  {
    var expr := q.expression.expr;
    match h.semantics(callee)
    case None => Fail(UnsupportedCall(expr))
    case Some(StringTransform(argument, transform)) =>
      if q.projection != [] then Fail(UnsupportedExpression(expr))
      else if argument >= |args| then Fail(MissingCallArgument(expr, argument))
      else Depends(Query(Ref(args[argument], q.expression.env), []), Some(transform))
    case Some(SourceFlow(item, params, returnExpr)) =>
      if item in frame.activeCalls then Fail(Cycle(expr))
      else if |params| > |args| then Fail(MissingCallArgument(expr, |args|))
      else EnterFlow(Frame(BindParams(params, args, q.expression.env), frame.activeCalls + {item}), returnExpr, q.projection)
  }

  function ExpandPath<E>(h: Program, q: Query<E>, symbol: SymbolId, remaining: seq<string>, frame: Frame<E>): Expansion<E>
  {
    var found := SymbolRef(h, q.expression.expr, symbol, q.expression.env, frame);
    if found.Ok? then Depends(Query(found.value, remaining + q.projection), None) else Fail(found.error)
  }

  function Expand<E>(h: Program, q: Query<E>, frame: Frame<E>): Expansion<E>
  {
    var expr, env := q.expression.expr, q.expression.env;
    if expr !in h.exprs then Fail(MissingExpression(expr))
    else match h.exprs[expr]
      case StringLiteral(text) => if q.projection == [] then Value(text) else Fail(UnsupportedExpression(expr))
      case Record(fields) =>
        if q.projection == [] then Fail(UnsupportedExpression(expr))
        else
          var found := FindField(h, fields, q.projection[0], expr, env, frame);
          if found.None? then Fail(MissingRecordField(expr, q.projection[0]))
          else Depends(Query(found.value, q.projection[1..]), None)
      case FieldOf(base, field) => Depends(Query(Ref(base, env), [field] + q.projection), None)
      case Path(Resolved(symbol)) => ExpandPath(h, q, symbol, [], frame)
      case Path(PartiallyResolved(Some(symbol), remaining)) => ExpandPath(h, q, symbol, remaining, frame)
      case Path(_) => Fail(UnresolvedPath(expr))
      case Call(callee, args) => ExpandCall(h, q, callee, args, frame)
      case OtherExpr => Fail(UnsupportedExpression(expr))
  }

  // ----- The plain semantics: environments are values, the chain is followed to its end. -----

  /** An environment as a value: what its names stand for, all the way down. */
  datatype Env = Env(frame: Frame<Env>)

  const Root := Env(Frame(map[], {}))

  /** What a query of the plain semantics depends on. */
  function Step(h: Program, q: Query<Env>): (x: Expansion<Env>)
    ensures !x.EnterFlow?
  {
    var x := Expand(h, q, q.expression.env.frame);
    if x.EnterFlow? then Depends(Query(Ref(x.body, Env(x.next)), x.projection), None) else x
  }

  function Transformed(h: Program, r: Outcome, t: Option<Transform>): Outcome
  {
    if r.Ok? && t.Some? then Ok(h.apply(r.value, t.value)) else r
  }

  /**
   * Following the chain for at most `fuel` dependencies: its value with the transforms applied on the
   * way back, its error, or a cycle at the first query met twice.
   */
  function Follow(h: Program, q: Query<Env>, visited: set<Query<Env>>, fuel: nat): Option<Outcome>
    decreases fuel
  {
    if q in visited then Some(Err(Cycle(q.expression.expr)))
    else
      var x := Step(h, q);
      if x.Value? then Some(Ok(x.text))
      else if x.Fail? then Some(Err(x.error))
      else if fuel == 0 then None
      else
        var rest := Follow(h, x.dependency, visited + {q}, fuel - 1);
        if rest.Some? then Some(Transformed(h, rest.value, x.transform)) else None
  }

  ghost predicate Settles(h: Program, q: Query<Env>)
  {
    exists fuel: nat :: Follow(h, q, {}, fuel).Some?
  }

  lemma {:induction false} MoreFuel(h: Program, q: Query<Env>, visited: set<Query<Env>>, fuel: nat, more: nat)
    requires Follow(h, q, visited, fuel).Some? && fuel <= more
    ensures Follow(h, q, visited, more) == Follow(h, q, visited, fuel)
    decreases fuel
  {
    if q !in visited && Step(h, q).Depends? {
      MoreFuel(h, Step(h, q).dependency, visited + {q}, fuel - 1, more - 1);
    }
  }

  /** The n-th query of the chain, while there is one. */
  function Nth(h: Program, q: Query<Env>, n: nat): Option<Query<Env>>
    decreases n
  {
    if n == 0 then Some(q)
    else if Step(h, q).Depends? then Nth(h, Step(h, q).dependency, n - 1)
    else None
  }

  ghost predicate Ends(h: Program, q: Query<Env>)
  {
    exists n: nat :: Nth(h, q, n).None?
  }

  ghost predicate Repeats(h: Program, q: Query<Env>)
  {
    exists i: nat, j: nat :: i < j && Nth(h, q, i).Some? && Nth(h, q, i) == Nth(h, q, j)
  }

  /** The first n+1 queries exist, are new and distinct, and a further one follows. */
  ghost predicate StillNew(h: Program, q: Query<Env>, visited: set<Query<Env>>, n: nat)
  {
    && Nth(h, q, n + 1).Some?
    && (forall k: nat :: k <= n ==> Nth(h, q, k).Some? && Nth(h, q, k).value !in visited)
    && (forall i: nat, k: nat :: i < k <= n ==> Nth(h, q, i) != Nth(h, q, k))
  }

  lemma StillNewStep(h: Program, q: Query<Env>, visited: set<Query<Env>>, n: nat)
    requires n > 0 && q !in visited && Step(h, q).Depends?
    ensures StillNew(h, q, visited, n) <==> StillNew(h, Step(h, q).dependency, visited + {q}, n - 1)
  {
    var d := Step(h, q).dependency;
    assert forall k: nat :: Nth(h, q, k + 1) == Nth(h, d, k);
    if StillNew(h, q, visited, n) {
      forall k: nat | k <= n - 1
        ensures Nth(h, d, k).Some? && Nth(h, d, k).value !in visited + {q}
      {
        assert Nth(h, q, k + 1) == Nth(h, d, k);
        assert Nth(h, q, 0) == Some(q);
      }
      forall i: nat, k: nat | i < k <= n - 1
        ensures Nth(h, d, i) != Nth(h, d, k)
      {
        assert Nth(h, q, i + 1) == Nth(h, d, i) && Nth(h, q, k + 1) == Nth(h, d, k);
      }
    }
    if StillNew(h, d, visited + {q}, n - 1) {
      forall k: nat | k <= n
        ensures Nth(h, q, k).Some? && Nth(h, q, k).value !in visited && (k > 0 ==> Nth(h, q, k) != Some(q))
      {
        if k > 0 {
          assert Nth(h, q, k) == Nth(h, d, k - 1);
        }
      }
      forall i: nat, k: nat | i < k <= n
        ensures Nth(h, q, i) != Nth(h, q, k)
      {
        if i > 0 {
          assert Nth(h, q, i) == Nth(h, d, i - 1) && Nth(h, q, k) == Nth(h, d, k - 1);
        }
      }
    }
  }

  lemma {:induction false} UnsettledExactly(h: Program, q: Query<Env>, visited: set<Query<Env>>, n: nat)
    ensures Follow(h, q, visited, n).None? <==> StillNew(h, q, visited, n)
    decreases n
  {
    assert Nth(h, q, 0) == Some(q);
    if q !in visited {
      if Step(h, q).Depends? {
        if n > 0 {
          UnsettledExactly(h, Step(h, q).dependency, visited + {q}, n - 1);
          StillNewStep(h, q, visited, n);
        } else {
          assert Nth(h, q, 1) == Nth(h, Step(h, q).dependency, 0);
        }
      } else {
        assert Nth(h, q, n + 1).None?;
      }
    }
  }

  lemma {:induction false} NoneStays(h: Program, q: Query<Env>, n: nat, m: nat)
    requires Nth(h, q, n).None? && n <= m
    ensures Nth(h, q, m).None?
    decreases n
  {
    if Step(h, q).Depends? {
      NoneStays(h, Step(h, q).dependency, n - 1, m - 1);
    }
  }

  /** A query settles exactly when its chain ends or repeats. */
  lemma SettlesExactly(h: Program, q: Query<Env>)
    ensures Settles(h, q) <==> Ends(h, q) || Repeats(h, q)
  {
    if Settles(h, q) {
      var n: nat :| Follow(h, q, {}, n).Some?;
      UnsettledExactly(h, q, {}, n);
      assert Nth(h, q, n + 1).None? || !StillNew(h, q, {}, n);
    }
    if Ends(h, q) {
      var n: nat :| Nth(h, q, n).None?;
      NoneStays(h, q, n, n + 1);
      UnsettledExactly(h, q, {}, n);
    }
    if Repeats(h, q) {
      var i: nat, j: nat :| i < j && Nth(h, q, i).Some? && Nth(h, q, i) == Nth(h, q, j);
      UnsettledExactly(h, q, {}, j);
    }
  }

  // ----- A program whose chain never settles: `let x = x.f`. -----

  const Diverging := Program(map[0 := FieldOf(1, "f"), 1 := Path(Resolved(0))], map[0 := 0], (c: ExprId) => None, (s: string, t: Transform) => s)

  function Repeated(k: nat): (r: seq<string>)
    ensures |r| == k
  {
    if k == 0 then [] else ["f"] + Repeated(k - 1)
  }

  lemma {:induction false} DivergesFrom(k: nat, visited: set<Query<Env>>, n: nat)
    requires forall q :: q in visited ==> |q.projection| < k || (|q.projection| == k && q.expression.expr == 1)
    ensures Follow(Diverging, Query(Ref(0, Root), Repeated(k)), visited, n).None?
    decreases n
  {
    var q := Query(Ref(0, Root), Repeated(k));
    var p := Query(Ref(1, Root), Repeated(k + 1));
    assert Step(Diverging, q) == Depends(p, None);
    var next := Query(Ref(0, Root), Repeated(k + 1));
    assert [] + p.projection == p.projection;
    assert Step(Diverging, p) == Depends(next, None);
    if n > 1 {
      DivergesFrom(k + 1, visited + {q} + {p}, n - 2);
    }
  }

  /** So evaluation terminates on all programs only under the condition that the chain settles. */
  lemma DivergingNeverSettles()
    ensures !Settles(Diverging, Query(Ref(0, Root), []))
  {
    forall n: nat
      ensures Follow(Diverging, Query(Ref(0, Root), []), {}, n).None?
    {
      DivergesFrom(0, {}, n);
    }
  }

  // ----- Interned environments: an index stands for an environment. -----

  type Frames = seq<Frame<nat>>

  function MapRef<E, F>(r: Ref<E>, f: E -> F): Ref<F>
  {
    Ref(r.expr, f(r.env))
  }

  function MapFrame<E, F>(x: Frame<E>, f: E -> F): Frame<F>
  {
    Frame(map s | s in x.bindings :: MapRef(x.bindings[s], f), x.activeCalls)
  }

  function MapQuery<E, F>(q: Query<E>, f: E -> F): Query<F>
  {
    Query(MapRef(q.expression, f), q.projection)
  }

  function MapExpansion<E, F>(x: Expansion<E>, f: E -> F): Expansion<F>
  {
    match x
    case Value(text) => Value(text)
    case Fail(error) => Fail(error)
    case Depends(dependency, transform) => Depends(MapQuery(dependency, f), transform)
    case EnterFlow(next, body, projection) => EnterFlow(MapFrame(next, f), body, projection)
  }

  lemma {:induction false} FindFieldNatural<E, F>(h: Program, fields: seq<FieldInit>, name: string, expr: ExprId, env: E, frame: Frame<E>, f: E -> F)
    ensures var found := FindField(h, fields, name, expr, env, frame);
            FindField(h, fields, name, expr, f(env), MapFrame(frame, f)) == if found.Some? then Some(MapRef(found.value, f)) else None
  {
    if fields != [] {
      FindFieldNatural(h, fields[1..], name, expr, env, frame, f);
    }
  }

  lemma {:induction false} BindParamsNatural<E, F>(params: seq<SymbolId>, args: seq<ExprId>, env: E, calls: set<ItemId>, f: E -> F)
    requires |params| <= |args|
    ensures Frame(BindParams(params, args, f(env)), calls) == MapFrame(Frame(BindParams(params, args, env), calls), f)
  {
    if params != [] {
      var last := |params| - 1;
      BindParamsNatural(params[..last], args, env, calls, f);
      assert BindParams(params, args, f(env)) == MapFrame(Frame(BindParams(params, args, env), calls), f).bindings;
    }
  }

  /** Expansion looks at environments only through their frames, so it commutes with renaming them. */
  lemma ExpandNatural<E, F>(h: Program, q: Query<E>, frame: Frame<E>, f: E -> F)
    ensures Expand(h, MapQuery(q, f), MapFrame(frame, f)) == MapExpansion(Expand(h, q, frame), f)
  {
    var expr, env := q.expression.expr, q.expression.env;
    if expr in h.exprs {
      var e := h.exprs[expr];
      if e.Record? && q.projection != [] {
        FindFieldNatural(h, e.fields, q.projection[0], expr, env, frame, f);
      } else if e.Call? {
        var x := h.semantics(e.callee);
        if x.Some? && x.value.SourceFlow? && |x.value.params| <= |e.args| {
          BindParamsNatural(x.value.params, e.args, env, frame.activeCalls + {x.value.item}, f);
        }
      }
    }
  }

  /** The environment an index stands for; an index outside its range stands for the root. */
  function Deep(frames: Frames, k: nat): Env
    decreases k
  {
    if k >= |frames| then Root
    else
      var x := frames[k];
      Env(Frame(map s | s in x.bindings :: Ref(x.bindings[s].expr, if x.bindings[s].env < k then Deep(frames, x.bindings[s].env) else Root),
                x.activeCalls))
  }

  function Meaning(frames: Frames): nat -> Env
  {
    (k: nat) => Deep(frames, k)
  }

  predicate Below(x: Frame<nat>, k: nat)
  {
    forall s :: s in x.bindings ==> x.bindings[s].env < k
  }

  /** Frames refer to earlier frames only, and no frame is stored twice. */
  predicate Interned(frames: Frames)
  {
    && |frames| > 0
    && frames[0] == Frame(map[], {})
    && (forall k :: 0 <= k < |frames| ==> Below(frames[k], k))
    && (forall i, j :: 0 <= i < j < |frames| ==> frames[i] != frames[j])
  }

  lemma DeepFrame(frames: Frames, k: nat)
    requires Interned(frames) && k < |frames|
    ensures Deep(frames, k).frame == MapFrame(frames[k], Meaning(frames))
  {
    assert Below(frames[k], k);
    assert Deep(frames, k).frame.bindings == MapFrame(frames[k], Meaning(frames)).bindings;
  }

  /** Distinct indices stand for distinct environments. */
  lemma {:induction false} DeepInjective(frames: Frames, i: nat, j: nat)
    requires Interned(frames) && i < |frames| && j < |frames| && Deep(frames, i) == Deep(frames, j)
    ensures i == j
    decreases i + j
  {
    var a, b := frames[i], frames[j];
    assert Below(a, i) && Below(b, j);
    var x, y := Deep(frames, i).frame, Deep(frames, j).frame;
    assert a.bindings.Keys == x.bindings.Keys && b.bindings.Keys == y.bindings.Keys;
    forall s | s in a.bindings
      ensures a.bindings[s] == b.bindings[s]
    {
      assert s in x.bindings && x.bindings[s] == y.bindings[s];
      DeepInjective(frames, a.bindings[s].env, b.bindings[s].env);
    }
    assert a.bindings == b.bindings;
    assert a == b;
  }

  lemma {:induction false} DeepStable(frames: Frames, x: Frame<nat>, k: nat)
    requires Interned(frames) && k < |frames|
    ensures Deep(frames + [x], k) == Deep(frames, k)
    decreases k
  {
    var y := frames[k];
    assert Below(y, k) && (frames + [x])[k] == y;
    forall s | s in y.bindings
      ensures Deep(frames + [x], y.bindings[s].env) == Deep(frames, y.bindings[s].env)
    {
      DeepStable(frames, x, y.bindings[s].env);
    }
    assert Deep(frames + [x], k).frame.bindings == Deep(frames, k).frame.bindings;
  }

  function DeepQuery(frames: Frames, q: Query<nat>): Query<Env>
  {
    MapQuery(q, Meaning(frames))
  }

  predicate InRange(frames: Frames, q: Query<nat>)
  {
    q.expression.env < |frames|
  }

  lemma DeepQueryInjective(frames: Frames, p: Query<nat>, q: Query<nat>)
    requires Interned(frames) && InRange(frames, p) && InRange(frames, q)
    ensures DeepQuery(frames, p) == DeepQuery(frames, q) <==> p == q
  {
    if DeepQuery(frames, p) == DeepQuery(frames, q) {
      DeepInjective(frames, p.expression.env, q.expression.env);
    }
  }

  /** The frames keep all old ones, so old indices keep their meaning. */
  ghost predicate Grown(before: Frames, after: Frames)
  {
    after == before || exists x :: after == before + [x]
  }

  lemma GrownStable(before: Frames, after: Frames, k: nat)
    requires Interned(before) && Grown(before, after) && k < |before|
    ensures Deep(after, k) == Deep(before, k)
  {
    if after != before {
      var x :| after == before + [x];
      DeepStable(before, x, k);
    }
  }

  /** Everything an expansion refers to stays below the bound. */
  predicate ExpansionBelow(x: Expansion<nat>, k: nat)
  {
    match x
    case Depends(dependency, _) => dependency.expression.env < k
    case EnterFlow(next, _, _) => Below(next, k)
    case _ => true
  }

  lemma {:induction false} FindFieldBelow(h: Program, fields: seq<FieldInit>, name: string, expr: ExprId, env: nat, frame: Frame<nat>, k: nat)
    requires env < k && Below(frame, k)
    ensures var found := FindField(h, fields, name, expr, env, frame);
            found.Some? ==> found.value.env < k
  {
    if fields != [] {
      FindFieldBelow(h, fields[1..], name, expr, env, frame, k);
    }
  }

  lemma {:induction false} BindParamsBelow(params: seq<SymbolId>, args: seq<ExprId>, env: nat)
    requires |params| <= |args|
    ensures forall s :: s in BindParams(params, args, env) ==> BindParams(params, args, env)[s].env == env
  {
    if params != [] {
      BindParamsBelow(params[..|params| - 1], args, env);
    }
  }

  lemma ExpandBelow(h: Program, q: Query<nat>, frame: Frame<nat>, k: nat)
    requires q.expression.env < k && Below(frame, k)
    ensures ExpansionBelow(Expand(h, q, frame), k)
  {
    var expr, env := q.expression.expr, q.expression.env;
    if expr in h.exprs {
      var e := h.exprs[expr];
      if e.Record? && q.projection != [] {
        FindFieldBelow(h, e.fields, q.projection[0], expr, env, frame, k);
      } else if e.Call? {
        var x := h.semantics(e.callee);
        if x.Some? && x.value.SourceFlow? && |x.value.params| <= |e.args| {
          BindParamsBelow(x.value.params, e.args, env);
        }
      }
    }
  }

  // ----- The evaluator. -----

  datatype Completion = Completion(query: Query<nat>, dependency: Query<nat>, transform: Option<Transform>)

  datatype WorkItem = Enter(query: Query<nat>) | Complete(completion: Completion)

  /** The completions waiting below the current query, as they lie on the worklist. */
  function Pending(stack: seq<Completion>): (r: seq<WorkItem>)
    ensures |r| == |stack| && forall i :: 0 <= i < |stack| ==> r[i] == Complete(stack[i])
  {
    seq(|stack|, i requires 0 <= i < |stack| => Complete(stack[i]))
  }

  function Waiting(stack: seq<Completion>): set<Query<nat>>
  {
    if stack == [] then {} else Waiting(Rest(stack)) + {Top(stack).query}
  }

  /** Each completion waits for the query above it; the lowest one is the root's. */
  predicate Linked(stack: seq<Completion>, current: Query<nat>, root: Query<nat>)
  {
    if stack == [] then current == root
    else Top(stack).dependency == current && Linked(Rest(stack), Top(stack).query, root)
  }

  /** What the root gets when the current query gets `r`. */
  function Unwind(h: Program, stack: seq<Completion>, r: Outcome): Outcome
  {
    if stack == [] then r else Unwind(h, Rest(stack), Transformed(h, r, Top(stack).transform))
  }

  function DeepSet(frames: Frames, qs: set<Query<nat>>): set<Query<Env>>
  {
    set q | q in qs :: DeepQuery(frames, q)
  }

  predicate AllInRange(frames: Frames, qs: set<Query<nat>>)
  {
    forall q :: q in qs ==> InRange(frames, q)
  }

  lemma DeepSetStable(before: Frames, after: Frames, qs: set<Query<nat>>)
    requires Interned(before) && Grown(before, after) && AllInRange(before, qs)
    ensures AllInRange(after, qs) && DeepSet(after, qs) == DeepSet(before, qs)
  {
    forall q | q in qs
      ensures InRange(after, q) && DeepQuery(after, q) == DeepQuery(before, q)
    {
      GrownStable(before, after, q.expression.env);
    }
  }

  lemma DeepSetMember(frames: Frames, q: Query<nat>, qs: set<Query<nat>>)
    requires Interned(frames) && InRange(frames, q) && AllInRange(frames, qs)
    ensures DeepQuery(frames, q) in DeepSet(frames, qs) <==> q in qs
  {
    if DeepQuery(frames, q) in DeepSet(frames, qs) {
      var p :| p in qs && DeepQuery(frames, p) == DeepQuery(frames, q);
      DeepQueryInjective(frames, p, q);
    }
  }

  lemma DeepSetPush(frames: Frames, q: Query<nat>, qs: set<Query<nat>>)
    ensures DeepSet(frames, qs + {q}) == DeepSet(frames, qs) + {DeepQuery(frames, q)}
  {
  }

  /** On the way down, what the current query is worth decides what the root is worth. */
  ghost predicate Descending(h: Program, frames: Frames, stack: seq<Completion>, q: Query<nat>, active: set<Query<nat>>, fuel: nat, goal: Outcome)
  {
    && active == Waiting(stack) && InRange(frames, q) && AllInRange(frames, active)
    && var r := Follow(h, DeepQuery(frames, q), DeepSet(frames, active), fuel);
       r.Some? && Unwind(h, stack, r.value) == goal
  }

  lemma DescentMeetsCycle(h: Program, frames: Frames, stack: seq<Completion>, q: Query<nat>, active: set<Query<nat>>, fuel: nat, goal: Outcome)
    requires Interned(frames) && Descending(h, frames, stack, q, active, fuel, goal) && q in active
    ensures Unwind(h, stack, Err(Cycle(q.expression.expr))) == goal
  {
    DeepSetMember(frames, q, active);
  }

  lemma DescentEnds(h: Program, before: Frames, after: Frames, stack: seq<Completion>, q: Query<nat>, active: set<Query<nat>>, fuel: nat, goal: Outcome, x: Expansion<nat>)
    requires Interned(before) && Descending(h, before, stack, q, active, fuel, goal) && q !in active
    requires MapExpansion(x, Meaning(after)) == Step(h, DeepQuery(before, q)) && (x.Value? || x.Fail?)
    ensures Unwind(h, stack, if x.Value? then Ok(x.text) else Err(x.error)) == goal
  {
    DeepSetMember(before, q, active);
  }

  lemma DescentContinues(h: Program, before: Frames, after: Frames, stack: seq<Completion>, q: Query<nat>, active: set<Query<nat>>, fuel: nat, goal: Outcome, x: Expansion<nat>)
    requires Interned(before) && Descending(h, before, stack, q, active, fuel, goal) && q !in active && Grown(before, after)
    requires MapExpansion(x, Meaning(after)) == Step(h, DeepQuery(before, q)) && x.Depends? && ExpansionBelow(x, |after|)
    ensures fuel > 0
    ensures Descending(h, after, stack + [Completion(q, x.dependency, x.transform)], x.dependency, active + {q}, fuel - 1, goal)
  {
    DeepSetMember(before, q, active);
    DeepSetPush(before, q, active);
    DeepSetStable(before, after, active + {q});
    var pushed := stack + [Completion(q, x.dependency, x.transform)];
    assert Rest(pushed) == stack && Top(pushed) == Completion(q, x.dependency, x.transform);
  }

  lemma LinkPush(stack: seq<Completion>, q: Query<nat>, root: Query<nat>, c: Completion)
    requires Linked(stack, q, root) && c.query == q
    ensures Linked(stack + [c], c.dependency, root) && Pending(stack + [c]) == Pending(stack) + [Complete(c)]
  {
    assert Rest(stack + [c]) == stack && Top(stack + [c]) == c;
  }

  function Worklist(stack: seq<Completion>, current: Query<nat>, descending: bool): seq<WorkItem>
  {
    Pending(stack) + if descending then [Enter(current)] else []
  }

  /** The top of the worklist is the current query on the way down and the last completion on the way up. */
  lemma WorklistTop(stack: seq<Completion>, current: Query<nat>, descending: bool)
    requires Worklist(stack, current, descending) != []
    ensures var work := Top(Worklist(stack, current, descending));
            work.Enter? == descending && if descending then work == Enter(current) else stack != [] && work == Complete(Top(stack))
    ensures Rest(Worklist(stack, current, descending)) == if descending then Pending(stack) else Pending(Rest(stack))
  {
  }

  /** The mutable state of the evaluation loop. */
  datatype Machine = Machine(worklist: seq<WorkItem>, active: set<Query<nat>>, results: map<Query<nat>, Outcome>)

  /** Where the machine is on its chain. */
  datatype Position = Position(stack: seq<Completion>, current: Query<nat>, descending: bool, fuel: nat)

  /** The loop invariant: going down nothing is known yet, going up the current query has its answer. */
  ghost predicate OnCourse(h: Program, frames: Frames, p: Position, root: Query<nat>, goal: Outcome, m: Machine)
  {
    && Linked(p.stack, p.current, root)
    && m.worklist == Worklist(p.stack, p.current, p.descending)
    && (p.descending ==> m.results == map[] && Descending(h, frames, p.stack, p.current, m.active, p.fuel, goal))
    && (!p.descending ==> p.current in m.results && Unwind(h, p.stack, m.results[p.current]) == goal)
  }

  lemma StartsOnCourse(h: Program, frames: Frames, expr: ExprId, projection: seq<string>, start: nat)
    requires Interned(frames) && Follow(h, Query(Ref(expr, Root), projection), {}, start).Some?
    ensures var root := Query(Ref(expr, 0), projection);
            OnCourse(h, frames, Position([], root, true, start), root, Follow(h, Query(Ref(expr, Root), projection), {}, start).value,
                     Machine([Enter(root)], {}, map[]))
  {
    var root := Query(Ref(expr, 0), projection);
    assert Deep(frames, 0).frame.bindings == map[];
    assert DeepQuery(frames, root) == Query(Ref(expr, Root), projection);
    assert DeepSet(frames, {}) == {};
  }

  lemma ContinuesOnCourse(h: Program, before: Frames, after: Frames, p: Position, root: Query<nat>, goal: Outcome, m: Machine, x: Expansion<nat>)
    requires Interned(before) && Grown(before, after) && p.descending
    requires OnCourse(h, before, p, root, goal, m.(worklist := m.worklist + [Enter(p.current)])) && m.worklist == Pending(p.stack)
    requires p.current !in m.active
    requires MapExpansion(x, Meaning(after)) == Step(h, DeepQuery(before, p.current)) && x.Depends? && ExpansionBelow(x, |after|)
    ensures p.fuel > 0
    ensures var completion := Completion(p.current, x.dependency, x.transform);
            OnCourse(h, after, Position(p.stack + [completion], x.dependency, true, p.fuel - 1), root, goal,
                     Machine(m.worklist + [Complete(completion), Enter(x.dependency)], m.active + {p.current}, m.results))
  {
    DescentContinues(h, before, after, p.stack, p.current, m.active, p.fuel, goal, x);
    var completion := Completion(p.current, x.dependency, x.transform);
    DownOnCourse(h, after, p, completion, m.active + {p.current}, root, goal);
  }

  lemma DownOnCourse(h: Program, frames: Frames, p: Position, c: Completion, active: set<Query<nat>>, root: Query<nat>, goal: Outcome)
    requires Linked(p.stack, p.current, root) && c.query == p.current && p.fuel > 0
    requires Descending(h, frames, p.stack + [c], c.dependency, active, p.fuel - 1, goal)
    ensures OnCourse(h, frames, Position(p.stack + [c], c.dependency, true, p.fuel - 1), root, goal,
                     Machine(Pending(p.stack) + [Complete(c), Enter(c.dependency)], active, map[]))
  {
    LinkPush(p.stack, p.current, root, c);
    WorklistPush(p.stack, c);
  }

  lemma WorklistPush(stack: seq<Completion>, c: Completion)
    ensures Pending(stack) + [Complete(c), Enter(c.dependency)] == Worklist(stack + [c], c.dependency, true)
  {
    assert Pending(stack + [c]) == Pending(stack) + [Complete(c)];
  }

  lemma AnsweredOnCourse(h: Program, frames: Frames, p: Position, root: Query<nat>, goal: Outcome, m: Machine, answer: Outcome)
    requires Linked(p.stack, p.current, root) && m.worklist == Pending(p.stack) && Unwind(h, p.stack, answer) == goal
    ensures OnCourse(h, frames, p.(descending := false), root, goal, m.(results := m.results[p.current := answer]))
  {
    assert Worklist(p.stack, p.current, false) == m.worklist;
  }

  class StaticStringEvaluator {
    const h: Program
    var environments: Frames

    constructor (h: Program)
      ensures this.h == h && Interned(environments) && environments == [Frame(map[], {})]
    {
      this.h := h;
      environments := [Frame(map[], {})];
    }

    method InternEnvironment(x: Frame<nat>) returns (k: nat)
      requires Interned(environments) && Below(x, |environments|)
      modifies this`environments
      ensures Interned(environments) && Grown(old(environments), environments)
      ensures k < |environments| && environments[k] == x
    {
      for i := 0 to |environments|
        invariant environments == old(environments) && forall j :: 0 <= j < i ==> environments[j] != x
      {
        if environments[i] == x {
          return i;
        }
      }
      environments := environments + [x];
      return |environments| - 1;
    }

    method BindParamsByLoop(params: seq<SymbolId>, args: seq<ExprId>, expr: ExprId, env: nat)
      returns (r: Result<map<SymbolId, Ref<nat>>, EvaluationError>)
      ensures r == if |params| <= |args| then Ok(BindParams(params, args, env)) else Err(MissingCallArgument(expr, |args|))
    {
      var bindings: map<SymbolId, Ref<nat>> := map[];
      for i := 0 to |params|
        invariant i <= |args| && bindings == BindParams(params[..i], args, env)
      {
        if i >= |args| {
          return Err(MissingCallArgument(expr, i));
        }
        assert params[..i + 1][..i] == params[..i];
        bindings := bindings[params[i] := Ref(args[i], env)];
      }
      assert params[..|params|] == params;
      return Ok(bindings);
    }

    /** One step of the machine is one step of the plain semantics. */
    method ExpandQuery(q: Query<nat>) returns (x: Expansion<nat>)
      requires Interned(environments) && InRange(environments, q)
      modifies this`environments
      ensures Interned(environments) && Grown(old(environments), environments)
      ensures !x.EnterFlow? && ExpansionBelow(x, |environments|)
      ensures MapExpansion(x, Meaning(environments)) == Step(h, DeepQuery(old(environments), q))
    {
      var expr, env := q.expression.expr, q.expression.env;
      var frame := environments[env];
      ExpandNatural(h, q, frame, Meaning(environments));
      DeepFrame(environments, env);
      assert Below(frame, env);
      ExpandBelow(h, q, frame, |environments|);
      if expr in h.exprs && h.exprs[expr].Call? {
        var call := h.exprs[expr];
        var semantics := h.semantics(call.callee);
        if semantics.Some? && semantics.value.SourceFlow? && semantics.value.item !in frame.activeCalls {
          x := EnterSourceFlow(q, call.args, semantics.value);
          return;
        }
      }
      x := Expand(h, q, frame);
    }

    /** A call of a source flow: its parameters are bound and its body is asked in the new environment. */
    method EnterSourceFlow(q: Query<nat>, args: seq<ExprId>, flow: CallSemantics) returns (x: Expansion<nat>)
      requires Interned(environments) && InRange(environments, q) && flow.SourceFlow?
      requires q.expression.expr in h.exprs && h.exprs[q.expression.expr].Call? && h.exprs[q.expression.expr].args == args
      requires h.semantics(h.exprs[q.expression.expr].callee) == Some(flow)
      requires flow.item !in environments[q.expression.env].activeCalls
      modifies this`environments
      ensures Interned(environments) && Grown(old(environments), environments)
      ensures !x.EnterFlow? && ExpansionBelow(x, |environments|)
      ensures MapExpansion(x, Meaning(environments)) == Step(h, DeepQuery(old(environments), q))
    {
      var expr, env := q.expression.expr, q.expression.env;
      var frame := environments[env];
      ghost var before := environments;
      ghost var plain := Expand(h, q, frame);
      ExpandNatural(h, q, frame, Meaning(before));
      DeepFrame(before, env);
      assert Below(frame, env);
      ExpandBelow(h, q, frame, |before|);
      var bound := BindParamsByLoop(flow.params, args, expr, env);
      if bound.Err? {
        return Fail(bound.error);
      }
      var next := Frame(bound.value, frame.activeCalls + {flow.item});
      assert plain == EnterFlow(next, flow.returnExpr, q.projection);
      var k := InternEnvironment(next);
      EnteredFlow(before, environments, next, k);
      return Depends(Query(Ref(flow.returnExpr, k), q.projection), None);
    }

    /** Entering a query: a memo hit, a cycle, a final answer or one more dependency. */
    method EnterQuery(m: Machine, query: Query<nat>, ghost p: Position, ghost root: Query<nat>, ghost goal: Outcome)
      returns (n: Machine, ghost next: Position)
      requires Interned(environments) && OnCourse(h, environments, p, root, goal, m.(worklist := m.worklist + [Enter(query)]))
      requires p.descending && query == p.current && m.worklist == Pending(p.stack)
      modifies this`environments
      ensures Interned(environments) && OnCourse(h, environments, next, root, goal, n)
      ensures next.descending ==> next.fuel < p.fuel
    {
      n, next := m, p.(descending := false);
      if query !in m.results {
        ghost var before := environments;
        if query in m.active {
          DescentMeetsCycle(h, environments, p.stack, query, m.active, p.fuel, goal);
          n := m.(results := m.results[query := Err(Cycle(query.expression.expr))]);
          AnsweredOnCourse(h, environments, p, root, goal, m, Err(Cycle(query.expression.expr)));
        } else {
          var x := ExpandQuery(query);
          if x.Depends? {
            ContinuesOnCourse(h, before, environments, p, root, goal, m, x);
            n := Machine(m.worklist + [Complete(Completion(query, x.dependency, x.transform)), Enter(x.dependency)], m.active + {query}, m.results);
            next := Position(p.stack + [Completion(query, x.dependency, x.transform)], x.dependency, true, p.fuel - 1);
          } else {
            DescentEnds(h, before, environments, p.stack, query, m.active, p.fuel, goal, x);
            var answer := if x.Value? then Ok(x.text) else Err(x.error);
            n := m.(results := m.results[query := answer]);
            AnsweredOnCourse(h, environments, p, root, goal, m, answer);
          }
        }
      }
    }

    /** Completing a query: it gets its dependency's answer, transformed. */
    method CompleteQuery(m: Machine, completion: Completion, ghost p: Position, ghost root: Query<nat>, ghost goal: Outcome)
      returns (n: Machine, ghost next: Position)
      requires OnCourse(h, environments, p, root, goal, m.(worklist := m.worklist + [Complete(completion)]))
      requires !p.descending && p.stack != [] && completion == Top(p.stack) && m.worklist == Pending(Rest(p.stack))
      ensures OnCourse(h, environments, next, root, goal, n) && !next.descending && n.worklist == m.worklist
    {
      var result := if completion.dependency in m.results then m.results[completion.dependency]
                    else Err(MissingExpression(completion.dependency.expression.expr));
      if completion.transform.Some? && result.Ok? {
        result := Ok(h.apply(result.value, completion.transform.value));
      }
      n := Machine(m.worklist, m.active - {completion.query}, m.results[completion.query := result]);
      next := Position(Rest(p.stack), completion.query, false, p.fuel);
    }

    /**
     * The machine returns exactly what following the chain gives, and stops whenever that chain
     * settles; every environment index it holds stays in range.
     */
    method EvaluateString(expr: ExprId, projection: seq<string>) returns (r: Outcome)
      requires Interned(environments) && Settles(h, Query(Ref(expr, Root), projection))
      modifies this
      ensures Interned(environments)
      ensures forall fuel: nat :: Follow(h, Query(Ref(expr, Root), projection), {}, fuel).Some? ==>
                Follow(h, Query(Ref(expr, Root), projection), {}, fuel) == Some(r)
    {
      var root := Query(Ref(expr, 0), projection);
      var m := Machine([Enter(root)], {}, map[]);
      ghost var plain := Query(Ref(expr, Root), projection);
      ghost var start: nat :| Follow(h, plain, {}, start).Some?;
      ghost var goal := Follow(h, plain, {}, start).value;
      ghost var p := Position([], root, true, start);
      StartsOnCourse(h, environments, expr, projection, start);
      while m.worklist != []
        invariant Interned(environments) && OnCourse(h, environments, p, root, goal, m)
        decreases if p.descending then p.fuel + 1 else 0, |m.worklist|
      {
        WorklistTop(p.stack, p.current, p.descending);
        var work := Top(m.worklist);
        m := m.(worklist := Rest(m.worklist));
        if work.Enter? {
          m, p := EnterQuery(m, work.query, p, root, goal);
        } else {
          m, p := CompleteQuery(m, work.completion, p, root, goal);
        }
      }
      assert |m.worklist| == |p.stack| + if p.descending then 1 else 0;
      r := if root in m.results then m.results[root] else Err(MissingExpression(root.expression.expr));
      forall fuel: nat | Follow(h, plain, {}, fuel).Some?
        ensures Follow(h, plain, {}, fuel) == Some(r)
      {
        if fuel <= start {
          MoreFuel(h, plain, {}, fuel, start);
        } else {
          MoreFuel(h, plain, {}, start, fuel);
        }
      }
    }
  }

  /** The interned frame stands for the environment the plain semantics enters. */
  lemma EnteredFlow(before: Frames, after: Frames, next: Frame<nat>, k: nat)
    requires Interned(before) && Interned(after) && Grown(before, after) && Below(next, |before|)
    requires k < |after| && after[k] == next
    ensures Deep(after, k) == Env(MapFrame(next, Meaning(before)))
  {
    DeepFrame(after, k);
    forall s | s in next.bindings
      ensures MapRef(next.bindings[s], Meaning(after)) == MapRef(next.bindings[s], Meaning(before))
    {
      GrownStable(before, after, next.bindings[s].env);
    }
    assert MapFrame(next, Meaning(after)) == MapFrame(next, Meaning(before));
  }
}
