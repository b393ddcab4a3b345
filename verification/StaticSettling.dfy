/** Programs on which static string evaluation always ends (crates/etas_hir_analysis/src/static_string.rs). */
module StaticSettling {
  import opened Prelude
  import opened StaticString

  // ----- Environments a program can build. -----

  /** A call that enters a source flow with an argument for every parameter. */
  predicate Flow(h: Program, e: ExprId)
  {
    && e in h.exprs && h.exprs[e].Call?
    && h.semantics(h.exprs[e].callee).Some? && h.semantics(h.exprs[e].callee).value.SourceFlow?
    && |h.semantics(h.exprs[e].callee).value.params| <= |h.exprs[e].args|
  }

  function FlowOf(h: Program, e: ExprId): CallSemantics
    requires Flow(h, e)
  {
    h.semantics(h.exprs[e].callee).value
  }

  function ItemOf(h: Program, e: ExprId): ItemId
    requires Flow(h, e)
  {
    FlowOf(h, e).item
  }

  function Entered(h: Program, e: ExprId, caller: Env): Env
    requires Flow(h, e)
  {
    Env(Frame(BindParams(FlowOf(h, e).params, h.exprs[e].args, caller), caller.frame.activeCalls + {ItemOf(h, e)}))
  }

  function Items(h: Program): set<ItemId>
  {
    set e | e in h.exprs && Flow(h, e) :: ItemOf(h, e)
  }

  /** The environment of `depth` calls nested in each other, no flow entered twice. */
  ghost predicate Nested(h: Program, env: Env, depth: nat)
    decreases depth
  {
    if depth == 0 then env == Root
    else exists e, caller :: Flow(h, e) && Nested(h, caller, depth - 1) && ItemOf(h, e) !in caller.frame.activeCalls && env == Entered(h, e, caller)
  }

  /** The environments of at most `depth` nested calls are finitely many. */
  function Envs(h: Program, depth: nat): set<Env>
  {
    if depth == 0 then {Root}
    else Envs(h, depth - 1) + set e, caller | e in h.exprs && Flow(h, e) && caller in Envs(h, depth - 1) :: Entered(h, e, caller)
  }

  lemma {:induction false} EnteredListed(h: Program, e: ExprId, caller: Env, depth: nat)
    requires depth > 0 && e in h.exprs && Flow(h, e) && caller in Envs(h, depth - 1)
    ensures Entered(h, e, caller) in Envs(h, depth)
  {
  }

  /** The call by which an environment was entered, and its caller's environment. */
  lemma EnteredBy(h: Program, env: Env, depth: nat) returns (e: ExprId, caller: Env)
    requires depth > 0 && Nested(h, env, depth)
    ensures Flow(h, e) && Nested(h, caller, depth - 1) && ItemOf(h, e) !in caller.frame.activeCalls && env == Entered(h, e, caller)
  {
    e, caller :| Flow(h, e) && Nested(h, caller, depth - 1) && ItemOf(h, e) !in caller.frame.activeCalls && env == Entered(h, e, caller);
  }

  lemma {:induction false} NestedListed(h: Program, env: Env, depth: nat)
    requires Nested(h, env, depth)
    ensures env in Envs(h, depth)
    decreases depth
  {
    if depth > 0 {
      var e, caller := EnteredBy(h, env, depth);
      NestedListed(h, caller, depth - 1);
      EnteredListed(h, e, caller, depth);
    }
  }

  lemma EnteredCalls(h: Program, e: ExprId, caller: Env)
    requires Flow(h, e) && caller.frame.activeCalls <= Items(h) && ItemOf(h, e) !in caller.frame.activeCalls
    ensures var calls := Entered(h, e, caller).frame.activeCalls; |calls| == |caller.frame.activeCalls| + 1 && calls <= Items(h)
  {
    assert e in h.exprs && ItemOf(h, e) in Items(h);
  }

  lemma {:induction false} NestedCalls(h: Program, env: Env, depth: nat)
    requires Nested(h, env, depth)
    ensures |env.frame.activeCalls| == depth && env.frame.activeCalls <= Items(h)
    decreases depth
  {
    if depth > 0 {
      var e, caller := EnteredBy(h, env, depth);
      NestedCalls(h, caller, depth - 1);
      EnteredCalls(h, e, caller);
    }
  }

  lemma {:induction false} EnvsGrow(h: Program, a: nat, b: nat)
    requires a <= b
    ensures Envs(h, a) <= Envs(h, b)
    decreases b
  {
    if a < b {
      EnvsGrow(h, a, b - 1);
    }
  }

  lemma SubsetSize<T>(a: set<T>, b: set<T>)
    requires a <= b
    ensures |a| <= |b|
  {
    assert b == a + (b - a);
  }

  /** Calls cannot nest deeper than there are flows, so every environment is among finitely many. */
  lemma NestedBounded(h: Program, env: Env, depth: nat)
    requires Nested(h, env, depth)
    ensures env in Envs(h, |Items(h)|)
  {
    NestedListed(h, env, depth);
    NestedCalls(h, env, depth);
    SubsetSize(env.frame.activeCalls, Items(h));
    EnvsGrow(h, depth, |Items(h)|);
  }

  // ----- What an expression can depend on, read off the program. -----

  /** Some call binds the parameter to the argument. */
  ghost predicate Binds(h: Program, s: SymbolId, target: ExprId)
  {
    exists e, i :: Flow(h, e) && 0 <= i < |FlowOf(h, e).params| && FlowOf(h, e).params[i] == s && h.exprs[e].args[i] == target
  }

  ghost predicate Leads(h: Program, s: SymbolId, target: ExprId)
  {
    (s in h.initializers && h.initializers[s] == target) || Binds(h, s, target)
  }

  ghost predicate FieldLeads(h: Program, f: FieldInit, target: ExprId)
  {
    match f
    case Named(_, value) => value == target
    case Shorthand(_, Resolved(s)) => Leads(h, s, target)
    case _ => false
  }

  ghost predicate Edge(h: Program, e: ExprId, target: ExprId)
  {
    e in h.exprs &&
    match h.exprs[e]
    case Record(fields) => exists f :: f in fields && FieldLeads(h, f, target)
    case FieldOf(base, _) => base == target
    case Path(Resolved(s)) => Leads(h, s, target)
    case Path(PartiallyResolved(Some(s), _)) => Leads(h, s, target)
    case Call(callee, args) =>
      (match h.semantics(callee)
       case Some(StringTransform(argument, _)) => argument < |args| && args[argument] == target
       case Some(SourceFlow(_, _, returnExpr)) => returnExpr == target
       case None => false)
    case _ => false
  }

  /** The names an expression puts before the projection. */
  function Prefixed(x: Expr): seq<string>
  {
    match x
    case FieldOf(_, field) => [field]
    case Path(PartiallyResolved(Some(_), remaining)) => remaining
    case _ => []
  }

  /** The names an expression takes from the projection. */
  function Taken(x: Expr): nat
  {
    if x.Record? then 1 else 0
  }

  /** A rank that pays for every name put before a projection and gets back every name a record takes. */
  ghost predicate Ranked(h: Program, rank: ExprId -> nat)
  {
    forall e, target :: Edge(h, e, target) ==> rank(target) + |Prefixed(h.exprs[e])| <= rank(e) + Taken(h.exprs[e])
  }

  // ----- Every step of a chain follows a static dependency. -----

  lemma {:induction false} BoundArgument(params: seq<SymbolId>, args: seq<ExprId>, env: Env, s: SymbolId) returns (i: nat)
    requires |params| <= |args| && s in BindParams(params, args, env)
    ensures i < |params| && params[i] == s && BindParams(params, args, env)[s] == Ref(args[i], env)
  {
    var last := |params| - 1;
    if params[last] == s {
      i := last;
    } else {
      i := BoundArgument(params[..last], args, env, s);
    }
  }

  /** A bound name leads to an argument in an environment of fewer calls. */
  lemma BindingLeads(h: Program, env: Env, depth: nat, s: SymbolId)
    requires Nested(h, env, depth) && s in env.frame.bindings
    ensures Leads(h, s, env.frame.bindings[s].expr) && depth > 0 && Nested(h, env.frame.bindings[s].env, depth - 1)
  {
    var e, caller :| Flow(h, e) && Nested(h, caller, depth - 1) && ItemOf(h, e) !in caller.frame.activeCalls && env == Entered(h, e, caller);
    var i := BoundArgument(FlowOf(h, e).params, h.exprs[e].args, caller, s);
    assert Binds(h, s, h.exprs[e].args[i]);
  }

  ghost predicate Located(h: Program, r: Ref<Env>)
  {
    exists depth: nat :: Nested(h, r.env, depth)
  }

  lemma SymbolLeads(h: Program, expr: ExprId, s: SymbolId, env: Env)
    requires Located(h, Ref(expr, env))
    ensures var found := SymbolRef(h, expr, s, env, env.frame);
            found.Ok? ==> Leads(h, s, found.value.expr) && Located(h, found.value)
  {
    var depth: nat :| Nested(h, env, depth);
    if s in env.frame.bindings {
      BindingLeads(h, env, depth, s);
    }
  }

  lemma {:induction false} FieldsLead(h: Program, fields: seq<FieldInit>, name: string, expr: ExprId, env: Env)
    requires Located(h, Ref(expr, env))
    ensures var found := FindField(h, fields, name, expr, env, env.frame);
            found.Some? ==> Located(h, found.value) && exists f :: f in fields && FieldLeads(h, f, found.value.expr)
  {
    if fields != [] {
      var f := fields[0];
      assert f in fields;
      if f.Shorthand? && f.resolution.Resolved? {
        SymbolLeads(h, expr, f.resolution.symbol, env);
      }
      FieldsLead(h, fields[1..], name, expr, env);
      assert forall g :: g in fields[1..] ==> g in fields;
    }
  }

  /** The dependency is a static one, and its projection is as long as the names put and taken make it. */
  ghost predicate Follows(h: Program, q: Query<Env>, d: Query<Env>)
  {
    && Edge(h, q.expression.expr, d.expression.expr) && Located(h, d.expression)
    && |d.projection| + Taken(h.exprs[q.expression.expr]) == |Prefixed(h.exprs[q.expression.expr])| + |q.projection|
  }

  lemma StepFollows(h: Program, q: Query<Env>)
    requires Located(h, q.expression) && Step(h, q).Depends?
    ensures Follows(h, q, Step(h, q).dependency)
  {
    var expr, env := q.expression.expr, q.expression.env;
    match h.exprs[expr]
    case Record(fields) => FieldsLead(h, fields, q.projection[0], expr, env);
    case Path(Resolved(s)) => SymbolLeads(h, expr, s, env);
    case Path(PartiallyResolved(Some(s), _)) => SymbolLeads(h, expr, s, env);
    case Call(_, _) => CallFollows(h, q);
    case _ =>
  }

  lemma CallFollows(h: Program, q: Query<Env>)
    requires Located(h, q.expression) && Step(h, q).Depends? && h.exprs[q.expression.expr].Call?
    ensures Follows(h, q, Step(h, q).dependency)
  {
    var expr, env := q.expression.expr, q.expression.env;
    var depth: nat :| Nested(h, env, depth);
    var semantics := h.semantics(h.exprs[expr].callee).value;
    if semantics.SourceFlow? {
      assert Flow(h, expr);
      assert Nested(h, Entered(h, expr, env), depth + 1);
    }
  }

  // ----- Infinite sequences over finite sets. -----

  /** From the index on, no length is below the one there. */
  ghost predicate IsFloor(len: nat -> nat, t: nat)
  {
    forall u: nat :: u >= t ==> len(u) >= len(t)
  }

  lemma {:induction false} Floor(len: nat -> nat, from: nat) returns (t: nat)
    ensures t >= from && IsFloor(len, t)
    decreases len(from)
  {
    if u: nat :| u >= from && len(u) < len(from) {
      t := Floor(len, u);
    } else {
      t := from;
    }
  }

  /** Among finitely many references one stands at two floors. */
  lemma {:induction false} FloorsMeet<R>(ref: nat -> R, len: nat -> nat, refs: set<R>, from: nat, seen: map<R, nat>) returns (i: nat, j: nat)
    requires forall n :: ref(n) in refs
    requires forall r :: r in seen ==> r in refs && seen[r] < from && ref(seen[r]) == r && IsFloor(len, seen[r])
    ensures i < j && ref(i) == ref(j) && IsFloor(len, i) && (i >= from || i in seen.Values)
    decreases |refs| - |seen.Keys|
  {
    var t := Floor(len, from);
    if ref(t) in seen {
      i, j := seen[ref(t)], t;
    } else {
      assert seen.Keys + {ref(t)} <= refs;
      SubsetSize(seen.Keys + {ref(t)}, refs);
      var more := seen[ref(t) := t];
      assert more.Keys == seen.Keys + {ref(t)};
      i, j := FloorsMeet(ref, len, refs, t + 1, more);
    }
  }

  /** A sequence without repetition leaves every finite set for good. */
  lemma {:induction false} LeavesFor<Q>(f: nat -> Q, s: set<Q>) returns (from: nat)
    requires forall i, j :: i < j ==> f(i) != f(j)
    ensures forall t :: t >= from ==> f(t) !in s
    decreases |s|
  {
    if t: nat :| f(t) in s {
      var rest := LeavesFor(f, s - {f(t)});
      from := if rest > t then rest else t + 1;
    } else {
      from := 0;
    }
  }

  // ----- When a chain goes on for ever. -----

  /** The step passes no transform and leaves a projection at least that long. */
  ghost predicate StepKeeps(h: Program, q: Query<Env>, length: nat)
  {
    Step(h, q).Depends? && Step(h, q).transform.None? && |Step(h, q).dependency.projection| >= length
  }

  /** The first steps of the chain leave the projection it starts with untouched. */
  ghost predicate Keeps(h: Program, q: Query<Env>, n: nat, length: nat)
  {
    forall k: nat :: k < n ==> Nth(h, q, k).Some? && StepKeeps(h, Nth(h, q, k).value, length)
  }

  /** After that many steps the same expression is met again in the same environment, under a longer projection. */
  ghost predicate Loops(h: Program, q: Query<Env>, n: nat)
  {
    && Keeps(h, q, n, |q.projection|) && Nth(h, q, n).Some?
    && Nth(h, q, n).value.expression == q.expression && |Nth(h, q, n).value.projection| > |q.projection|
  }

  /** Some query of the chain comes back longer, with its projection untouched and no transform on the way. */
  ghost predicate Pumps(h: Program, q: Query<Env>)
  {
    exists i: nat, n: nat :: Nth(h, q, i).Some? && Loops(h, Nth(h, q, i).value, n)
  }

  lemma {:induction false} NthAdd(h: Program, q: Query<Env>, n: nat, m: nat)
    ensures Nth(h, q, n + m) == if Nth(h, q, n).Some? then Nth(h, Nth(h, q, n).value, m) else None
    decreases n
  {
    if n > 0 {
      if Step(h, q).Depends? {
        NthAdd(h, Step(h, q).dependency, n - 1, m);
      }
    } else {
      assert Nth(h, q, 0) == Some(q);
    }
  }

  /** A step that leaves the tail of the projection untouched is the same step before every other tail. */
  lemma StepLifts(h: Program, r: Ref<Env>, s: seq<string>, p: seq<string>, other: seq<string>) returns (next: Ref<Env>, t: seq<string>)
    requires StepKeeps(h, Query(r, s + p), |p|)
    ensures Step(h, Query(r, s + p)).dependency == Query(next, t + p)
    ensures Step(h, Query(r, s + other)) == Depends(Query(next, t + other), None)
  {
    next := Step(h, Query(r, s + p)).dependency.expression;
    var x := h.exprs[r.expr];
    if x.Record? {
      t := s[1..];
      RecordLifts(h, r, s, p, other);
    } else if x.Call? {
      t := s;
      CallLifts(h, r, s, p, other);
    } else {
      t := Prefixed(x) + s;
      PrefixLifts(h, r, s, p, other);
    }
  }

  lemma RecordLifts(h: Program, r: Ref<Env>, s: seq<string>, p: seq<string>, other: seq<string>)
    requires StepKeeps(h, Query(r, s + p), |p|) && h.exprs[r.expr].Record?
    ensures s != [] && Step(h, Query(r, s + p)).dependency.projection == s[1..] + p
    ensures Step(h, Query(r, s + other)) == Depends(Query(Step(h, Query(r, s + p)).dependency.expression, s[1..] + other), None)
  {
    assert s != [];
    assert (s + p)[1..] == s[1..] + p;
    assert (s + p)[0] == s[0] && (s + other)[0] == s[0] && (s + other)[1..] == s[1..] + other;
  }

  lemma CallLifts(h: Program, r: Ref<Env>, s: seq<string>, p: seq<string>, other: seq<string>)
    requires StepKeeps(h, Query(r, s + p), |p|) && h.exprs[r.expr].Call?
    ensures Step(h, Query(r, s + p)).dependency.projection == s + p
    ensures Step(h, Query(r, s + other)) == Depends(Query(Step(h, Query(r, s + p)).dependency.expression, s + other), None)
  {
  }

  lemma PrefixLifts(h: Program, r: Ref<Env>, s: seq<string>, p: seq<string>, other: seq<string>)
    requires StepKeeps(h, Query(r, s + p), |p|) && !h.exprs[r.expr].Record? && !h.exprs[r.expr].Call?
    ensures var t := Prefixed(h.exprs[r.expr]) + s;
            && Step(h, Query(r, s + p)).dependency.projection == t + p
            && Step(h, Query(r, s + other)) == Depends(Query(Step(h, Query(r, s + p)).dependency.expression, t + other), None)
  {
    var front := Prefixed(h.exprs[r.expr]);
    assert front + (s + p) == front + s + p && front + (s + other) == front + s + other;
    assert [] + (s + p) == s + p && [] + (s + other) == s + other;
  }

  lemma {:induction false} ChainLifts(h: Program, r: Ref<Env>, s: seq<string>, p: seq<string>, other: seq<string>, n: nat)
      returns (last: Ref<Env>, t: seq<string>)
    requires Keeps(h, Query(r, s + p), n, |p|)
    ensures Nth(h, Query(r, s + p), n) == Some(Query(last, t + p))
    ensures Nth(h, Query(r, s + other), n) == Some(Query(last, t + other))
    decreases n
  {
    var q := Query(r, s + p);
    if n == 0 {
      last, t := r, s;
    } else {
      assert Nth(h, q, 0) == Some(q);
      var next, u := StepLifts(h, r, s, p, other);
      KeepsOn(h, q, n, |p|);
      last, t := ChainLifts(h, next, u, p, other, n - 1);
    }
  }

  lemma KeepsOn(h: Program, q: Query<Env>, n: nat, length: nat)
    requires n > 0 && Keeps(h, q, n, length) && Step(h, q).Depends?
    ensures Keeps(h, Step(h, q).dependency, n - 1, length)
  {
    forall k: nat | k < n - 1
      ensures Nth(h, Step(h, q).dependency, k).Some? && StepKeeps(h, Nth(h, Step(h, q).dependency, k).value, length)
    {
      assert Nth(h, q, k + 1) == Nth(h, Step(h, q).dependency, k);
    }
  }

  /** One round of a loop, before whatever earlier rounds have left. */
  lemma LoopRound(h: Program, q: Query<Env>, n: nat, before: seq<string>) returns (grown: seq<string>)
    requires Loops(h, q, n)
    ensures Nth(h, Query(q.expression, before + q.projection), n) == Some(Query(q.expression, grown + q.projection)) && |grown| > |before|
  {
    var tail := before + q.projection;
    assert [] + q.projection == q.projection && [] + tail == tail;
    var last, t := ChainLifts(h, q.expression, [], q.projection, tail, n);
    grown := t + before;
    assert t + tail == grown + q.projection;
  }

  /** A loop goes round for ever, and every round leaves something before the projection. */
  lemma {:induction false} LoopsOn(h: Program, q: Query<Env>, n: nat, rounds: nat) returns (grown: seq<string>)
    requires Loops(h, q, n)
    ensures Nth(h, q, rounds * n) == Some(Query(q.expression, grown + q.projection)) && |grown| >= rounds
    decreases rounds
  {
    if rounds == 0 {
      grown := [];
      assert [] + q.projection == q.projection;
    } else {
      var before := LoopsOn(h, q, n, rounds - 1);
      grown := LoopRound(h, q, n, before);
      NthAdd(h, q, (rounds - 1) * n, n);
      assert (rounds - 1) * n + n == rounds * n;
    }
  }

  /** Under an untouched projection, what comes back at the same length comes back the same. */
  lemma LongerReturn(h: Program, q: Query<Env>, n: nat)
    requires Keeps(h, q, n, |q.projection|) && Nth(h, q, n).Some? && Nth(h, q, n).value.expression == q.expression
    ensures Nth(h, q, n).value == q || |Nth(h, q, n).value.projection| > |q.projection|
  {
    assert [] + q.projection == q.projection;
    var last, t := ChainLifts(h, q.expression, [], q.projection, q.projection, n);
    if t == [] {
      assert t + q.projection == q.projection;
    }
  }

  /** The longest projection among the first queries of the chain. */
  function Longest(h: Program, q: Query<Env>, n: nat): (r: nat)
    ensures forall k: nat :: k < n && Nth(h, q, k).Some? ==> |Nth(h, q, k).value.projection| <= r
  {
    if n == 0 then 0
    else
      var rest, last := Longest(h, q, n - 1), Nth(h, q, n - 1);
      if last.Some? && |last.value.projection| > rest then |last.value.projection| else rest
  }

  /** A chain that repeats stays among the queries before its first repetition. */
  lemma {:induction false} RepeatedWithin(h: Program, q: Query<Env>, i: nat, j: nat, m: nat) returns (k: nat)
    requires i < j && Nth(h, q, i).Some? && Nth(h, q, i) == Nth(h, q, j) && Nth(h, q, m).Some?
    ensures k < j && Nth(h, q, k) == Nth(h, q, m)
    decreases m
  {
    if m < j {
      k := m;
    } else {
      NthAdd(h, q, j, m - j);
      NthAdd(h, q, i, m - j);
      k := RepeatedWithin(h, q, i, j, i + (m - j));
    }
  }

  lemma LoopNeverEnds(h: Program, q: Query<Env>, i: nat, n: nat, m: nat)
    requires Nth(h, q, i).Some? && Loops(h, Nth(h, q, i).value, n)
    ensures Nth(h, q, m).Some?
  {
    LoopMoves(h, Nth(h, q, i).value, n);
    var later := LoopReaches(h, q, i, n, m);
    if Nth(h, q, m).None? {
      NoneStays(h, q, m, later);
    }
  }

  lemma LoopReaches(h: Program, q: Query<Env>, i: nat, n: nat, m: nat) returns (later: nat)
    requires Nth(h, q, i).Some? && Loops(h, Nth(h, q, i).value, n) && n > 0
    ensures later >= m && Nth(h, q, later).Some?
  {
    var grown := LoopsOn(h, Nth(h, q, i).value, n, m);
    NthAdd(h, q, i, m * n);
    later := i + m * n;
    AtLeast(m, n);
  }

  lemma AtLeast(m: nat, n: nat)
    requires n > 0
    ensures m * n >= m
  {
  }

  lemma LoopMoves(h: Program, q: Query<Env>, n: nat)
    requires Loops(h, q, n)
    ensures n > 0
  {
    assert Nth(h, q, 0) == Some(q);
  }

  lemma LoopGrows(h: Program, q: Query<Env>, i: nat, n: nat, most: nat) returns (m: nat)
    requires Nth(h, q, i).Some? && Loops(h, Nth(h, q, i).value, n)
    ensures Nth(h, q, m).Some? && |Nth(h, q, m).value.projection| > most
  {
    var grown := LoopsOn(h, Nth(h, q, i).value, n, most + 1);
    m := i + (most + 1) * n;
    NthAdd(h, q, i, (most + 1) * n);
  }

  lemma RepeatedShort(h: Program, q: Query<Env>, u: nat, v: nat, m: nat)
    requires u < v && Nth(h, q, u).Some? && Nth(h, q, u) == Nth(h, q, v) && Nth(h, q, m).Some?
    ensures |Nth(h, q, m).value.projection| <= Longest(h, q, v)
  {
    var k := RepeatedWithin(h, q, u, v, m);
  }

  lemma LoopNeverRepeats(h: Program, q: Query<Env>, i: nat, n: nat, u: nat, v: nat)
    requires Nth(h, q, i).Some? && Loops(h, Nth(h, q, i).value, n) && u < v && Nth(h, q, u).Some?
    ensures Nth(h, q, u) != Nth(h, q, v)
  {
    var m := LoopGrows(h, q, i, n, Longest(h, q, v));
    if Nth(h, q, u) == Nth(h, q, v) {
      RepeatedShort(h, q, u, v, m);
    }
  }

  lemma PumpingNeverSettles(h: Program, q: Query<Env>)
    requires Pumps(h, q)
    ensures !Settles(h, q)
  {
    var i: nat, n: nat :| Nth(h, q, i).Some? && Loops(h, Nth(h, q, i).value, n);
    SettlesExactly(h, q);
    if m: nat :| Nth(h, q, m).None? {
      LoopNeverEnds(h, q, i, n, m);
    }
    if u: nat, v: nat :| u < v && Nth(h, q, u).Some? && Nth(h, q, u) == Nth(h, q, v) {
      LoopNeverRepeats(h, q, i, n, u, v);
    }
  }

  /** The n-th query of a chain that does not end. */
  ghost function Chain(h: Program, q: Query<Env>): nat -> Query<Env>
  {
    (n: nat) => if Nth(h, q, n).Some? then Nth(h, q, n).value else q
  }

  /** The references of a program: its expressions in the environments its calls can build. */
  function Refs(h: Program): set<Ref<Env>>
  {
    set e, env | e in h.exprs && env in Envs(h, |Items(h)|) :: Ref(e, env)
  }

  lemma {:induction false} NthLocated(h: Program, q: Query<Env>, n: nat)
    requires Located(h, q.expression) && Nth(h, q, n).Some?
    ensures Located(h, Nth(h, q, n).value.expression)
    decreases n
  {
    if n > 0 {
      StepFollows(h, q);
      NthLocated(h, Step(h, q).dependency, n - 1);
    }
  }

  lemma ReferenceListed(h: Program, r: Ref<Env>)
    requires Located(h, r) && r.expr in h.exprs
    ensures r in Refs(h)
  {
    var depth: nat :| Nested(h, r.env, depth);
    NestedBounded(h, r.env, depth);
  }

  /** In a chain that does not end every reference is one of the program's. */
  lemma ChainListed(h: Program, q: Query<Env>, n: nat)
    requires Located(h, q.expression) && !Ends(h, q)
    ensures Nth(h, q, n) == Some(Chain(h, q)(n)) && Step(h, Chain(h, q)(n)).Depends? && Chain(h, q)(n).expression in Refs(h)
    ensures Chain(h, q)(n + 1) == Step(h, Chain(h, q)(n)).dependency
  {
    assert Nth(h, q, n).Some? && Nth(h, q, n + 1).Some?;
    var a := Nth(h, q, n).value;
    NthAdd(h, q, n, 1);
    assert Nth(h, a, 1).Some?;
    assert Step(h, a).Depends? && Nth(h, a, 1) == Nth(h, Step(h, a).dependency, 0);
    NthLocated(h, q, n);
    ReferenceListed(h, a.expression);
  }

  /** Without a projection there are as many queries as references. */
  function Bare(h: Program): set<Query<Env>>
  {
    set r | r in Refs(h) :: Query(r, [])
  }

  /** A transform is only passed without a projection. */
  lemma NoTransform(h: Program, q: Query<Env>)
    requires Step(h, q).Depends? && q.projection != []
    ensures Step(h, q).transform.None?
  {
  }

  /** Past `from` no projection is empty, so no transform is passed; past a floor none is shorter than there. */
  ghost predicate HighFrom(h: Program, q: Query<Env>, from: nat, i: nat)
  {
    && Located(h, q.expression) && !Ends(h, q) && from <= i && IsFloor(LengthAt(h, q), i)
    && forall t: nat :: t >= from ==> Chain(h, q)(t) !in Bare(h)
  }

  lemma FloorKeepsAt(h: Program, q: Query<Env>, from: nat, i: nat, k: nat)
    requires HighFrom(h, q, from, i)
    ensures StepKeeps(h, Chain(h, q)(i + k), LengthAt(h, q)(i))
  {
    ChainListed(h, q, i + k);
    assert LengthAt(h, q)(i + k + 1) >= LengthAt(h, q)(i);
    NotBare(h, Chain(h, q)(i + k));
    NoTransform(h, Chain(h, q)(i + k));
  }

  lemma ChainAdd(h: Program, q: Query<Env>, i: nat, k: nat)
    requires Located(h, q.expression) && !Ends(h, q)
    ensures Nth(h, Chain(h, q)(i), k) == Some(Chain(h, q)(i + k))
  {
    ChainListed(h, q, i);
    ChainListed(h, q, i + k);
    NthAdd(h, q, i, k);
  }

  /** From a floor on the chain leaves the floor's projection untouched. */
  lemma FloorKeeps(h: Program, q: Query<Env>, from: nat, i: nat, n: nat)
    requires HighFrom(h, q, from, i)
    ensures Keeps(h, Chain(h, q)(i), n, LengthAt(h, q)(i))
  {
    forall k: nat | k < n
      ensures Nth(h, Chain(h, q)(i), k).Some? && StepKeeps(h, Nth(h, Chain(h, q)(i), k).value, LengthAt(h, q)(i))
    {
      ChainAdd(h, q, i, k);
      FloorKeepsAt(h, q, from, i, k);
    }
  }

  /** Two floors at one reference make the chain pump. */
  lemma FloorsPump(h: Program, q: Query<Env>, from: nat, i: nat, j: nat)
    requires HighFrom(h, q, from, i) && i < j && Chain(h, q)(i).expression == Chain(h, q)(j).expression
    requires Chain(h, q)(i) != Chain(h, q)(j)
    ensures Pumps(h, q)
  {
    var a := Chain(h, q)(i);
    FloorKeeps(h, q, from, i, j - i);
    ChainAdd(h, q, i, j - i);
    LongerReturn(h, a, j - i);
    ChainListed(h, q, i);
    assert Loops(h, a, j - i);
  }

  lemma NotBare(h: Program, q: Query<Env>)
    requires q.expression in Refs(h) && q !in Bare(h)
    ensures q.projection != []
  {
    assert q == Query(q.expression, q.projection);
  }

  ghost function LengthAt(h: Program, q: Query<Env>): nat -> nat
  {
    (n: nat) => |Chain(h, q)(n).projection|
  }

  ghost function RefAt(h: Program, q: Query<Env>): nat -> Ref<Env>
  {
    (n: nat) => Chain(h, q)(n).expression
  }

  lemma NeverRepeats(h: Program, q: Query<Env>)
    requires Located(h, q.expression) && !Ends(h, q) && !Repeats(h, q)
    ensures forall i: nat, j: nat :: i < j ==> Chain(h, q)(i) != Chain(h, q)(j)
  {
    forall i: nat, j: nat | i < j
      ensures Chain(h, q)(i) != Chain(h, q)(j)
    {
      ChainListed(h, q, i);
      ChainListed(h, q, j);
    }
  }

  lemma DivergingPumps(h: Program, q: Query<Env>)
    requires Located(h, q.expression) && !Settles(h, q)
    ensures Pumps(h, q)
  {
    SettlesExactly(h, q);
    NeverRepeats(h, q);
    var from := LeavesFor(Chain(h, q), Bare(h));
    RefsListed(h, q);
    var i, j := FloorsMeet(RefAt(h, q), LengthAt(h, q), Refs(h), from, map[]);
    FloorsPump(h, q, from, i, j);
  }

  lemma RefsListed(h: Program, q: Query<Env>)
    requires Located(h, q.expression) && !Ends(h, q)
    ensures forall n: nat :: RefAt(h, q)(n) in Refs(h)
  {
    forall n: nat
      ensures RefAt(h, q)(n) in Refs(h)
    {
      ChainListed(h, q, n);
    }
  }

  /**
   * For every expression and projection of every program, evaluation fails to end exactly when some query
   * comes back longer, its projection untouched and no transform on the way.
   */
  lemma DivergesExactly(h: Program, expr: ExprId, projection: seq<string>)
    ensures var q := Query(Ref(expr, Root), projection); !Settles(h, q) <==> Pumps(h, q)
  {
    var q := Query(Ref(expr, Root), projection);
    assert Nested(h, Root, 0);
    if Pumps(h, q) {
      PumpingNeverSettles(h, q);
    }
    if !Settles(h, q) {
      DivergingPumps(h, q);
    }
  }

  // ----- Programs on which evaluation always ends. -----

  /** Rank and length together never grow along a chain. */
  lemma {:induction false} RankPays(h: Program, rank: ExprId -> nat, q: Query<Env>, n: nat)
    requires Ranked(h, rank) && Located(h, q.expression) && Nth(h, q, n).Some?
    ensures var a := Nth(h, q, n).value; rank(a.expression.expr) + |a.projection| <= rank(q.expression.expr) + |q.projection|
    decreases n
  {
    if n > 0 {
      StepFollows(h, q);
      RankPays(h, rank, Step(h, q).dependency, n - 1);
    }
  }

  /**
   * Evaluation ends for every expression and projection of a program with a rank: on every cycle of
   * dependencies records take at least as many names as projections put.
   */
  lemma RankedSettles(h: Program, rank: ExprId -> nat, expr: ExprId, projection: seq<string>)
    requires Ranked(h, rank)
    ensures Settles(h, Query(Ref(expr, Root), projection))
  {
    var q := Query(Ref(expr, Root), projection);
    DivergesExactly(h, expr, projection);
    if Pumps(h, q) {
      var i: nat, n: nat :| Nth(h, q, i).Some? && Loops(h, Nth(h, q, i).value, n);
      assert Nested(h, Root, 0);
      NthLocated(h, q, i);
      RankPays(h, rank, Nth(h, q, i).value, n);
    }
  }

  /** Without field projections evaluation always ends. */
  lemma NoProjectionsSettle(h: Program, expr: ExprId, projection: seq<string>)
    requires forall e :: e in h.exprs ==> Prefixed(h.exprs[e]) == []
    ensures Settles(h, Query(Ref(expr, Root), projection))
  {
    RankedSettles(h, (e: ExprId) => 0, expr, projection);
  }

  /** The diverging program has no rank: on its one cycle a projection puts a name and nothing takes it. */
  lemma DivergingUnranked(rank: ExprId -> nat)
    ensures !Ranked(Diverging, rank)
  {
    assert Edge(Diverging, 0, 1) && Edge(Diverging, 1, 0);
  }

  const Undone := Program(map[0 := FieldOf(1, "f"), 1 := Record([Named("f", 2)]), 2 := Path(Resolved(0))], map[0 := 0],
                          (c: ExprId) => None, (s: string, t: Transform) => s)

  /** `let x = { f: x }.f` has a cycle through a projection and ends all the same: the record takes the name. */
  lemma UndoneSettles(expr: ExprId, projection: seq<string>)
    ensures Settles(Undone, Query(Ref(expr, Root), projection))
  {
    RankedSettles(Undone, (e: ExprId) => if e == 1 then 0 else 1, expr, projection);
  }
}
