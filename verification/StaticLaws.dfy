/** What every kind of expression evaluates to, whatever chain is followed for it. */
module StaticLaws {
  import opened Prelude
  import opened StaticString
  import opened StaticSettling

  /** The query settles with the outcome. */
  ghost predicate Evaluates(h: Program, q: Query<Env>, o: Outcome)
  {
    exists fuel: nat :: Follow(h, q, {}, fuel) == Some(o)
  }

  lemma EvaluatesOnce(h: Program, q: Query<Env>, a: Outcome, b: Outcome)
    requires Evaluates(h, q, a) && Evaluates(h, q, b)
    ensures a == b
  {
    var m: nat :| Follow(h, q, {}, m) == Some(a);
    var n: nat :| Follow(h, q, {}, n) == Some(b);
    if m <= n {
      MoreFuel(h, q, {}, m, n);
    } else {
      MoreFuel(h, q, {}, n, m);
    }
  }

  /** Outcomes are the same up to the expression a cycle is reported at. */
  predicate SameOutcome(a: Outcome, b: Outcome)
  {
    a == b || (a.Err? && b.Err? && a.error.Cycle? && b.error.Cycle?)
  }

  /** The outcome with the transform applied to its value. */
  function Through(h: Program, o: Outcome, t: Option<Transform>): Outcome
  {
    if o.Ok? && t.Some? then Ok(h.apply(o.value, t.value)) else o
  }

  /** The first query settles exactly when the second does, and gives what that gives, transformed. */
  ghost predicate Agrees(h: Program, q: Query<Env>, d: Query<Env>, t: Option<Transform>)
  {
    && (Settles(h, q) <==> Settles(h, d))
    && forall o, p :: Evaluates(h, q, o) && Evaluates(h, d, p) ==> SameOutcome(o, Through(h, p, t))
  }

  // ----- Following a chain does not depend on where it was entered. -----

  lemma {:induction false} ReturnsFor(h: Program, q: Query<Env>, k: nat, rounds: nat)
    requires Nth(h, q, k) == Some(q)
    ensures Nth(h, q, rounds * k) == Some(q)
    decreases rounds
  {
    if rounds > 0 {
      ReturnsFor(h, q, k, rounds - 1);
      NthAdd(h, q, (rounds - 1) * k, k);
      assert (rounds - 1) * k + k == rounds * k;
    } else {
      assert Nth(h, q, 0) == Some(q);
    }
  }

  /** A chain that ends does not come back to its start. */
  lemma EndingNeverReturns(h: Program, q: Query<Env>, n: nat, k: nat)
    requires Nth(h, q, n).None? && k > 0
    ensures Nth(h, q, k) != Some(q)
  {
    if Nth(h, q, k) == Some(q) {
      ReturnsFor(h, q, k, n);
      AtLeast(n, k);
      NoneStays(h, q, n, n * k);
    }
  }

  /** Nothing on the chain was visited. */
  ghost predicate Unvisited(h: Program, q: Query<Env>, visited: set<Query<Env>>)
  {
    forall k: nat :: Nth(h, q, k).Some? ==> Nth(h, q, k).value !in visited
  }

  lemma UnvisitedNext(h: Program, q: Query<Env>, visited: set<Query<Env>>, n: nat)
    requires Nth(h, q, n).None? && Step(h, q).Depends? && Unvisited(h, q, visited)
    ensures Unvisited(h, Step(h, q).dependency, visited + {q})
  {
    var d := Step(h, q).dependency;
    forall k: nat | Nth(h, d, k).Some?
      ensures Nth(h, d, k).value !in visited + {q}
    {
      assert Nth(h, q, k + 1) == Nth(h, d, k);
      EndingNeverReturns(h, q, n, k + 1);
    }
  }

  lemma {:induction false} EndingFollowed(h: Program, q: Query<Env>, a: set<Query<Env>>, b: set<Query<Env>>, n: nat)
    requires Nth(h, q, n).None? && Unvisited(h, q, a) && Unvisited(h, q, b)
    ensures Follow(h, q, a, n).Some? && Follow(h, q, a, n) == Follow(h, q, b, n)
    decreases n
  {
    assert Nth(h, q, 0) == Some(q);
    if Step(h, q).Depends? {
      UnvisitedNext(h, q, a, n);
      UnvisitedNext(h, q, b, n);
      EndingFollowed(h, Step(h, q).dependency, a + {q}, b + {q}, n - 1);
    }
  }

  lemma EndsWithDependency(h: Program, q: Query<Env>)
    requires Step(h, q).Depends?
    ensures Ends(h, q) <==> Ends(h, Step(h, q).dependency)
  {
    var d := Step(h, q).dependency;
    if Ends(h, q) {
      var n: nat :| Nth(h, q, n).None?;
      assert n > 0 by {
        assert Nth(h, q, 0) == Some(q);
      }
      assert Nth(h, d, n - 1).None?;
    }
    if Ends(h, d) {
      var n: nat :| Nth(h, d, n).None?;
      assert Nth(h, q, n + 1) == Nth(h, d, n);
    }
  }

  lemma NthOfDependency(h: Program, q: Query<Env>, k: nat)
    requires Step(h, q).Depends?
    ensures Nth(h, q, k + 1) == Nth(h, Step(h, q).dependency, k)
  {
  }

  lemma RepeatsLater(h: Program, q: Query<Env>, i: nat, j: nat)
    requires Step(h, q).Depends? && !Ends(h, q) && i < j && Nth(h, q, i).Some? && Nth(h, q, i) == Nth(h, q, j)
    ensures Repeats(h, Step(h, q).dependency)
  {
    var d := Step(h, q).dependency;
    NthAdd(h, q, i, 1);
    NthAdd(h, q, j, 1);
    NthOfDependency(h, q, i);
    NthOfDependency(h, q, j);
    assert Nth(h, q, i + 1).Some?;
    assert Nth(h, d, i) == Nth(h, d, j);
  }

  lemma RepeatsWithDependency(h: Program, q: Query<Env>)
    requires Step(h, q).Depends? && !Ends(h, q)
    ensures Repeats(h, q) <==> Repeats(h, Step(h, q).dependency)
  {
    var d := Step(h, q).dependency;
    if i: nat, j: nat :| i < j && Nth(h, q, i).Some? && Nth(h, q, i) == Nth(h, q, j) {
      RepeatsLater(h, q, i, j);
    }
    if i: nat, j: nat :| i < j && Nth(h, d, i).Some? && Nth(h, d, i) == Nth(h, d, j) {
      NthOfDependency(h, q, i);
      NthOfDependency(h, q, j);
      assert Nth(h, q, i + 1) == Nth(h, q, j + 1);
    }
  }

  /** A chain that does not end can only be cut off as a cycle. */
  lemma {:induction false} EndlessIsCycle(h: Program, q: Query<Env>, visited: set<Query<Env>>, n: nat)
    requires !Ends(h, q) && Follow(h, q, visited, n).Some?
    ensures Follow(h, q, visited, n).value.Err? && Follow(h, q, visited, n).value.error.Cycle?
    decreases n
  {
    if q !in visited {
      assert Nth(h, q, 1).Some?;
      EndsWithDependency(h, q);
      EndlessIsCycle(h, Step(h, q).dependency, visited + {q}, n - 1);
    }
  }

  lemma EndingAgrees(h: Program, q: Query<Env>, o: Outcome, p: Outcome)
    requires Step(h, q).Depends? && Ends(h, q) && Evaluates(h, q, o) && Evaluates(h, Step(h, q).dependency, p)
    ensures o == Through(h, p, Step(h, q).transform)
  {
    var d := Step(h, q).dependency;
    EndsWithDependency(h, q);
    var n: nat :| Nth(h, d, n).None?;
    assert Nth(h, q, n + 1) == Nth(h, d, n);
    assert Unvisited(h, q, {});
    UnvisitedNext(h, q, {}, n + 1);
    assert {} + {q} == {q};
    assert Unvisited(h, d, {});
    EndingFollowed(h, d, {q}, {}, n);
    EvaluatesOnce(h, d, p, Follow(h, d, {}, n).value);
    assert Follow(h, q, {}, n + 1) == Some(Through(h, p, Step(h, q).transform));
    EvaluatesOnce(h, q, o, Through(h, p, Step(h, q).transform));
  }

  /** What a query depends on, it agrees with. */
  lemma DependencyAgrees(h: Program, q: Query<Env>)
    requires Step(h, q).Depends?
    ensures Agrees(h, q, Step(h, q).dependency, Step(h, q).transform)
  {
    var d, t := Step(h, q).dependency, Step(h, q).transform;
    SettlesExactly(h, q);
    SettlesExactly(h, d);
    EndsWithDependency(h, q);
    if !Ends(h, q) {
      RepeatsWithDependency(h, q);
    }
    forall o, p | Evaluates(h, q, o) && Evaluates(h, d, p)
      ensures SameOutcome(o, Through(h, p, t))
    {
      if Ends(h, q) {
        EndingAgrees(h, q, o, p);
      } else {
        var m: nat :| Follow(h, q, {}, m) == Some(o);
        var n: nat :| Follow(h, d, {}, n) == Some(p);
        EndlessIsCycle(h, q, {}, m);
        EndlessIsCycle(h, d, {}, n);
      }
    }
  }

  // ----- The laws. -----

  lemma AtOnce(h: Program, q: Query<Env>)
    requires !Step(h, q).Depends?
    ensures Evaluates(h, q, if Step(h, q).Value? then Ok(Step(h, q).text) else Err(Step(h, q).error))
  {
    assert Follow(h, q, {}, 0).Some?;
  }

  /** A literal gives its text, and has no fields. */
  lemma LiteralLaw(h: Program, r: Ref<Env>, p: seq<string>)
    requires r.expr in h.exprs && h.exprs[r.expr].StringLiteral?
    ensures Evaluates(h, Query(r, p), if p == [] then Ok(h.exprs[r.expr].text) else Err(UnsupportedExpression(r.expr)))
  {
    AtOnce(h, Query(r, p));
  }

  /** A field projection gives what its base gives under the field and the rest. */
  lemma FieldLaw(h: Program, r: Ref<Env>, p: seq<string>)
    requires r.expr in h.exprs && h.exprs[r.expr].FieldOf?
    ensures Agrees(h, Query(r, p), Query(Ref(h.exprs[r.expr].base, r.env), [h.exprs[r.expr].field] + p), None)
  {
    DependencyAgrees(h, Query(r, p));
  }

  /** A name stands for its binding where it has one, and otherwise for its initializer, in the same environment. */
  ghost predicate NameMeans(h: Program, env: Env, s: SymbolId, target: Ref<Env>)
  {
    if s in env.frame.bindings then target == env.frame.bindings[s]
    else s in h.initializers && target == Ref(h.initializers[s], env)
  }

  predicate Known(h: Program, env: Env, s: SymbolId)
  {
    s in env.frame.bindings || s in h.initializers
  }

  /** A field of the name leads to its value, or to what its shorthand name stands for. */
  ghost predicate FieldMeans(h: Program, env: Env, f: FieldInit, name: string, target: Ref<Env>)
  {
    match f
    case Named(n, value) => n == name && target == Ref(value, env)
    case Shorthand(n, Resolved(s)) => n == name && NameMeans(h, env, s, target)
    case _ => false
  }

  predicate LeadsSomewhere(h: Program, env: Env, f: FieldInit, name: string)
  {
    match f
    case Named(n, _) => n == name
    case Shorthand(n, Resolved(s)) => n == name && Known(h, env, s)
    case _ => false
  }

  lemma {:induction false} FirstFieldFound(h: Program, fields: seq<FieldInit>, name: string, expr: ExprId, env: Env, i: nat, target: Ref<Env>)
    requires i < |fields| && FieldMeans(h, env, fields[i], name, target)
    requires forall j :: 0 <= j < i ==> !LeadsSomewhere(h, env, fields[j], name)
    ensures FindField(h, fields, name, expr, env, env.frame) == Some(target)
    decreases i
  {
    if i > 0 {
      assert !LeadsSomewhere(h, env, fields[0], name);
      assert forall j :: 0 <= j < i - 1 ==> fields[1..][j] == fields[j + 1];
      FirstFieldFound(h, fields[1..], name, expr, env, i - 1, target);
    }
  }

  lemma {:induction false} NoFieldFound(h: Program, fields: seq<FieldInit>, name: string, expr: ExprId, env: Env)
    requires forall j :: 0 <= j < |fields| ==> !LeadsSomewhere(h, env, fields[j], name)
    ensures FindField(h, fields, name, expr, env, env.frame).None?
  {
    if fields != [] {
      assert !LeadsSomewhere(h, env, fields[0], name);
      assert forall j :: 0 <= j < |fields[1..]| ==> fields[1..][j] == fields[j + 1];
      NoFieldFound(h, fields[1..], name, expr, env);
    }
  }

  /** A record under a name and a rest gives what the first field of the name that leads somewhere gives under the rest. */
  lemma RecordLaw(h: Program, r: Ref<Env>, name: string, p: seq<string>, i: nat, target: Ref<Env>)
    requires r.expr in h.exprs && h.exprs[r.expr].Record? && i < |h.exprs[r.expr].fields|
    requires FieldMeans(h, r.env, h.exprs[r.expr].fields[i], name, target)
    requires forall j :: 0 <= j < i ==> !LeadsSomewhere(h, r.env, h.exprs[r.expr].fields[j], name)
    ensures Agrees(h, Query(r, [name] + p), Query(target, p), None)
  {
    var q := Query(r, [name] + p);
    assert q.projection[0] == name && q.projection[1..] == p;
    FirstFieldFound(h, h.exprs[r.expr].fields, name, r.expr, r.env, i, target);
    DependencyAgrees(h, q);
  }

  /** A record gives nothing by itself and nothing under a name that leads nowhere. */
  lemma RecordFails(h: Program, r: Ref<Env>, name: string, p: seq<string>)
    requires r.expr in h.exprs && h.exprs[r.expr].Record?
    ensures Evaluates(h, Query(r, []), Err(UnsupportedExpression(r.expr)))
    ensures (forall j :: 0 <= j < |h.exprs[r.expr].fields| ==> !LeadsSomewhere(h, r.env, h.exprs[r.expr].fields[j], name)) ==>
              Evaluates(h, Query(r, [name] + p), Err(MissingRecordField(r.expr, name)))
  {
    AtOnce(h, Query(r, []));
    if forall j :: 0 <= j < |h.exprs[r.expr].fields| ==> !LeadsSomewhere(h, r.env, h.exprs[r.expr].fields[j], name) {
      NoFieldFound(h, h.exprs[r.expr].fields, name, r.expr, r.env);
      assert ([name] + p)[0] == name;
      AtOnce(h, Query(r, [name] + p));
    }
  }

  /** The name a path starts with, and the names that follow it. */
  function PathSymbol(x: Resolution): Option<SymbolId>
  {
    match x
    case Resolved(s) => Some(s)
    case PartiallyResolved(prefix, _) => prefix
    case _ => None
  }

  function PathRest(x: Resolution): seq<string>
  {
    if x.PartiallyResolved? then x.remaining else []
  }

  /** A path gives what its name stands for gives under the rest of the path; an unknown name or path is an error. */
  lemma PathLaw(h: Program, r: Ref<Env>, p: seq<string>)
    requires r.expr in h.exprs && h.exprs[r.expr].Path?
    ensures var s := PathSymbol(h.exprs[r.expr].resolution);
            && (s.None? ==> Evaluates(h, Query(r, p), Err(UnresolvedPath(r.expr))))
            && (s.Some? && !Known(h, r.env, s.value) ==> Evaluates(h, Query(r, p), Err(UnboundSymbol(r.expr, s.value))))
            && (s.Some? ==> forall target :: NameMeans(h, r.env, s.value, target) ==>
                  Agrees(h, Query(r, p), Query(target, PathRest(h.exprs[r.expr].resolution) + p), None))
  {
    var q := Query(r, p);
    assert [] + p == p;
    if Step(h, q).Depends? {
      DependencyAgrees(h, q);
    } else {
      AtOnce(h, q);
    }
  }

  /** A transforming call gives the transform of what its argument gives, and has no fields. */
  lemma TransformLaw(h: Program, r: Ref<Env>, p: seq<string>, argument: nat, transform: Transform)
    requires r.expr in h.exprs && h.exprs[r.expr].Call? && h.semantics(h.exprs[r.expr].callee) == Some(StringTransform(argument, transform))
    ensures var args := h.exprs[r.expr].args;
            if p != [] then Evaluates(h, Query(r, p), Err(UnsupportedExpression(r.expr)))
            else if argument >= |args| then Evaluates(h, Query(r, p), Err(MissingCallArgument(r.expr, argument)))
            else Agrees(h, Query(r, p), Query(Ref(args[argument], r.env), []), Some(transform))
  {
    var q := Query(r, p);
    if Step(h, q).Depends? {
      DependencyAgrees(h, q);
    } else {
      AtOnce(h, q);
    }
  }

  /** No later parameter has the same name. */
  predicate LastOfName(params: seq<SymbolId>, i: nat)
    requires i < |params|
  {
    params[i] !in params[i + 1..]
  }

  /** Exactly the parameters are bound, each to the argument at its last place. */
  ghost predicate BindsExactly(bound: map<SymbolId, Ref<Env>>, params: seq<SymbolId>, args: seq<ExprId>, caller: Env)
    requires |params| <= |args|
  {
    && (forall s :: s in bound <==> s in params)
    && forall i :: 0 <= i < |params| && LastOfName(params, i) ==> params[i] in bound && bound[params[i]] == Ref(args[i], caller)
  }

  /** The parameters are bound to the caller's arguments, and the flow is active. */
  ghost predicate Enters(env: Env, params: seq<SymbolId>, args: seq<ExprId>, caller: Env, item: ItemId)
    requires |params| <= |args|
  {
    env.frame.activeCalls == caller.frame.activeCalls + {item} && BindsExactly(env.frame.bindings, params, args, caller)
  }

  lemma LastOfFront(params: seq<SymbolId>, i: nat)
    requires i < |params| - 1 && LastOfName(params, i)
    ensures var front := params[..|params| - 1]; front[i] == params[i] && LastOfName(front, i) && params[i] != params[|params| - 1]
  {
    var front := params[..|params| - 1];
    assert params[i + 1..] == front[i + 1..] + [params[|params| - 1]];
  }

  lemma {:induction false} ParametersBound(params: seq<SymbolId>, args: seq<ExprId>, env: Env)
    requires |params| <= |args|
    ensures BindsExactly(BindParams(params, args, env), params, args, env)
  {
    if params != [] {
      var last := |params| - 1;
      var front := params[..last];
      ParametersBound(front, args, env);
      assert params == front + [params[last]];
      forall i | 0 <= i < |params| && LastOfName(params, i)
        ensures params[i] in BindParams(params, args, env) && BindParams(params, args, env)[params[i]] == Ref(args[i], env)
      {
        if i < last {
          LastOfFront(params, i);
        }
      }
    }
  }

  /** A flow call gives what its return expression gives, with the parameters read as the caller's arguments. */
  lemma FlowLaw(h: Program, r: Ref<Env>, p: seq<string>, item: ItemId, params: seq<SymbolId>, returned: ExprId)
    requires r.expr in h.exprs && h.exprs[r.expr].Call? && h.semantics(h.exprs[r.expr].callee) == Some(SourceFlow(item, params, returned))
    ensures var args := h.exprs[r.expr].args;
            if item in r.env.frame.activeCalls then Evaluates(h, Query(r, p), Err(Cycle(r.expr)))
            else if |params| > |args| then Evaluates(h, Query(r, p), Err(MissingCallArgument(r.expr, |args|)))
            else exists env :: Enters(env, params, args, r.env, item) && Agrees(h, Query(r, p), Query(Ref(returned, env), p), None)
  {
    var q, args := Query(r, p), h.exprs[r.expr].args;
    if Step(h, q).Depends? {
      DependencyAgrees(h, q);
      ParametersBound(params, args, r.env);
      var env := Step(h, q).dependency.expression.env;
      assert Enters(env, params, args, r.env, item);
    } else {
      AtOnce(h, q);
    }
  }

  /** Everything else is an error of its own. */
  lemma OtherLaw(h: Program, r: Ref<Env>, p: seq<string>)
    ensures r.expr !in h.exprs ==> Evaluates(h, Query(r, p), Err(MissingExpression(r.expr)))
    ensures r.expr in h.exprs && h.exprs[r.expr].OtherExpr? ==> Evaluates(h, Query(r, p), Err(UnsupportedExpression(r.expr)))
    ensures r.expr in h.exprs && h.exprs[r.expr].Call? && h.semantics(h.exprs[r.expr].callee).None? ==>
              Evaluates(h, Query(r, p), Err(UnsupportedCall(r.expr)))
  {
    if !Step(h, Query(r, p)).Depends? {
      AtOnce(h, Query(r, p));
    }
  }
}
