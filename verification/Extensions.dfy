/** The effect extension graph (crates/etas_effects/src/effect/extension.rs). */
module Extensions {
  import opened Prelude
  import opened Effects

  type Parents = map<TagId, set<TagId>>

  predicate Direct(parents: Parents, child: TagId, parent: TagId)
  {
    child in parents && parent in parents[child]
  }

  ghost predicate Path(parents: Parents, p: seq<TagId>)
  {
    p != [] && forall i :: 0 <= i < |p| - 1 ==> Direct(parents, p[i], p[i + 1])
  }

  /** Reflexive-transitive reachability along direct extensions. */
  ghost predicate Reachable(parents: Parents, child: TagId, ancestor: TagId)
  {
    exists p :: Path(parents, p) && p[0] == child && p[|p| - 1] == ancestor
  }

  lemma ReachSelf(parents: Parents, a: TagId)
    ensures Reachable(parents, a, a)
  {
    assert Path(parents, [a]) && [a][0] == a;
  }

  lemma ReachTransitive(parents: Parents, a: TagId, b: TagId, c: TagId)
    requires Reachable(parents, a, b) && Reachable(parents, b, c)
    ensures Reachable(parents, a, c)
  {
    var p :| Path(parents, p) && p[0] == a && p[|p| - 1] == b;
    var q :| Path(parents, q) && q[0] == b && q[|q| - 1] == c;
    var r := p + q[1..];
    forall i | 0 <= i < |r| - 1
      ensures Direct(parents, r[i], r[i + 1])
    {
      if i < |p| - 1 {
        assert Direct(parents, p[i], p[i + 1]);
      } else {
        assert Direct(parents, q[i - |p| + 1], q[i - |p| + 2]);
      }
    }
    assert Path(parents, r) && r[0] == a && r[|r| - 1] == c;
  }

  lemma ReachStep(parents: Parents, a: TagId, b: TagId)
    requires Direct(parents, a, b)
    ensures Reachable(parents, a, b)
  {
    var p := [a, b];
    assert Path(parents, p) && p[0] == a && p[|p| - 1] == b;
  }

  /** A set closed under direct extension contains everything reachable from its members. */
  lemma {:induction false} ClosedReach(parents: Parents, closed: set<TagId>, p: seq<TagId>)
    requires forall x, y :: x in closed && Direct(parents, x, y) ==> y in closed
    requires Path(parents, p) && p[0] in closed
    ensures p[|p| - 1] in closed
    decreases |p|
  {
    if |p| > 1 {
      assert Direct(parents, p[0], p[1]);
      var tail := p[1..];
      forall i | 0 <= i < |tail| - 1
        ensures Direct(parents, tail[i], tail[i + 1])
      {
        assert Direct(parents, p[i + 1], p[i + 2]);
      }
      ClosedReach(parents, closed, tail);
    }
  }

  function AddEdge(parents: Parents, child: TagId, parent: TagId): Parents
  {
    parents[child := (if child in parents then parents[child] else {}) + {parent}]
  }

  lemma {:induction false} PathAfterAdd(parents: Parents, child: TagId, parent: TagId, p: seq<TagId>)
    requires Path(AddEdge(parents, child, parent), p)
    ensures Reachable(parents, p[0], p[|p| - 1])
         || (Reachable(parents, p[0], child) && Reachable(parents, parent, p[|p| - 1]))
    decreases |p|
  {
    if |p| == 1 {
      ReachSelf(parents, p[0]);
    } else {
      var tail := p[1..];
      var more := AddEdge(parents, child, parent);
      forall i | 0 <= i < |tail| - 1
        ensures Direct(more, tail[i], tail[i + 1])
      {
        assert Direct(more, p[i + 1], p[i + 2]);
      }
      PathAfterAdd(parents, child, parent, tail);
      assert Direct(more, p[0], p[1]);
      var last := p[|p| - 1];
      if Direct(parents, p[0], p[1]) {
        ReachStep(parents, p[0], p[1]);
        if Reachable(parents, p[1], last) {
          ReachTransitive(parents, p[0], p[1], last);
        } else {
          ReachTransitive(parents, p[0], p[1], child);
        }
      } else {
        ReachSelf(parents, child);
      }
    }
  }

  lemma ReachMonotone(parents: Parents, child: TagId, parent: TagId, a: TagId, b: TagId)
    requires Reachable(parents, a, b)
    ensures Reachable(AddEdge(parents, child, parent), a, b)
  {
    var p :| Path(parents, p) && p[0] == a && p[|p| - 1] == b;
    var more := AddEdge(parents, child, parent);
    forall i | 0 <= i < |p| - 1
      ensures Direct(more, p[i], p[i + 1])
    {
      assert Direct(parents, p[i], p[i + 1]);
    }
    assert Path(more, p);
  }

  /** Recording an extension adds exactly the paths through the new edge, cycles included. */
  lemma AddExtensionReach(parents: Parents, child: TagId, parent: TagId, a: TagId, b: TagId)
    ensures Reachable(AddEdge(parents, child, parent), a, b)
       <==> Reachable(parents, a, b) || (Reachable(parents, a, child) && Reachable(parents, parent, b))
  {
    var more := AddEdge(parents, child, parent);
    if Reachable(more, a, b) {
      var p :| Path(more, p) && p[0] == a && p[|p| - 1] == b;
      PathAfterAdd(parents, child, parent, p);
    }
    if Reachable(parents, a, b) {
      ReachMonotone(parents, child, parent, a, b);
    }
    if Reachable(parents, a, child) && Reachable(parents, parent, b) {
      ReachMonotone(parents, child, parent, a, child);
      ReachMonotone(parents, child, parent, parent, b);
      ReachStep(more, child, parent);
      ReachTransitive(more, a, child, parent);
      ReachTransitive(more, a, parent, b);
    }
  }

  class ExtensionGraph {
    var parents: Parents

    constructor ()
      ensures parents == map[]
    {
      parents := map[];
    }

    method AddExtension(child: TagId, parent: TagId)
      modifies this
      ensures parents == AddEdge(old(parents), child, parent)
    {
      var known := if child in parents then parents[child] else {};
      parents := parents[child := known + {parent}];
    }

    /** Depth-first search terminates on every graph and decides reachability. */
    method Extends(child: TagId, ancestor: TagId) returns (found: bool)
      ensures found <==> Reachable(parents, child, ancestor)
    {
      if child == ancestor {
        ReachSelf(parents, child);
        return true;
      }
      var stack := [child];
      var seen: set<TagId> := {};
      ghost var all := {child} + (set k, v | k in parents && v in parents[k] :: v);
      ReachSelf(parents, child);
      while stack != []
        invariant forall x :: x in seen || x in stack ==> x in all && Reachable(parents, child, x)
        invariant child in seen || child in stack
        invariant forall x, y :: x in seen && Direct(parents, x, y) ==> y != ancestor && (y in seen || y in stack)
        decreases all - seen, |stack|
      {
        var tag := Top(stack);
        assert tag in stack;
        var rest := Rest(stack);
        assert forall x :: x in stack <==> x in rest || x == tag;
        stack := rest;
        if tag !in seen {
          seen := seen + {tag};
          if tag in parents {
            forall y | y in parents[tag]
              ensures y in all && Reachable(parents, child, y)
            {
              ReachStep(parents, tag, y);
              ReachTransitive(parents, child, tag, y);
            }
            if ancestor in parents[tag] {
              return true;
            }
            stack := PushAll(stack, parents[tag]);
          }
        }
      }
      if Reachable(parents, child, ancestor) {
        var p :| Path(parents, p) && p[0] == child && p[|p| - 1] == ancestor;
        assert Direct(parents, p[|p| - 2], p[|p| - 1]);
        var front := p[..|p| - 1];
        forall i | 0 <= i < |front| - 1
          ensures Direct(parents, front[i], front[i + 1])
        {
          assert Direct(parents, p[i], p[i + 1]);
        }
        ClosedReach(parents, seen, front);
      }
      return false;
    }
  }

  method PushAll(stack: seq<TagId>, tags: set<TagId>) returns (r: seq<TagId>)
    ensures forall x :: x in r <==> x in stack || x in tags
  {
    r := stack;
    var todo := tags;
    while todo != {}
      invariant todo <= tags
      invariant forall x :: x in r <==> x in stack || x in tags - todo
      decreases todo
    {
      var t :| t in todo;
      todo := todo - {t};
      r := r + [t];
    }
  }
}
