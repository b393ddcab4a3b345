/** The prior-evidence runner against a step-by-step reading of the trace, one state at a time. */
module MonitorRuns {
  import opened Effects
  import opened Traces
  import opened Words
  import opened TraceMonitor
  import Rounds

  type End = Rounds.End<Prior>
  type Ways1 = Rounds.Steps<Prior>

  /** No letter of the trace is a callback or can match guard or target. */
  ghost predicate Silent(m: Monitor, t: Trace)
  {
    forall l :: l in Letters(t) ==> l.Act? && !m.guard.may(l.action) && !m.target.may(l.action)
  }

  /** One event: undecided, an unguarded target, or the next state. */
  function EventEnd(m: Monitor, a: Effect, p: Prior): End
  {
    if (m.guard.may(a) && !m.guard.must(a)) || (m.target.may(a) && !m.target.must(a)) then Rounds.Stuck
    else if m.target.must(a) && p == NoGuard then Rounds.Bad
    else if m.guard.must(a) then Rounds.Ended(GuardSeen)
    else Rounds.Ended(p)
  }

  /** The ways through a trace from a state. */
  ghost predicate Ways(m: Monitor, t: Trace, p: Prior, o: End)
    decreases t, 0
  {
    match t
    case Empty => o == Rounds.Ended(p)
    case TaskAwait(_) => o == Rounds.Ended(p)
    case Event(e) => o == EventEnd(m, e.action, p)
    case ParameterCall(_) => o == Rounds.Stuck
    case Seq(parts) => SeqWays(m, parts, p, o)
    case Choice(parts) => if parts == [] then o == Rounds.Stuck else SomeWay(m, parts, p, o)
    case Repeat(inner) =>
      if Silent(m, inner) then o == Rounds.Ended(p)
      else Rounds.Star((a: Prior, b: End) => Ways(m, inner, a, b), p, o)
    case _ => o == if Silent(m, t) then Rounds.Ended(p) else Rounds.Stuck
  }

  /** One part after the other, up to the first that does not end in a state. */
  ghost predicate SeqWays(m: Monitor, ts: seq<Trace>, p: Prior, o: End)
    decreases ts, 1
  {
    if ts == [] then o == Rounds.Ended(p)
    else (exists q :: Ways(m, ts[0], p, Rounds.Ended(q)) && SeqWays(m, ts[1..], q, o)) || (!o.Ended? && Ways(m, ts[0], p, o))
  }

  ghost predicate SomeWay(m: Monitor, ts: seq<Trace>, p: Prior, o: End)
    decreases ts, 1
  {
    ts != [] && (Ways(m, ts[0], p, o) || SomeWay(m, ts[1..], p, o))
  }

  ghost function WaysOf(m: Monitor, t: Trace): Ways1
  {
    (p: Prior, o: End) => Ways(m, t, p, o)
  }

  ghost function SeqWaysOf(m: Monitor, ts: seq<Trace>): Ways1
  {
    (p: Prior, o: End) => SeqWays(m, ts, p, o)
  }

  ghost function SomeWayOf(m: Monitor, ts: seq<Trace>): Ways1
  {
    (p: Prior, o: End) => SomeWay(m, ts, p, o)
  }

  // ----- What a run must tell. -----

  /** A violation exactly when some way is bad; otherwise exactly the states reached, incomplete when some way is stuck. */
  ghost predicate Tells(one: Ways1, states: set<Prior>, r: TraceRun, incomplete: bool)
  {
    && (r.Violation? <==> Rounds.Some1(one, states, Rounds.Bad))
    && (r.States? ==>
          && Rounds.Shows(one, states, r.states)
          && (r.incomplete <==> incomplete || Rounds.Some1(one, states, Rounds.Stuck)))
  }

  lemma SameTells(a: Ways1, b: Ways1, states: set<Prior>, r: TraceRun, incomplete: bool)
    requires Rounds.Same(a, b) && Tells(a, states, r, incomplete)
    ensures Tells(b, states, r, incomplete)
  {
    forall o
      ensures Rounds.Some1(a, states, o) <==> Rounds.Some1(b, states, o)
    {
      Rounds.SomeSame(a, b, states, o);
    }
  }

  ghost predicate Always(one: Ways1, o: End)
  {
    forall p, e :: one(p, e) <==> e == o
  }

  ghost predicate Keeps(one: Ways1)
  {
    forall p, e :: one(p, e) <==> e == Rounds.Ended(p)
  }

  lemma KeptTells(one: Ways1, states: set<Prior>, incomplete: bool)
    requires Keeps(one)
    ensures Tells(one, states, States(states, incomplete), incomplete)
  {
    forall q | q in states
      ensures Rounds.Some1(one, states, Rounds.Ended(q))
    {
      assert one(q, Rounds.Ended(q));
    }
  }

  lemma StuckTells(one: Ways1, states: set<Prior>)
    requires states != {} && Always(one, Rounds.Stuck)
    ensures Tells(one, states, UnknownRun, false)
  {
    var p :| p in states;
    assert one(p, Rounds.Stuck);
  }

  lemma ThenTells(first: Ways1, second: Ways1, both: Ways1, states: set<Prior>, a: TraceRun, b: TraceRun, incomplete: bool)
    requires Rounds.Then(first, second, both) && Tells(first, states, a, false)
    requires a.States? ==> Tells(second, a.states, b, incomplete || a.incomplete)
    ensures Tells(both, states, if a.Violation? then Violation else b, incomplete)
  {
    if a.Violation? {
      var p :| p in states && first(p, Rounds.Bad);
      assert both(p, Rounds.Bad);
    } else {
      forall o
        ensures Rounds.Some1(both, states, o) <==> Rounds.Some1(second, a.states, o) || (!o.Ended? && Rounds.Some1(first, states, o))
      {
        Rounds.ThenSome(first, second, both, states, a.states, o);
      }
    }
  }

  lemma OrTells(a: Ways1, b: Ways1, either: Ways1, states: set<Prior>, x: TraceRun, y: TraceRun)
    requires forall p, o :: either(p, o) <==> a(p, o) || b(p, o)
    requires Tells(a, states, x, false) && Tells(b, states, y, false)
    ensures Tells(either, states, JoinRuns(x, y), false)
  {
    forall o
      ensures Rounds.Some1(either, states, o) <==> Rounds.Some1(a, states, o) || Rounds.Some1(b, states, o)
    {
      Rounds.OrSome(a, b, either, states, o);
    }
  }

  // ----- Single events and silent parts. -----

  lemma CallsHaveLetters(t: Trace)
    requires Calls(t) != []
    ensures exists l :: l in Letters(t) && !l.Act?
  {
    var l := CallLetter(Calls(t)[0]);
    assert l in CallLetters(Calls(t));
    assert l in Letters(t);
  }

  lemma SilentExactly(m: Monitor, t: Trace)
    ensures Irrelevant(m, t) <==> Silent(m, t)
  {
    if Irrelevant(m, t) {
      assert CallLetters(Calls(t)) == {};
    }
    if Calls(t) != [] {
      CallsHaveLetters(t);
    }
    forall a | a in Actions(t)
      ensures Act(a) in Letters(t)
    {
      ActionLetter(t, a);
    }
  }

  lemma EventTells(m: Monitor, e: ActionEvent, states: set<Prior>)
    requires states != {}
    ensures Tells(WaysOf(m, Event(e)), states, StepEvent(m, e.action, states), false)
  {
    var one, a := WaysOf(m, Event(e)), e.action;
    assert forall p, o :: one(p, o) <==> o == EventEnd(m, a, p);
    var r := StepEvent(m, a, states);
    var x :| x in states;
    assert one(x, EventEnd(m, a, x));
    if r.States? && !r.incomplete {
      forall q
        ensures q in r.states <==> Rounds.Some1(one, states, Rounds.Ended(q))
      {
        if q in r.states {
          var p :| p in states && q == Note(p, m.guard.must(a));
          assert one(p, Rounds.Ended(q));
        }
      }
    }
    if r.Violation? {
      assert one(NoGuard, Rounds.Bad);
    }
  }

  lemma OpaqueExactly(m: Monitor, t: Trace, states: set<Prior>)
    requires states != {} && !t.Event? && !t.Seq? && !t.Choice? && !t.Repeat?
    ensures Tells(WaysOf(m, t), states, Run(m, t, states), false)
  {
    SilentExactly(m, t);
    OpaqueRun(m, t, states);
    var one := WaysOf(m, t);
    if t.Empty? || t.TaskAwait? {
      KeptTells(one, states, false);
    } else if !t.ParameterCall? && Silent(m, t) {
      KeptTells(one, states, false);
    } else {
      StuckTells(one, states);
    }
  }

  // ----- Repetition. -----

  /** Inside a repetition nested repetitions may be unwrapped. */
  lemma {:induction false} UnwrapWays(m: Monitor, t: Trace, p: Prior, o: End)
    requires !Silent(m, t)
    ensures Rounds.Star(WaysOf(m, t), p, o) <==> Rounds.Star(WaysOf(m, Unwrap(t)), p, o)
    decreases t
  {
    if t.Repeat? {
      assert !Silent(m, t.inner);
      UnwrapWays(m, t.inner, p, o);
      RepeatWays(m, t.inner);
      Rounds.SameStar(WaysOf(m, t), Rounds.StarOf(WaysOf(m, t.inner)), p, o);
      Rounds.StarOfStar(WaysOf(m, t.inner), p, o);
    }
  }

  lemma RepeatWays(m: Monitor, inner: Trace)
    requires !Silent(m, inner)
    ensures Rounds.Same(WaysOf(m, Repeat(inner)), Rounds.StarOf(WaysOf(m, inner)))
  {
    var one := (a: Prior, b: End) => Ways(m, inner, a, b);
    forall p, o
      ensures WaysOf(m, Repeat(inner))(p, o) <==> Rounds.StarOf(WaysOf(m, inner))(p, o)
    {
      Rounds.SameStar(WaysOf(m, inner), one, p, o);
    }
  }

  lemma FixTells(one: Ways1, start: set<Prior>, reached: set<Prior>, incomplete: bool)
    requires Rounds.FixAt(one, start, reached, {}, incomplete)
    ensures Tells(Rounds.StarOf(one), start, States(reached, incomplete), false)
  {
    forall o
      ensures Rounds.Some1(Rounds.StarOf(one), start, o) <==> if o.Ended? then o.at in reached else o.Stuck? && incomplete
    {
      Rounds.FixEnd(one, start, reached, incomplete, o);
    }
  }

  lemma FixNext(one: Ways1, start: set<Prior>, reached: set<Prior>, pending: set<Prior>, incomplete: bool, r: TraceRun)
    requires Rounds.FixAt(one, start, reached, pending, incomplete) && Tells(one, pending, r, false)
    ensures r.Violation? ==> Tells(Rounds.StarOf(one), start, Violation, false)
    ensures r.States? ==>
              Rounds.FixAt(one, start, reached + (r.states - reached), r.states - reached, incomplete || r.incomplete)
  {
    if r.Violation? {
      Rounds.FixBad(one, start, reached, pending, incomplete);
    } else {
      Rounds.FixStep(one, start, reached, pending, incomplete, r.states);
    }
  }

  ghost predicate RunTells(run: set<Prior> -> TraceRun, one: Ways1)
  {
    forall s: set<Prior> :: Tells(one, s, run(s), false)
  }

  /** The fixpoint for any way of running one round. */
  ghost function Fix(run: set<Prior> -> TraceRun, reached: set<Prior>, pending: set<Prior>, incomplete: bool): TraceRun
    decreases AllPriors - reached, pending
  {
    if pending == {} || run(pending).Violation? then
      if pending == {} then States(reached, incomplete) else Violation
    else
      var newly := run(pending).states - reached;
      FixProgress(reached, newly);
      Fix(run, reached + newly, newly, incomplete || run(pending).incomplete)
  }

  lemma {:induction false} RunFixIsFix(m: Monitor, inner: Trace, run: set<Prior> -> TraceRun, reached: set<Prior>, pending: set<Prior>, incomplete: bool)
    requires forall s :: run(s) == Run(m, inner, s)
    ensures RunFix(m, inner, reached, pending, incomplete) == Fix(run, reached, pending, incomplete)
    decreases AllPriors - reached, pending
  {
    if pending != {} {
      var r := run(pending);
      if r.States? {
        FixProgress(reached, r.states - reached);
        RunFixIsFix(m, inner, run, reached + (r.states - reached), r.states - reached, incomplete || r.incomplete);
      }
    }
  }

  lemma {:induction false} FixExactly(run: set<Prior> -> TraceRun, one: Ways1, start: set<Prior>, reached: set<Prior>, pending: set<Prior>, incomplete: bool)
    requires RunTells(run, one) && Rounds.FixAt(one, start, reached, pending, incomplete)
    ensures Tells(Rounds.StarOf(one), start, Fix(run, reached, pending, incomplete), false)
    decreases AllPriors - reached, pending
  {
    if pending == {} {
      FixTells(one, start, reached, incomplete);
    } else {
      var r := run(pending);
      FixNext(one, start, reached, pending, incomplete, r);
      if r.States? {
        FixProgress(reached, r.states - reached);
        FixExactly(run, one, start, reached + (r.states - reached), r.states - reached, incomplete || r.incomplete);
      }
    }
  }

  // ----- The main theorem. -----

  /** For every trace and every set of states the runner tells exactly what some way through the trace does. */
  lemma {:induction false} RunExactly(m: Monitor, t: Trace, states: set<Prior>)
    ensures Tells(WaysOf(m, t), states, Run(m, t, states), false)
    decreases t, 0, states, states
  {
    if states != {} {
      match t
      case Event(e) => EventTells(m, e, states);
      case Seq(parts) =>
        RunSeqExactly(m, parts, states, false);
        SameTells(SeqWaysOf(m, parts), WaysOf(m, t), states, RunSeq(m, parts, states, false), false);
      case Choice(parts) =>
        if parts == [] {
          StuckTells(WaysOf(m, t), states);
        } else {
          RunChoiceExactly(m, parts, states);
          SameTells(SomeWayOf(m, parts), WaysOf(m, t), states, RunChoice(m, parts, states), false);
        }
      case Repeat(inner) => RunRepeatExactly(m, inner, states);
      case _ => OpaqueExactly(m, t, states);
    }
  }

  lemma {:induction false} RunSeqExactly(m: Monitor, ts: seq<Trace>, states: set<Prior>, incomplete: bool)
    ensures Tells(SeqWaysOf(m, ts), states, RunSeq(m, ts, states, incomplete), incomplete)
    decreases ts, 1, states, states
  {
    if ts == [] {
      KeptTells(SeqWaysOf(m, ts), states, incomplete);
    } else {
      var a := Run(m, ts[0], states);
      RunExactly(m, ts[0], states);
      var b := Violation;
      if a.States? {
        RunSeqExactly(m, ts[1..], a.states, incomplete || a.incomplete);
        b := RunSeq(m, ts[1..], a.states, incomplete || a.incomplete);
      }
      SeqThen(m, ts);
      ThenTells(WaysOf(m, ts[0]), SeqWaysOf(m, ts[1..]), SeqWaysOf(m, ts), states, a, b, incomplete);
    }
  }

  lemma SeqThen(m: Monitor, ts: seq<Trace>)
    requires ts != []
    ensures Rounds.Then(WaysOf(m, ts[0]), SeqWaysOf(m, ts[1..]), SeqWaysOf(m, ts))
  {
    var first, second := WaysOf(m, ts[0]), SeqWaysOf(m, ts[1..]);
    forall p, o
      ensures SeqWaysOf(m, ts)(p, o) <==> Rounds.Via(first, second, p, o) || (!o.Ended? && first(p, o))
    {
      if q :| Ways(m, ts[0], p, Rounds.Ended(q)) && SeqWays(m, ts[1..], q, o) {
        assert first(p, Rounds.Ended(q)) && second(q, o);
      }
      if q :| first(p, Rounds.Ended(q)) && second(q, o) {
        assert Ways(m, ts[0], p, Rounds.Ended(q)) && SeqWays(m, ts[1..], q, o);
      }
    }
  }

  lemma {:induction false} RunChoiceExactly(m: Monitor, ts: seq<Trace>, states: set<Prior>)
    ensures Tells(SomeWayOf(m, ts), states, RunChoice(m, ts, states), false)
    decreases ts, 1, states, states
  {
    if ts != [] {
      RunExactly(m, ts[0], states);
      RunChoiceExactly(m, ts[1..], states);
      OrTells(WaysOf(m, ts[0]), SomeWayOf(m, ts[1..]), SomeWayOf(m, ts), states, Run(m, ts[0], states), RunChoice(m, ts[1..], states));
    }
  }

  lemma {:induction false} RunRepeatExactly(m: Monitor, inner: Trace, states: set<Prior>)
    requires states != {}
    ensures Tells(WaysOf(m, Repeat(inner)), states, Run(m, Repeat(inner), states), false)
    decreases inner, 9, states, states
  {
    SilentExactly(m, inner);
    if Silent(m, inner) {
      KeptTells(WaysOf(m, Repeat(inner)), states, false);
    } else {
      var once, r := WaysOf(m, Unwrap(inner)), RunFix(m, Unwrap(inner), states, states, false);
      assert Run(m, Repeat(inner), states) == r;
      assert Tells(Rounds.StarOf(once), states, r, false) by {
        var run := (s: set<Prior>) => Run(m, Unwrap(inner), s);
        forall s: set<Prior>
          ensures Tells(once, s, run(s), false)
        {
          RunExactly(m, Unwrap(inner), s);
        }
        Rounds.FixStart(once, states);
        FixExactly(run, once, states, states, states, false);
        RunFixIsFix(m, Unwrap(inner), run, states, states, false);
      }
      UnwrappedWays(m, inner);
      SameTells(Rounds.StarOf(once), WaysOf(m, Repeat(inner)), states, r, false);
    }
  }

  lemma UnwrappedWays(m: Monitor, inner: Trace)
    requires !Silent(m, inner)
    ensures Rounds.Same(Rounds.StarOf(WaysOf(m, Unwrap(inner))), WaysOf(m, Repeat(inner)))
  {
    RepeatWays(m, inner);
    forall p, o
      ensures Rounds.StarOf(WaysOf(m, Unwrap(inner)))(p, o) <==> Rounds.StarOf(WaysOf(m, inner))(p, o)
    {
      UnwrapWays(m, inner, p, o);
    }
  }

  /**
   * For every trace: a violation exactly when some way meets a target without a guard; otherwise unknown
   * exactly when some way is stuck; otherwise satisfied exactly when no action surely matches the target.
   */
  lemma RequireBeforeExactly(m: Monitor, t: Trace)
    ensures RequireBefore(m, t).MonitorViolation? <==> Ways(m, t, NoGuard, Rounds.Bad)
    ensures RequireBefore(m, t).Unknown? <==> !Ways(m, t, NoGuard, Rounds.Bad) && Ways(m, t, NoGuard, Rounds.Stuck)
    ensures RequireBefore(m, t).Satisfied? <==>
              && !Ways(m, t, NoGuard, Rounds.Bad) && !Ways(m, t, NoGuard, Rounds.Stuck)
              && forall a :: Act(a) in Letters(t) ==> !m.target.must(a)
  {
    RunExactly(m, t, {NoGuard});
    FromNoGuard(WaysOf(m, t), Run(m, t, {NoGuard}));
    VerdictOfRun(m, t, Run(m, t, {NoGuard}));
  }

  lemma VerdictOfRun(m: Monitor, t: Trace, r: TraceRun)
    requires r == Run(m, t, {NoGuard})
    ensures RequireBefore(m, t).MonitorViolation? <==> r.Violation?
    ensures RequireBefore(m, t).Unknown? <==> r.States? && r.incomplete
    ensures RequireBefore(m, t).Satisfied? <==>
              r.States? && !r.incomplete && forall a :: Act(a) in Letters(t) ==> !m.target.must(a)
  {
    forall a
      ensures a in Actions(t) <==> Act(a) in Letters(t)
    {
      ActionLetter(t, a);
    }
  }

  lemma FromNoGuard(one: Ways1, r: TraceRun)
    requires Tells(one, {NoGuard}, r, false)
    ensures r.Violation? <==> one(NoGuard, Rounds.Bad)
    ensures r.States? ==> (r.incomplete <==> one(NoGuard, Rounds.Stuck))
  {
    assert NoGuard in {NoGuard};
  }

  lemma ActionLetter(t: Trace, a: Effect)
    ensures a in Actions(t) <==> Act(a) in Letters(t)
  {
    assert a in Actions(t) <==> Act(a) in ActLetters(Actions(t));
  }
}
