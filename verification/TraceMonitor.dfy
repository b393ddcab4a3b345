/** The static prior-evidence monitor over traces (trace_spec/monitor/runner.rs). */
module TraceMonitor {
  import opened Prelude
  import opened Effects
  import opened Traces
  import opened Words
  import opened TraceOps
  import opened TraceWorklists
  import opened TracePruning

  /** What the registry can tell about a pattern: a proven match, and a match it cannot exclude. */
  datatype Pattern = Pattern(must: Effect -> bool, may: Effect -> bool)

  ghost predicate Coherent(p: Pattern)
  {
    forall a :: p.must(a) ==> p.may(a)
  }

  /** `truth` decides every uncertain match of `p` one way or the other. */
  ghost predicate Resolves(truth: Effect -> bool, p: Pattern)
  {
    forall a :: (p.must(a) ==> truth(a)) && (truth(a) ==> p.may(a))
  }

  datatype Monitor = Monitor(guard: Pattern, target: Pattern)

  /**
   * A state records whether a guard was requested before. The evidence automaton itself stays active
   * in every surviving state, because a step into its rejecting state is reported at once.
   */
  datatype Prior = NoGuard | GuardSeen

  const AllPriors := {NoGuard, GuardSeen}

  function Note(p: Prior, guard: bool): Prior
  {
    if guard then GuardSeen else p
  }

  datatype TraceRun = States(states: set<Prior>, incomplete: bool) | Violation

  function Known(states: set<Prior>): TraceRun
  {
    States(states, false)
  }

  const UnknownRun := States({}, true)

  predicate Relevant(m: Monitor, actions: set<Effect>)
  {
    exists a :: a in actions && (m.target.may(a) || m.guard.may(a))
  }

  /** Nothing in the trace can touch the guard, the target or an unknown callback. */
  predicate Irrelevant(m: Monitor, t: Trace)
  {
    Calls(t) == [] && !Relevant(m, Actions(t))
  }

  function Uncertain(p: Pattern, a: Effect): bool
  {
    !p.must(a) && p.may(a)
  }

  function StepEvent(m: Monitor, a: Effect, states: set<Prior>): TraceRun
  {
    if Uncertain(m.guard, a) || Uncertain(m.target, a) then UnknownRun
    else if m.target.must(a) && NoGuard in states then Violation
    else Known(set p | p in states :: Note(p, m.guard.must(a)))
  }

  function Unwrap(t: Trace): (r: Trace)
    ensures !r.Repeat? && (r == t || r < t)
  {
    if t.Repeat? then Unwrap(t.inner) else t
  }

  function Run(m: Monitor, t: Trace, states: set<Prior>): TraceRun
    decreases t, 0, states, states
  {
    if states == {} then Known(states)
    else
      match t
      case Empty => Known(states)
      case Event(e) => StepEvent(m, e.action, states)
      case ParameterCall(_) => UnknownRun
      case TaskAwait(_) => Known(states)
      case TaskStart(_, inner) => if Irrelevant(m, inner) then Known(states) else UnknownRun
      case Parallel(_) => if Irrelevant(m, t) then Known(states) else UnknownRun
      case Seq(parts) => RunSeq(m, parts, states, false)
      case Choice(parts) => if parts == [] then UnknownRun else RunChoice(m, parts, states)
      case Repeat(inner) =>
        if Irrelevant(m, inner) then Known(states) else RunFix(m, Unwrap(inner), states, states, false)
      case UnknownOrder(actions) => if Relevant(m, actions) then UnknownRun else Known(states)
      case Widened(actions, calls) => if calls != [] || Relevant(m, actions) then UnknownRun else Known(states)
  }

  function RunSeq(m: Monitor, ts: seq<Trace>, states: set<Prior>, incomplete: bool): TraceRun
    decreases ts, 1, states, states
  {
    if ts == [] then States(states, incomplete)
    else
      match Run(m, ts[0], states)
      case Violation => Violation
      case States(next, more) => RunSeq(m, ts[1..], next, incomplete || more)
  }

  function RunChoice(m: Monitor, ts: seq<Trace>, states: set<Prior>): TraceRun
    decreases ts, 1, states, states
  {
    if ts == [] then Known({})
    else JoinRuns(Run(m, ts[0], states), RunChoice(m, ts[1..], states))
  }

  function JoinRuns(a: TraceRun, b: TraceRun): TraceRun
  {
    if a.Violation? || b.Violation? then Violation
    else States(a.states + b.states, a.incomplete || b.incomplete)
  }

  lemma FixProgress(reached: set<Prior>, newly: set<Prior>)
    requires newly !! reached
    ensures newly == {} ==> reached + newly == reached
    ensures newly != {} ==> AllPriors - (reached + newly) < AllPriors - reached
  {
    if newly != {} {
      var x :| x in newly;
      assert x == NoGuard || x == GuardSeen;
      assert x in AllPriors - reached && x !in AllPriors - (reached + newly);
    }
  }

  /** The fixpoint over the reached states; only newly reached states are run again. */
  function RunFix(m: Monitor, inner: Trace, reached: set<Prior>, pending: set<Prior>, incomplete: bool): TraceRun
    decreases inner, 1, AllPriors - reached, pending
  {
    if pending == {} then States(reached, incomplete)
    else
      match Run(m, inner, pending)
      case Violation => Violation
      case States(next, more) =>
        var newly := next - reached;
        FixProgress(reached, newly);
        RunFix(m, inner, reached + newly, newly, incomplete || more)
  }

  datatype MonitorResult = Satisfied | MonitorViolation | NeedsOutcomeEvidence | Unknown

  function RequireBefore(m: Monitor, t: Trace): MonitorResult
  {
    match Run(m, t, {NoGuard})
    case Violation => MonitorViolation
    case States(_, incomplete) =>
      if incomplete then Unknown
      else if exists a :: a in Actions(t) && m.target.must(a) then NeedsOutcomeEvidence
      else Satisfied
  }

  // ----- The loops of the source compute these functions. -----

  method RunByLoops(m: Monitor, t: Trace, states: set<Prior>) returns (r: TraceRun)
    ensures r == Run(m, t, states)
    decreases t
  {
    if states == {} {
      return Known(states);
    }
    if t.Seq? {
      r := SeqByLoop(m, t, states);
    } else if t.Choice? {
      if t.parts == [] {
        return UnknownRun;
      }
      r := ChoiceByLoop(m, t, states);
    } else if t.Repeat? {
      var actions := CollectActions(t.inner, {});
      var calls := HasParameterCalls(t.inner);
      if !calls && !Relevant(m, actions) {
        return Known(states);
      }
      r := RepeatByLoop(m, t, states);
    } else if t.Event? {
      r := StepByLoop(m, t.event.action, states);
    } else {
      r := Run(m, t, states);
    }
  }

  method StepByLoop(m: Monitor, a: Effect, states: set<Prior>) returns (r: TraceRun)
    ensures r == StepEvent(m, a, states)
  {
    if Uncertain(m.guard, a) || Uncertain(m.target, a) {
      return UnknownRun;
    }
    var next := {};
    var todo := states;
    while todo != {}
      invariant todo <= states
      invariant m.target.must(a) ==> NoGuard !in states - todo
      invariant next == set p | p in states - todo :: Note(p, m.guard.must(a))
      decreases todo
    {
      var p :| p in todo;
      if m.target.must(a) && p.NoGuard? {
        return Violation;
      }
      next := next + {Note(p, m.guard.must(a))};
      todo := todo - {p};
    }
    r := Known(next);
  }

  method SeqByLoop(m: Monitor, t: Trace, states: set<Prior>) returns (r: TraceRun)
    requires t.Seq?
    ensures r == RunSeq(m, t.parts, states, false)
    decreases t, 0
  {
    var parts := t.parts;
    var current, incomplete := states, false;
    assert parts[0..] == parts;
    for i := 0 to |parts|
      invariant RunSeq(m, parts[i..], current, incomplete) == RunSeq(m, parts, states, false)
    {
      assert parts[i..][1..] == parts[i + 1..];
      var next := RunByLoops(m, parts[i], current);
      if next.Violation? {
        return Violation;
      }
      current, incomplete := next.states, incomplete || next.incomplete;
    }
    r := States(current, incomplete);
  }

  method ChoiceByLoop(m: Monitor, t: Trace, states: set<Prior>) returns (r: TraceRun)
    requires t.Choice?
    ensures r == RunChoice(m, t.parts, states)
    decreases t, 0
  {
    var parts := t.parts;
    var joined, incomplete := {}, false;
    assert parts[0..] == parts;
    for i := 0 to |parts|
      invariant JoinRuns(States(joined, incomplete), RunChoice(m, parts[i..], states)) == RunChoice(m, parts, states)
    {
      assert parts[i..][1..] == parts[i + 1..];
      var next := RunByLoops(m, parts[i], states);
      if next.Violation? {
        return Violation;
      }
      assert JoinRuns(States(joined, incomplete), JoinRuns(next, RunChoice(m, parts[i + 1..], states)))
          == JoinRuns(JoinRuns(States(joined, incomplete), next), RunChoice(m, parts[i + 1..], states));
      joined, incomplete := joined + next.states, incomplete || next.incomplete;
    }
    r := States(joined, incomplete);
  }

  method RepeatByLoop(m: Monitor, t: Trace, states: set<Prior>) returns (r: TraceRun)
    requires t.Repeat?
    ensures r == RunFix(m, Unwrap(t.inner), states, states, false)
    decreases t, 0
  {
    var inner := t.inner;
    while inner.Repeat?
      invariant inner < t && Unwrap(inner) == Unwrap(t.inner)
      decreases inner
    {
      inner := inner.inner;
    }
    var reached, pending, incomplete := states, states, false;
    while pending != {}
      invariant RunFix(m, inner, reached, pending, incomplete) == RunFix(m, inner, states, states, false)
      decreases AllPriors - reached, pending
    {
      var next := RunByLoops(m, inner, pending);
      if next.Violation? {
        return Violation;
      }
      incomplete := incomplete || next.incomplete;
      FixProgress(reached, next.states - reached);
      pending := next.states - reached;
      reached := reached + pending;
    }
    r := States(reached, incomplete);
  }

  // ----- The temporal property on words. -----

  /** Every target letter of `w` comes strictly after a guard letter, or after one seen before `w`. */
  ghost predicate Safe(w: Word, prior: Prior, guard: Effect -> bool, target: Effect -> bool)
  {
    w == [] ||
    (if w[0].Act? then
       (target(w[0].action) ==> prior.GuardSeen?) && Safe(w[1..], Note(prior, guard(w[0].action)), guard, target)
     else Safe(w[1..], prior, guard, target))
  }

  /** Each later letter has an earlier letter somewhere before it. */
  ghost predicate Preceded(w: Word, later: Effect -> bool, earlier: Effect -> bool)
  {
    forall k :: 0 <= k < |w| && w[k].Act? && later(w[k].action) ==> EarlierThan(w, k, earlier)
  }

  /** The stepwise property is the positional one, up to a guard seen before the word. */
  lemma {:induction false} SafeByPosition(w: Word, prior: Prior, guard: Effect -> bool, target: Effect -> bool)
    ensures Safe(w, prior, guard, target) <==> prior.GuardSeen? || Preceded(w, target, guard)
    decreases |w|
  {
    if w != [] {
      var next := if w[0].Act? then Note(prior, guard(w[0].action)) else prior;
      SafeByPosition(w[1..], next, guard, target);
      if prior.NoGuard? {
        PrecededTail(w, target, guard);
      }
    }
  }

  ghost predicate EarlierThan(w: Word, k: nat, earlier: Effect -> bool)
    requires k <= |w|
  {
    exists j :: 0 <= j < k && w[j].Act? && earlier(w[j].action)
  }

  lemma EarlierShift(w: Word, k: nat, earlier: Effect -> bool)
    requires 0 < k <= |w|
    ensures EarlierThan(w, k, earlier) <==> (w[0].Act? && earlier(w[0].action)) || EarlierThan(w[1..], k - 1, earlier)
  {
    var v := w[1..];
    if j :| 0 <= j < k && w[j].Act? && earlier(w[j].action) {
      if j > 0 {
        assert v[j - 1] == w[j];
      }
    }
    if j :| 0 <= j < k - 1 && v[j].Act? && earlier(v[j].action) {
      assert w[j + 1] == v[j];
    }
  }

  lemma PrecededTail(w: Word, later: Effect -> bool, earlier: Effect -> bool)
    requires w != []
    ensures Preceded(w, later, earlier) <==>
              !(w[0].Act? && later(w[0].action)) && ((w[0].Act? && earlier(w[0].action)) || Preceded(w[1..], later, earlier))
  {
    var v := w[1..];
    forall k | 0 < k < |w|
      ensures v[k - 1] == w[k]
      ensures EarlierThan(w, k, earlier) <==> (w[0].Act? && earlier(w[0].action)) || EarlierThan(v, k - 1, earlier)
    {
      EarlierShift(w, k, earlier);
    }
    if Preceded(w, later, earlier) && !(w[0].Act? && earlier(w[0].action)) {
      forall k | 0 <= k < |v| && v[k].Act? && later(v[k].action)
        ensures EarlierThan(v, k, earlier)
      {
        assert w[k + 1] == v[k] && EarlierThan(w, k + 1, earlier);
      }
    }
    if !(w[0].Act? && later(w[0].action)) && ((w[0].Act? && earlier(w[0].action)) || Preceded(v, later, earlier)) {
      forall k | 0 <= k < |w| && w[k].Act? && later(w[k].action)
        ensures EarlierThan(w, k, earlier)
      {
        assert v[k - 1] == w[k];
      }
    }
  }

  ghost function After(w: Word, prior: Prior, guard: Effect -> bool): Prior
  {
    Note(prior, exists a :: Act(a) in w && guard(a))
  }

  lemma {:induction false} SafeAppend(u: Word, v: Word, prior: Prior, guard: Effect -> bool, target: Effect -> bool)
    ensures Safe(u + v, prior, guard, target)
       <==> Safe(u, prior, guard, target) && Safe(v, After(u, prior, guard), guard, target)
  {
    if u == [] {
      assert u + v == v;
    } else {
      assert (u + v)[1..] == u[1..] + v;
      HeadOrTail(u);
      var prior1 := if u[0].Act? then Note(prior, guard(u[0].action)) else prior;
      SafeAppend(u[1..], v, prior1, guard, target);
      assert After(u[1..], prior1, guard) == After(u, prior, guard);
    }
  }

  lemma AfterAppend(u: Word, v: Word, prior: Prior, guard: Effect -> bool)
    ensures After(u + v, prior, guard) == After(v, After(u, prior, guard), guard)
  {
    assert forall l :: l in u + v <==> l in u || l in v;
  }

  /** `w` has no unknown callback, and each of its letters is decided for the target. */
  ghost predicate Decided(w: Word, m: Monitor, target: Effect -> bool)
  {
    forall l :: l in w ==> l.Act? && (target(l.action) <==> m.target.must(l.action))
  }

  /** Whatever the uncertain matches are, words of `t` from `p` are safe and end in `out`. */
  ghost predicate SafeFrom(m: Monitor, t: Trace, p: Prior, out: set<Prior>)
  {
    forall w, g, h :: In(w, t) && Resolves(g, m.guard) && Resolves(h, m.target) ==>
      Decided(w, m, h) && Safe(w, p, g, h) && After(w, p, g) in out
  }

  ghost predicate Covers(m: Monitor, t: Trace, states: set<Prior>, out: set<Prior>)
  {
    forall p :: p in states ==> SafeFrom(m, t, p, out)
  }

  /** Some word of `t` leads from `p` to `q`, whatever the uncertain matches are. */
  ghost predicate Reaches(m: Monitor, t: Trace, p: Prior, q: Prior)
  {
    exists w :: In(w, t) && LeadsTo(m, w, p, q)
  }

  ghost predicate LeadsTo(m: Monitor, w: Word, p: Prior, q: Prior)
  {
    forall g :: Resolves(g, m.guard) ==> After(w, p, g) == q
  }

  /** Some word of `t` from `p` breaks the property, whatever the uncertain matches are. */
  ghost predicate Breaks(m: Monitor, t: Trace, p: Prior)
  {
    exists w :: In(w, t) && Unsafe(m, w, p)
  }

  ghost predicate Unsafe(m: Monitor, w: Word, p: Prior)
  {
    forall g, h :: Resolves(g, m.guard) && Resolves(h, m.target) ==> !Safe(w, p, g, h)
  }

  /** What the result of a run from `states` promises about the words of `t`. */
  ghost predicate Correct(m: Monitor, t: Trace, states: set<Prior>, r: TraceRun)
  {
    && (r.States? && !r.incomplete ==> Covers(m, t, states, r.states))
    && (NoEmptyChoice(t) ==> Definite(m, t, states, r))
  }

  /** A violation is a real word; every reported state is really reached. */
  ghost predicate Definite(m: Monitor, t: Trace, states: set<Prior>, r: TraceRun)
  {
    match r
    case Violation => exists p :: p in states && Breaks(m, t, p)
    case States(out, _) => forall q :: q in out ==> exists p :: p in states && Reaches(m, t, p, q)
  }

  // ----- Skipping a trace that cannot touch guard or target. -----

  lemma {:induction false} QuietWord(w: Word, p: Prior, g: Effect -> bool, h: Effect -> bool)
    requires forall l :: l in w ==> l.Act? && !g(l.action) && !h(l.action)
    ensures Safe(w, p, g, h) && After(w, p, g) == p
  {
    if w != [] {
      assert w[0] in w;
      QuietWord(w[1..], p, g, h);
    }
  }

  lemma {:induction false} SkipCorrect(m: Monitor, t: Trace, states: set<Prior>)
    requires Irrelevant(m, t)
    ensures Correct(m, t, states, Known(states))
  {
    forall p, w, g, h | p in states && In(w, t) && Resolves(g, m.guard) && Resolves(h, m.target)
      ensures Decided(w, m, h) && Safe(w, p, g, h) && After(w, p, g) in states
    {
      QuietLetters(m, w, t, g, h);
      QuietWord(w, p, g, h);
    }
    if NoEmptyChoice(t) {
      var w := SomeWord(t);
      forall q | q in states
        ensures Reaches(m, t, q, q)
      {
        forall g | Resolves(g, m.guard)
          ensures After(w, q, g) == q
        {
          QuietGuard(m, w, t, g);
        }
        assert LeadsTo(m, w, q, q);
      }
    }
  }

  lemma QuietLetters(m: Monitor, w: Word, t: Trace, g: Effect -> bool, h: Effect -> bool)
    requires Irrelevant(m, t) && In(w, t) && Resolves(g, m.guard) && Resolves(h, m.target)
    ensures forall l :: l in w ==> l.Act? && !g(l.action) && !h(l.action)
    ensures Decided(w, m, h)
  {
    WordsOverLetters(w, t);
    assert CallLetters([]) == {};
    forall l | l in w
      ensures l.Act? && !g(l.action) && !h(l.action) && !m.target.must(l.action)
    {
      assert l in ActLetters(Actions(t));
      assert l.action in Actions(t);
      assert !(m.target.may(l.action) || m.guard.may(l.action));
    }
  }

  lemma QuietGuard(m: Monitor, w: Word, t: Trace, g: Effect -> bool)
    requires Irrelevant(m, t) && In(w, t) && Resolves(g, m.guard)
    ensures forall a :: Act(a) in w ==> !g(a)
  {
    WordsOverLetters(w, t);
    assert CallLetters([]) == {};
    forall a | Act(a) in w
      ensures !g(a)
    {
      assert Act(a) in ActLetters(Actions(t));
      assert a in Actions(t);
    }
  }

  // ----- One event. -----

  lemma EventWord(a: Effect, p: Prior, g: Effect -> bool, h: Effect -> bool)
    ensures Safe([Act(a)], p, g, h) <==> (h(a) ==> p.GuardSeen?)
    ensures After([Act(a)], p, g) == Note(p, g(a))
  {
    assert [Act(a)][1..] == [];
    assert Act(a) in [Act(a)];
  }

  lemma {:induction false} EventCorrect(m: Monitor, e: ActionEvent, states: set<Prior>)
    ensures Correct(m, Event(e), states, StepEvent(m, e.action, states))
  {
    var a, t, w := e.action, Event(e), [Act(e.action)];
    var r := StepEvent(m, a, states);
    if !Uncertain(m.guard, a) && !Uncertain(m.target, a) {
      forall p, g, h | p in states && Resolves(g, m.guard) && Resolves(h, m.target)
        ensures Safe(w, p, g, h) <==> (m.target.must(a) ==> p.GuardSeen?)
        ensures After(w, p, g) == Note(p, m.guard.must(a))
        ensures Decided(w, m, h)
      {
        EventWord(a, p, g, h);
      }
      assert In(w, t);
      if r.Violation? {
        assert Unsafe(m, w, NoGuard);
        assert Breaks(m, t, NoGuard);
      } else {
        forall q | q in r.states
          ensures exists p :: p in states && Reaches(m, t, p, q)
        {
          var p :| p in states && q == Note(p, m.guard.must(a));
          EventLeads(m, a, p);
          assert LeadsTo(m, w, p, q);
          assert Reaches(m, t, p, q);
        }
      }
    }
  }

  lemma EventLeads(m: Monitor, a: Effect, p: Prior)
    requires !Uncertain(m.guard, a)
    ensures LeadsTo(m, [Act(a)], p, Note(p, m.guard.must(a)))
  {
    forall g | Resolves(g, m.guard)
      ensures After([Act(a)], p, g) == Note(p, m.guard.must(a))
    {
      EventWord(a, p, g, g);
    }
  }

  // ----- Sequences. -----

  lemma SeqCovers(m: Monitor, done: seq<Trace>, t: Trace, states: set<Prior>, mid: set<Prior>, out: set<Prior>)
    requires Covers(m, Seq(done), states, mid) && Covers(m, t, mid, out)
    ensures Covers(m, Seq(done + [t]), states, out)
  {
    forall p, w, g, h | p in states && In(w, Seq(done + [t])) && Resolves(g, m.guard) && Resolves(h, m.target)
      ensures Decided(w, m, h) && Safe(w, p, g, h) && After(w, p, g) in out
    {
      var u, v := SeqSplit(w, done, [t]);
      SeqOne(v, t);
      assert SafeFrom(m, Seq(done), p, mid);
      assert In(u, Seq(done));
      assert SafeFrom(m, t, After(u, p, g), out);
      SafeAppend(u, v, p, g, h);
      AfterAppend(u, v, p, g);
    }
  }

  lemma SeqReaches(m: Monitor, done: seq<Trace>, t: Trace, p: Prior, q: Prior, q2: Prior)
    requires Reaches(m, Seq(done), p, q) && Reaches(m, t, q, q2)
    ensures Reaches(m, Seq(done + [t]), p, q2)
  {
    var u :| In(u, Seq(done)) && LeadsTo(m, u, p, q);
    var v :| In(v, t) && LeadsTo(m, v, q, q2);
    SeqOne(v, t);
    SeqConcat(u, v, done, [t]);
    forall g | Resolves(g, m.guard)
      ensures After(u + v, p, g) == q2
    {
      AfterAppend(u, v, p, g);
    }
    assert LeadsTo(m, u + v, p, q2);
  }

  lemma SeqBreaks(m: Monitor, done: seq<Trace>, t: Trace, rest: seq<Trace>, p: Prior, q: Prior)
    requires Reaches(m, Seq(done), p, q) && Breaks(m, t, q)
    requires AllNoEmptyChoice(rest)
    ensures Breaks(m, Seq(done + [t] + rest), p)
  {
    var u :| In(u, Seq(done)) && LeadsTo(m, u, p, q);
    var v :| In(v, t) && Unsafe(m, v, q);
    var x := SomeSeqWord(rest);
    SeqOne(v, t);
    SeqConcat(u, v, done, [t]);
    SeqConcat(u + v, x, done + [t], rest);
    forall g, h | Resolves(g, m.guard) && Resolves(h, m.target)
      ensures !Safe(u + v + x, p, g, h)
    {
      SafeAppend(u, v, p, g, h);
      SafeAppend(u + v, x, p, g, h);
    }
    assert Unsafe(m, u + v + x, p);
  }

  /** What is known after the parts `done` of a sequence. */
  ghost predicate SeqState(m: Monitor, done: seq<Trace>, start: set<Prior>, current: set<Prior>, incomplete: bool)
  {
    Correct(m, Seq(done), start, States(current, incomplete))
  }

  lemma {:induction false} SeqStart(m: Monitor, start: set<Prior>)
    ensures SeqState(m, [], start, start, false)
  {
    forall p, w, g, h | p in start && In(w, Seq([])) && Resolves(g, m.guard) && Resolves(h, m.target)
      ensures Decided(w, m, h) && Safe(w, p, g, h) && After(w, p, g) in start
    {
    }
    forall p | p in start
      ensures Reaches(m, Seq([]), p, p)
    {
      assert In([], Seq([])) && LeadsTo(m, [], p, p);
    }
  }

  lemma {:induction false} RunSeqCorrect(m: Monitor, done: seq<Trace>, ts: seq<Trace>, start: set<Prior>, current: set<Prior>, incomplete: bool)
    requires SeqState(m, done, start, current, incomplete)
    ensures Correct(m, Seq(done + ts), start, RunSeq(m, ts, current, incomplete))
    decreases ts, 1, current, current
  {
    if ts == [] {
      assert done + ts == done;
    } else {
      var t, rest := ts[0], ts[1..];
      var r := Run(m, t, current);
      RunCorrect(m, t, current);
      assert done + ts == (done + [t]) + rest;
      assert (done + ts)[|done|] == t;
      AllNoEmptyChoiceMember(done + ts);
      AllNoEmptyChoiceMember(done);
      AllNoEmptyChoiceMember(rest);
      AllNoEmptyChoiceMember(done + [t]);
      if r.Violation? {
        if NoEmptyChoice(Seq(done + ts)) {
          assert AllNoEmptyChoice(done + ts) && t in done + ts;
          assert Definite(m, t, current, r);
          var q :| q in current && Breaks(m, t, q);
          var p :| p in start && Reaches(m, Seq(done), p, q);
          SeqBreaks(m, done, t, rest, p, q);
        }
      } else {
        SeqStepState(m, done, t, start, current, incomplete, r);
        RunSeqCorrect(m, done + [t], rest, start, r.states, incomplete || r.incomplete);
      }
    }
  }

  lemma {:induction false} SeqStepState(m: Monitor, done: seq<Trace>, t: Trace, start: set<Prior>, current: set<Prior>, incomplete: bool, r: TraceRun)
    requires SeqState(m, done, start, current, incomplete) && r.States? && Correct(m, t, current, r)
    ensures SeqState(m, done + [t], start, r.states, incomplete || r.incomplete)
  {
    if !incomplete && !r.incomplete {
      SeqCovers(m, done, t, start, current, r.states);
    }
    if NoEmptyChoice(Seq(done + [t])) {
      AllNoEmptyChoiceMember(done + [t]);
      AllNoEmptyChoiceMember(done);
      assert t in done + [t];
      forall q2 | q2 in r.states
        ensures exists p :: p in start && Reaches(m, Seq(done + [t]), p, q2)
      {
        var q :| q in current && Reaches(m, t, q, q2);
        var p :| p in start && Reaches(m, Seq(done), p, q);
        SeqReaches(m, done, t, p, q, q2);
      }
    }
  }

  // ----- Choices. -----

  lemma {:induction false} RunChoiceCorrect(m: Monitor, ts: seq<Trace>, states: set<Prior>)
    ensures Correct(m, Choice(ts), states, RunChoice(m, ts, states)) || ts == []
    ensures RunChoice(m, ts, states).States? && !RunChoice(m, ts, states).incomplete ==>
              Covers(m, Choice(ts), states, RunChoice(m, ts, states).states)
    ensures AllNoEmptyChoice(ts) ==> Definite(m, Choice(ts), states, RunChoice(m, ts, states))
    decreases ts, 1, states, states
  {
    if ts == [] {
      forall w
        ensures !In(w, Choice(ts))
      {
        assert !InSome(w, ts);
      }
    } else {
      var a, b := Run(m, ts[0], states), RunChoice(m, ts[1..], states);
      RunCorrect(m, ts[0], states);
      RunChoiceCorrect(m, ts[1..], states);
      if a.States? && b.States? && !a.incomplete && !b.incomplete {
        ChoiceCovers(m, ts, states, a.states, b.states);
      }
      if AllNoEmptyChoice(ts) {
        ChoiceDefinite(m, ts, states, a, b);
      }
    }
  }

  lemma ChoiceCovers(m: Monitor, ts: seq<Trace>, states: set<Prior>, a: set<Prior>, b: set<Prior>)
    requires ts != [] && Covers(m, ts[0], states, a) && Covers(m, Choice(ts[1..]), states, b)
    ensures Covers(m, Choice(ts), states, a + b)
  {
    forall p, w, g, h | p in states && In(w, Choice(ts)) && Resolves(g, m.guard) && Resolves(h, m.target)
      ensures Decided(w, m, h) && Safe(w, p, g, h) && After(w, p, g) in a + b
    {
      assert InSome(w, ts);
      var i :| 0 <= i < |ts| && In(w, ts[i]);
      if i == 0 {
        assert SafeFrom(m, ts[0], p, a);
      } else {
        assert In(w, ts[1..][i - 1]);
        assert In(w, Choice(ts[1..]));
        assert SafeFrom(m, Choice(ts[1..]), p, b);
      }
    }
  }

  lemma ChoiceContains(w: Word, ts: seq<Trace>)
    requires ts != [] && (In(w, ts[0]) || In(w, Choice(ts[1..])))
    ensures In(w, Choice(ts))
  {
    if !In(w, ts[0]) {
      assert InSome(w, ts[1..]);
      var i :| 0 <= i < |ts[1..]| && In(w, ts[1..][i]);
      assert In(w, ts[i + 1]);
    }
  }

  lemma ChoiceDefinite(m: Monitor, ts: seq<Trace>, states: set<Prior>, a: TraceRun, b: TraceRun)
    requires ts != [] && Definite(m, ts[0], states, a) && Definite(m, Choice(ts[1..]), states, b)
    ensures Definite(m, Choice(ts), states, JoinRuns(a, b))
  {
    if a.Violation? {
      var p :| p in states && Breaks(m, ts[0], p);
      var w :| In(w, ts[0]) && Unsafe(m, w, p);
      ChoiceContains(w, ts);
      assert Breaks(m, Choice(ts), p);
    } else if b.Violation? {
      var p :| p in states && Breaks(m, Choice(ts[1..]), p);
      var w :| In(w, Choice(ts[1..])) && Unsafe(m, w, p);
      ChoiceContains(w, ts);
      assert Breaks(m, Choice(ts), p);
    } else {
      forall q | q in a.states + b.states
        ensures exists p :: p in states && Reaches(m, Choice(ts), p, q)
      {
        var part := if q in a.states then ts[0] else Choice(ts[1..]);
        var p :| p in states && Reaches(m, part, p, q);
        var w :| In(w, part) && LeadsTo(m, w, p, q);
        ChoiceContains(w, ts);
        assert Reaches(m, Choice(ts), p, q);
      }
    }
  }

  // ----- Repetition. -----

  /** A set of states closed under one iteration is closed under all of them. */
  lemma {:induction false} StarSafe(m: Monitor, t: Trace, w: Word, p: Prior, closed: set<Prior>, g: Effect -> bool, h: Effect -> bool)
    requires Covers(m, t, closed, closed) && p in closed && InStar(w, t)
    requires Resolves(g, m.guard) && Resolves(h, m.target)
    ensures Decided(w, m, h) && Safe(w, p, g, h) && After(w, p, g) in closed
    decreases |w|
  {
    if w != [] {
      var u, v := StarUncons(w, t);
      assert SafeFrom(m, t, p, closed);
      StarSafe(m, t, v, After(u, p, g), closed, g, h);
      SafeAppend(u, v, p, g, h);
      AfterAppend(u, v, p, g);
    }
  }

  lemma StarReaches(m: Monitor, t: Trace, p: Prior, q: Prior, q2: Prior)
    requires Reaches(m, Repeat(t), p, q) && Reaches(m, t, q, q2)
    ensures Reaches(m, Repeat(t), p, q2)
  {
    var u :| In(u, Repeat(t)) && LeadsTo(m, u, p, q);
    var v :| In(v, t) && LeadsTo(m, v, q, q2);
    StarOne(v, t);
    StarConcat(u, v, t);
    forall g | Resolves(g, m.guard)
      ensures After(u + v, p, g) == q2
    {
      AfterAppend(u, v, p, g);
    }
    assert In(u + v, Repeat(t)) && LeadsTo(m, u + v, p, q2);
  }

  lemma StarBreaks(m: Monitor, t: Trace, p: Prior, q: Prior)
    requires Reaches(m, Repeat(t), p, q) && Breaks(m, t, q)
    ensures Breaks(m, Repeat(t), p)
  {
    var u :| In(u, Repeat(t)) && LeadsTo(m, u, p, q);
    var v :| In(v, t) && Unsafe(m, v, q);
    StarOne(v, t);
    StarConcat(u, v, t);
    forall g, h | Resolves(g, m.guard) && Resolves(h, m.target)
      ensures !Safe(u + v, p, g, h)
    {
      SafeAppend(u, v, p, g, h);
    }
    assert In(u + v, Repeat(t)) && Unsafe(m, u + v, p);
  }

  /** Reached states that are no longer pending step into reached states. */
  ghost predicate FixSafe(m: Monitor, t: Trace, start: set<Prior>, reached: set<Prior>, pending: set<Prior>, incomplete: bool)
  {
    start <= reached && pending <= reached && (!incomplete ==> Covers(m, t, reached - pending, reached))
  }

  /** Every reached state is really reached by an iteration. */
  ghost predicate FixReal(m: Monitor, t: Trace, start: set<Prior>, reached: set<Prior>)
  {
    forall q :: q in reached ==> Rooted(m, Repeat(t), start, q)
  }

  ghost predicate Rooted(m: Monitor, t: Trace, start: set<Prior>, q: Prior)
  {
    exists p :: p in start && Reaches(m, t, p, q)
  }

  lemma {:induction false} FixStart(m: Monitor, t: Trace, start: set<Prior>)
    ensures FixSafe(m, t, start, start, start, false)
    ensures FixReal(m, t, start, start)
  {
    forall p | p in start
      ensures Rooted(m, Repeat(t), start, p)
    {
      assert In([], Repeat(t)) && LeadsTo(m, [], p, p);
      assert Reaches(m, Repeat(t), p, p);
    }
  }

  lemma {:induction false} FixStepSafe(m: Monitor, t: Trace, start: set<Prior>, reached: set<Prior>, pending: set<Prior>, next: set<Prior>)
    requires FixSafe(m, t, start, reached, pending, false) && Covers(m, t, pending, next)
    ensures FixSafe(m, t, start, reached + (next - reached), next - reached, false)
  {
    var newly := next - reached;
    var more := reached + newly;
    forall p | p in more - newly
      ensures SafeFrom(m, t, p, more)
    {
      if p in pending {
        SafeFromWider(m, t, p, next, more);
      } else {
        assert p in reached - pending;
        SafeFromWider(m, t, p, reached, more);
      }
    }
  }

  lemma SafeFromWider(m: Monitor, t: Trace, p: Prior, out: set<Prior>, wider: set<Prior>)
    requires SafeFrom(m, t, p, out) && out <= wider
    ensures SafeFrom(m, t, p, wider)
  {
  }

  lemma {:induction false} FixStepReal(m: Monitor, t: Trace, start: set<Prior>, reached: set<Prior>, pending: set<Prior>, r: TraceRun)
    requires FixReal(m, t, start, reached) && pending <= reached && r.States? && Definite(m, t, pending, r)
    ensures FixReal(m, t, start, reached + (r.states - reached))
  {
    forall q2 | q2 in r.states - reached
      ensures Rooted(m, Repeat(t), start, q2)
    {
      var q :| q in pending && Reaches(m, t, q, q2);
      assert Rooted(m, Repeat(t), start, q);
      var p :| p in start && Reaches(m, Repeat(t), p, q);
      StarReaches(m, t, p, q, q2);
    }
  }

  lemma {:induction false} RunFixSafe(m: Monitor, t: Trace, start: set<Prior>, reached: set<Prior>, pending: set<Prior>, incomplete: bool)
    requires FixSafe(m, t, start, reached, pending, incomplete)
    ensures var r := RunFix(m, t, reached, pending, incomplete);
            r.States? && !r.incomplete ==> Covers(m, Repeat(t), start, r.states)
    decreases t, 1, AllPriors - reached, pending
  {
    if pending == {} {
      if !incomplete {
        assert reached - pending == reached;
        FixDone(m, t, start, reached);
      }
    } else {
      var r := Run(m, t, pending);
      RunCorrect(m, t, pending);
      if r.States? {
        var newly := r.states - reached;
        FixProgress(reached, newly);
        if !incomplete && !r.incomplete {
          FixStepSafe(m, t, start, reached, pending, r.states);
        }
        RunFixSafe(m, t, start, reached + newly, newly, incomplete || r.incomplete);
      }
    }
  }

  lemma FixDone(m: Monitor, t: Trace, start: set<Prior>, reached: set<Prior>)
    requires start <= reached && Covers(m, t, reached, reached)
    ensures Covers(m, Repeat(t), start, reached)
  {
    forall p | p in start
      ensures SafeFrom(m, Repeat(t), p, reached)
    {
      forall w, g, h | In(w, Repeat(t)) && Resolves(g, m.guard) && Resolves(h, m.target)
        ensures Decided(w, m, h) && Safe(w, p, g, h) && After(w, p, g) in reached
      {
        StarSafe(m, t, w, p, reached, g, h);
      }
    }
  }

  lemma {:induction false} RunFixReal(m: Monitor, t: Trace, start: set<Prior>, reached: set<Prior>, pending: set<Prior>, incomplete: bool)
    requires NoEmptyChoice(t) && FixReal(m, t, start, reached) && pending <= reached
    ensures Definite(m, Repeat(t), start, RunFix(m, t, reached, pending, incomplete))
    decreases t, 1, AllPriors - reached, pending
  {
    if pending == {} {
      forall q | q in reached
        ensures exists p :: p in start && Reaches(m, Repeat(t), p, q)
      {
        assert Rooted(m, Repeat(t), start, q);
      }
    } else {
      var r := Run(m, t, pending);
      RunCorrect(m, t, pending);
      if r.Violation? {
        var q :| q in pending && Breaks(m, t, q);
        assert Rooted(m, Repeat(t), start, q);
        var p :| p in start && Reaches(m, Repeat(t), p, q);
        StarBreaks(m, t, p, q);
      } else {
        var newly := r.states - reached;
        FixProgress(reached, newly);
        FixStepReal(m, t, start, reached, pending, r);
        RunFixReal(m, t, start, reached + newly, newly, incomplete || r.incomplete);
      }
    }
  }

  lemma {:induction false} RunFixCorrect(m: Monitor, t: Trace, start: set<Prior>)
    ensures Correct(m, Repeat(t), start, RunFix(m, t, start, start, false))
    decreases t, 2, start, start
  {
    FixStart(m, t, start);
    RunFixSafe(m, t, start, start, start, false);
    if NoEmptyChoice(Repeat(t)) {
      RunFixReal(m, t, start, start, start, false);
    }
  }

  lemma {:induction false} UnwrapMeaning(w: Word, t: Trace)
    ensures InStar(w, t) <==> InStar(w, Unwrap(t))
    ensures NoEmptyChoice(t) <==> NoEmptyChoice(Unwrap(t))
  {
    if t.Repeat? {
      StarIdempotent(w, t.inner);
      UnwrapMeaning(w, t.inner);
    }
  }

  lemma {:induction false} RepeatCorrect(m: Monitor, inner: Trace, states: set<Prior>, r: TraceRun)
    requires Correct(m, Repeat(Unwrap(inner)), states, r)
    ensures Correct(m, Repeat(inner), states, r)
  {
    forall w
      ensures In(w, Repeat(inner)) <==> In(w, Repeat(Unwrap(inner)))
    {
      UnwrapMeaning(w, inner);
    }
    UnwrapMeaning([], inner);
    SameMeaningCorrect(m, Repeat(Unwrap(inner)), Repeat(inner), states, r);
  }

  lemma SameMeaningCorrect(m: Monitor, a: Trace, b: Trace, states: set<Prior>, r: TraceRun)
    requires SameWords(a, b)
    requires NoEmptyChoice(b) ==> NoEmptyChoice(a)
    requires Correct(m, a, states, r)
    ensures Correct(m, b, states, r)
  {
    if r.States? && !r.incomplete {
      forall p | p in states
        ensures SafeFrom(m, b, p, r.states)
      {
        SameSafe(m, a, b, p, r.states);
      }
    }
    if NoEmptyChoice(b) {
      if r.Violation? {
        var p :| p in states && Breaks(m, a, p);
        SameBreaks(m, a, b, p);
      } else {
        forall q | q in r.states
          ensures exists p :: p in states && Reaches(m, b, p, q)
        {
          var p :| p in states && Reaches(m, a, p, q);
          SameReaches(m, a, b, p, q);
        }
      }
    }
  }

  ghost predicate SameWords(a: Trace, b: Trace)
  {
    forall w :: In(w, b) <==> In(w, a)
  }

  lemma SameSafe(m: Monitor, a: Trace, b: Trace, p: Prior, out: set<Prior>)
    requires SameWords(a, b) && SafeFrom(m, a, p, out)
    ensures SafeFrom(m, b, p, out)
  {
    forall w, g, h | In(w, b) && Resolves(g, m.guard) && Resolves(h, m.target)
      ensures Decided(w, m, h) && Safe(w, p, g, h) && After(w, p, g) in out
    {
      assert In(w, a);
    }
  }

  lemma SameBreaks(m: Monitor, a: Trace, b: Trace, p: Prior)
    requires SameWords(a, b) && Breaks(m, a, p)
    ensures Breaks(m, b, p)
  {
    var w :| In(w, a) && Unsafe(m, w, p);
    assert In(w, b);
  }

  lemma SameReaches(m: Monitor, a: Trace, b: Trace, p: Prior, q: Prior)
    requires SameWords(a, b) && Reaches(m, a, p, q)
    ensures Reaches(m, b, p, q)
  {
    var w :| In(w, a) && LeadsTo(m, w, p, q);
    assert In(w, b);
  }

  // ----- The main theorem. -----

  /** Traces the runner skips when nothing in them matters, and otherwise gives up on. */
  lemma RunOpaqueCorrect(m: Monitor, t: Trace, states: set<Prior>)
    requires states != {} && !t.Event? && !t.Seq? && !t.Choice? && !t.Repeat?
    ensures Correct(m, t, states, Run(m, t, states))
  {
    OpaqueRun(m, t, states);
    if Irrelevant(m, t) {
      SkipCorrect(m, t, states);
    }
  }

  lemma OpaqueRun(m: Monitor, t: Trace, states: set<Prior>)
    requires states != {} && !t.Event? && !t.Seq? && !t.Choice? && !t.Repeat?
    ensures Run(m, t, states) == if Irrelevant(m, t) then Known(states) else UnknownRun
  {
  }

  /** Every run keeps its promise, for every trace, every set of states and every pair of patterns. */
  lemma {:induction false} RunCorrect(m: Monitor, t: Trace, states: set<Prior>)
    ensures Correct(m, t, states, Run(m, t, states))
    decreases t, 0, states, states
  {
    if states != {} {
      match t
      case Event(e) => EventCorrect(m, e, states);
      case Seq(parts) =>
        SeqStart(m, states);
        RunSeqCorrect(m, [], parts, states, states, false);
        assert [] + parts == parts;
      case Choice(parts) =>
        RunChoiceCorrect(m, parts, states);
      case Repeat(inner) =>
        RunRepeatCorrect(m, inner, states);
      case _ => RunOpaqueCorrect(m, t, states);
    }
  }

  lemma {:induction false} RunRepeatCorrect(m: Monitor, inner: Trace, states: set<Prior>)
    requires states != {}
    ensures Correct(m, Repeat(inner), states, Run(m, Repeat(inner), states))
    decreases inner, 9, states, states
  {
    if Irrelevant(m, inner) {
      assert Irrelevant(m, Repeat(inner));
      SkipCorrect(m, Repeat(inner), states);
    } else {
      RunFixCorrect(m, Unwrap(inner), states);
      RepeatCorrect(m, inner, states, RunFix(m, Unwrap(inner), states, states, false));
    }
  }

  /**
   * A satisfied or ordered verdict is sound: every word of the trace is free of callbacks and safe,
   * however the uncertain matches are decided; a satisfied trace never performs the target at all.
   */
  lemma {:induction false} RequireBeforeSound(m: Monitor, t: Trace, w: Word, g: Effect -> bool, h: Effect -> bool)
    requires RequireBefore(m, t).Satisfied? || RequireBefore(m, t).NeedsOutcomeEvidence?
    requires In(w, t) && Resolves(g, m.guard) && Resolves(h, m.target)
    ensures forall l :: l in w ==> l.Act?
    ensures Safe(w, NoGuard, g, h)
    ensures RequireBefore(m, t).Satisfied? ==> forall a :: Act(a) in w ==> !h(a)
  {
    RunCorrect(m, t, {NoGuard});
    assert SafeFrom(m, t, NoGuard, Run(m, t, {NoGuard}).states);
    if RequireBefore(m, t).Satisfied? {
      WordsOverLetters(w, t);
      forall a | Act(a) in w
        ensures !h(a)
      {
        assert Act(a) in ActLetters(Actions(t));
        assert a in Actions(t);
      }
    }
  }

  /** A violation is definite: one word breaks the property however the uncertain matches are decided. */
  lemma {:induction false} ViolationWord(m: Monitor, t: Trace) returns (w: Word)
    requires RequireBefore(m, t).MonitorViolation? && NoEmptyChoice(t)
    ensures In(w, t) && Unsafe(m, w, NoGuard)
  {
    RunCorrect(m, t, {NoGuard});
    assert Breaks(m, t, NoGuard);
    w :| In(w, t) && Unsafe(m, w, NoGuard);
  }

  /**
   * For every trace: a violation that is still reported when the dead branches are pruned is real.
   * A trace without empty choices has none to prune.
   */
  lemma ViolationIsReal(m: Monitor, t: Trace) returns (w: Word)
    requires Live(t) && RequireBefore(m, Prune(t)).MonitorViolation?
    ensures In(w, t)
    ensures forall g, h :: Resolves(g, m.guard) && Resolves(h, m.target) ==> !Safe(w, NoGuard, g, h)
  {
    PruneNoEmptyChoice(t);
    w := ViolationWord(m, Prune(t));
    PruneMeaning(w, t);
  }

  /** Behind any violating trace an empty choice leaves the violation reported and no word at all. */
  lemma {:induction false} EmptyChoiceViolation(m: Monitor, violating: Trace)
    requires RequireBefore(m, violating).MonitorViolation?
    ensures var t := Seq([violating, Choice([])]);
            RequireBefore(m, t).MonitorViolation? && !Live(t) && forall w :: !In(w, t)
  {
    var t := Seq([violating, Choice([])]);
    assert t.parts[0] == violating;
    assert RunSeq(m, t.parts, {NoGuard}, false) == Violation;
    assert t.parts[1..] == [Choice([])];
    forall w
      ensures !In(w, t)
    {
      NoWordAfterEmptyChoice(w, t.parts);
    }
    LiveExactly(t);
  }

  lemma NoWordAfterEmptyChoice(w: Word, ts: seq<Trace>)
    requires |ts| == 2 && ts[1] == Choice([])
    ensures !InSeq(w, ts)
  {
    assert ts[1..] == [Choice([])];
    forall v
      ensures !InSeq(v, ts[1..])
    {
      SeqOne(v, Choice([]));
      assert !InSome(v, []);
    }
  }

  // ----- On traces whose order is known the monitor decides the property. -----

  /** Every event is decided, and what has lost its order cannot touch guard or target. */
  predicate Complete(m: Monitor, t: Trace)
  {
    if t.Seq? || t.Choice? then (t.Choice? ==> t.parts != []) && AllComplete(m, t.parts)
    else if t.Repeat? then Complete(m, t.inner)
    else if t.Event? then !Uncertain(m.guard, t.event.action) && !Uncertain(m.target, t.event.action)
    else Irrelevant(m, t)
  }

  predicate AllComplete(m: Monitor, ts: seq<Trace>)
  {
    ts != [] ==> Complete(m, ts[0]) && AllComplete(m, ts[1..])
  }

  predicate Conclusive(r: TraceRun)
  {
    r.Violation? || (!r.incomplete && r.states != {})
  }

  lemma {:induction false} CompleteUnwrap(m: Monitor, t: Trace)
    requires Complete(m, t)
    ensures Complete(m, Unwrap(t))
  {
    if t.Repeat? {
      CompleteUnwrap(m, t.inner);
    }
  }

  lemma {:induction false} RunConclusive(m: Monitor, t: Trace, states: set<Prior>)
    requires Complete(m, t) && states != {}
    ensures Conclusive(Run(m, t, states))
    decreases t, 0, states, states
  {
    match t
    case Event(e) =>
      var p :| p in states;
      var r := StepEvent(m, e.action, states);
      if r.States? {
        assert Note(p, m.guard.must(e.action)) in r.states;
      }
    case Seq(parts) => RunSeqConclusive(m, parts, states);
    case Choice(parts) => RunChoiceConclusive(m, parts, states);
    case Repeat(inner) =>
      if !Irrelevant(m, inner) {
        CompleteUnwrap(m, inner);
        RunFixConclusive(m, Unwrap(inner), states, states);
      }
    case Empty =>
    case ParameterCall(_) =>
    case TaskAwait(_) =>
    case TaskStart(_, _) =>
    case Parallel(_) =>
    case UnknownOrder(_) =>
    case Widened(_, _) =>
  }

  lemma {:induction false} RunSeqConclusive(m: Monitor, ts: seq<Trace>, states: set<Prior>)
    requires AllComplete(m, ts) && states != {}
    ensures Conclusive(RunSeq(m, ts, states, false))
    decreases ts, 1, states, states
  {
    if ts != [] {
      RunConclusive(m, ts[0], states);
      var r := Run(m, ts[0], states);
      if r.States? {
        RunSeqConclusive(m, ts[1..], r.states);
      }
    }
  }

  lemma {:induction false} RunChoiceConclusive(m: Monitor, ts: seq<Trace>, states: set<Prior>)
    requires AllComplete(m, ts) && states != {} && ts != []
    ensures Conclusive(RunChoice(m, ts, states))
    decreases ts, 1, states, states
  {
    RunConclusive(m, ts[0], states);
    if ts[1..] != [] {
      RunChoiceConclusive(m, ts[1..], states);
    }
  }

  lemma {:induction false} RunFixConclusive(m: Monitor, t: Trace, reached: set<Prior>, pending: set<Prior>)
    requires Complete(m, t) && reached != {}
    ensures Conclusive(RunFix(m, t, reached, pending, false))
    decreases t, 1, AllPriors - reached, pending
  {
    if pending != {} {
      RunConclusive(m, t, pending);
      var r := Run(m, t, pending);
      if r.States? {
        FixProgress(reached, r.states - reached);
        RunFixConclusive(m, t, reached + (r.states - reached), r.states - reached);
      }
    }
  }

  /** On complete traces the verdict is never unknown, and a violation is reported exactly when a word breaks the property. */
  lemma {:induction false} RequireBeforeDecides(m: Monitor, t: Trace)
    requires Coherent(m.guard) && Coherent(m.target) && Complete(m, t) && NoEmptyChoice(t)
    ensures !RequireBefore(m, t).Unknown?
    ensures RequireBefore(m, t).MonitorViolation? <==> exists w :: In(w, t) && Unsafe(m, w, NoGuard)
  {
    RunConclusive(m, t, {NoGuard});
    if RequireBefore(m, t).MonitorViolation? {
      var w := ViolationWord(m, t);
    } else if w :| In(w, t) && Unsafe(m, w, NoGuard) {
      RequireBeforeSound(m, t, w, m.guard.must, m.target.must);
    }
  }

  /**
   * When the pruned trace is complete, a word breaks the property exactly when the trace has a word and
   * its pruned form is reported: empty choices in branches that do no harm do not matter.
   */
  lemma ViolationRealExactly(m: Monitor, t: Trace)
    requires Coherent(m.guard) && Coherent(m.target) && Complete(m, Prune(t))
    ensures (exists w :: In(w, t) && Unsafe(m, w, NoGuard)) <==> Live(t) && RequireBefore(m, Prune(t)).MonitorViolation?
  {
    LiveExactly(t);
    if Live(t) {
      PruneNoEmptyChoice(t);
      RequireBeforeDecides(m, Prune(t));
      forall w
        ensures In(w, Prune(t)) <==> In(w, t)
      {
        PruneMeaning(w, t);
      }
    }
  }
}
