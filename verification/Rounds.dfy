/** Repeating a step relation: what is reached, and what goes wrong on the way. */
module Rounds {

  /** How one way ends: in a state, at something undecided, or at a target without a guard. */
  datatype End<S> = Ended(at: S) | Stuck | Bad

  type Steps<!S> = (S, End<S>) -> bool

  /** That many rounds, or fewer when one of them does not end in a state. */
  ghost predicate Times<S(!new)>(one: Steps<S>, n: nat, p: S, o: End<S>)
    decreases n
  {
    if n == 0 then o == Ended(p)
    else Onward(one, n, p, o) || (!o.Ended? && one(p, o))
  }

  ghost predicate Onward<S(!new)>(one: Steps<S>, n: nat, p: S, o: End<S>)
    requires n > 0
    decreases n, 0
  {
    exists q :: one(p, Ended(q)) && Times(one, n - 1, q, o)
  }

  ghost predicate Star<S(!new)>(one: Steps<S>, p: S, o: End<S>)
  {
    exists n: nat :: Times(one, n, p, o)
  }

  ghost function StarOf<S(!new)>(one: Steps<S>): Steps<S>
  {
    (p: S, o: End<S>) => Star(one, p, o)
  }

  /** Some of these states has a way that ends like this. */
  ghost predicate Some1<S(!new)>(one: Steps<S>, states: set<S>, o: End<S>)
  {
    exists p :: p in states && one(p, o)
  }

  ghost predicate Same<S(!new)>(a: Steps<S>, b: Steps<S>)
  {
    forall p, o :: a(p, o) <==> b(p, o)
  }

  ghost predicate ClosedUnder<S(!new)>(one: Steps<S>, from: set<S>, states: set<S>)
  {
    forall a, b :: a in from && one(a, Ended(b)) ==> b in states
  }

  /** Each of these states is reached from the start by rounds. */
  ghost predicate AllReached<S(!new)>(one: Steps<S>, start: set<S>, states: set<S>)
  {
    forall q :: q in states ==> Some1(StarOf(one), start, Ended(q))
  }

  lemma SomeSame<S(!new)>(a: Steps<S>, b: Steps<S>, states: set<S>, o: End<S>)
    requires Same(a, b)
    ensures Some1(a, states, o) <==> Some1(b, states, o)
  {
  }

  lemma {:induction false} TimesAfter<S(!new)>(one: Steps<S>, n: nat, p: S, q: S, o: End<S>)
    requires Times(one, n, p, Ended(q)) && one(q, o)
    ensures Times(one, n + 1, p, o)
    decreases n
  {
    if n == 0 {
      if o.Ended? {
        assert one(p, Ended(o.at)) && Times(one, 0, o.at, o);
        assert Onward(one, 1, p, o);
      }
    } else {
      var mid :| one(p, Ended(mid)) && Times(one, n - 1, mid, Ended(q));
      TimesAfter(one, n - 1, mid, q, o);
      assert Onward(one, n + 1, p, o);
    }
  }

  lemma StarAfter<S(!new)>(one: Steps<S>, p: S, q: S, o: End<S>)
    requires Star(one, p, Ended(q)) && one(q, o)
    ensures Star(one, p, o)
  {
    var n: nat :| Times(one, n, p, Ended(q));
    TimesAfter(one, n, p, q, o);
  }

  lemma SomeAfter<S(!new)>(one: Steps<S>, start: set<S>, states: set<S>, o: End<S>)
    requires AllReached(one, start, states) && Some1(one, states, o)
    ensures Some1(StarOf(one), start, o)
  {
    var q :| q in states && one(q, o);
    var p :| p in start && StarOf(one)(p, Ended(q));
    StarAfter(one, p, q, o);
    assert StarOf(one)(p, o);
  }

  /** Nothing but the given states is reached from them. */
  lemma {:induction false} TimesWithin<S(!new)>(one: Steps<S>, n: nat, p: S, o: End<S>, states: set<S>)
    requires p in states && Times(one, n, p, o) && ClosedUnder(one, states, states)
    ensures if o.Ended? then o.at in states else Some1(one, states, o)
    decreases n
  {
    if n > 0 {
      if Onward(one, n, p, o) {
        var q :| one(p, Ended(q)) && Times(one, n - 1, q, o);
        TimesWithin(one, n - 1, q, o, states);
      }
    }
  }

  lemma SomeWithin<S(!new)>(one: Steps<S>, start: set<S>, o: End<S>, states: set<S>)
    requires start <= states && Some1(StarOf(one), start, o) && ClosedUnder(one, states, states)
    ensures if o.Ended? then o.at in states else Some1(one, states, o)
  {
    var p :| p in start && StarOf(one)(p, o);
    var n: nat :| Times(one, n, p, o);
    TimesWithin(one, n, p, o, states);
  }

  /** Where the fixpoint stands: what is reached from the start, and what the states run so far have shown. */
  ghost predicate FixAt<S(!new)>(one: Steps<S>, start: set<S>, reached: set<S>, pending: set<S>, incomplete: bool)
  {
    && start <= reached && pending <= reached
    && AllReached(one, start, reached)
    && ClosedUnder(one, reached - pending, reached)
    && !Some1(one, reached - pending, Bad)
    && (incomplete <==> Some1(one, reached - pending, Stuck))
  }

  lemma FixStart<S(!new)>(one: Steps<S>, start: set<S>)
    ensures FixAt(one, start, start, start, false)
  {
    forall q | q in start
      ensures Some1(StarOf(one), start, Ended(q))
    {
      assert Times(one, 0, q, Ended(q));
      assert StarOf(one)(q, Ended(q));
    }
    assert start - start == {};
  }

  /** At its end the fixpoint has reached exactly what rounds reach, and seen exactly what they see. */
  lemma FixEnd<S(!new)>(one: Steps<S>, start: set<S>, reached: set<S>, incomplete: bool, o: End<S>)
    requires FixAt(one, start, reached, {}, incomplete)
    ensures Some1(StarOf(one), start, o) <==> if o.Ended? then o.at in reached else o.Stuck? && incomplete
  {
    assert reached - {} == reached;
    if Some1(StarOf(one), start, o) {
      SomeWithin(one, start, o, reached);
    }
    if !o.Ended? && Some1(one, reached, o) {
      SomeAfter(one, start, reached, o);
    }
  }

  lemma FixBad<S(!new)>(one: Steps<S>, start: set<S>, reached: set<S>, pending: set<S>, incomplete: bool)
    requires FixAt(one, start, reached, pending, incomplete) && Some1(one, pending, Bad)
    ensures Some1(StarOf(one), start, Bad)
  {
    SomeAfter(one, start, pending, Bad);
  }

  ghost predicate Shows<S(!new)>(one: Steps<S>, states: set<S>, next: set<S>)
  {
    forall q :: q in next <==> Some1(one, states, Ended(q))
  }

  lemma SomeSplit<S(!new)>(one: Steps<S>, whole: set<S>, part: set<S>, o: End<S>)
    requires part <= whole
    ensures Some1(one, whole, o) <==> Some1(one, whole - part, o) || Some1(one, part, o)
  {
    if p :| p in whole && one(p, o) {
      assert p in part || p in whole - part;
    }
  }

  lemma FixStep<S(!new)>(one: Steps<S>, start: set<S>, reached: set<S>, pending: set<S>, incomplete: bool, next: set<S>)
    requires FixAt(one, start, reached, pending, incomplete)
    requires Shows(one, pending, next) && !Some1(one, pending, Bad)
    ensures FixAt(one, start, reached + (next - reached), next - reached, incomplete || Some1(one, pending, Stuck))
  {
    var newly := next - reached;
    var more := reached + newly;
    assert more - newly == reached;
    forall q | q in newly
      ensures Some1(StarOf(one), start, Ended(q))
    {
      SomeAfter(one, start, pending, Ended(q));
    }
    forall a, b | a in reached && one(a, Ended(b))
      ensures b in more
    {
      if a in pending {
        assert Some1(one, pending, Ended(b));
      } else {
        assert a in reached - pending;
      }
    }
    SomeSplit(one, reached, pending, Bad);
    SomeSplit(one, reached, pending, Stuck);
  }

  // ----- Repetition of a repetition. -----

  lemma {:induction false} TimesJoin<S(!new)>(one: Steps<S>, m: nat, n: nat, p: S, q: S, o: End<S>)
    requires Times(one, m, p, Ended(q)) && Times(one, n, q, o)
    ensures Times(one, m + n, p, o)
    decreases m
  {
    if m > 0 {
      var mid :| one(p, Ended(mid)) && Times(one, m - 1, mid, Ended(q));
      TimesJoin(one, m - 1, n, mid, q, o);
      assert Onward(one, m + n, p, o);
    }
  }

  lemma StarJoin<S(!new)>(one: Steps<S>, p: S, q: S, o: End<S>)
    requires Star(one, p, Ended(q)) && Star(one, q, o)
    ensures Star(one, p, o)
  {
    var a: nat :| Times(one, a, p, Ended(q));
    var b: nat :| Times(one, b, q, o);
    TimesJoin(one, a, b, p, q, o);
  }

  lemma {:induction false} StarFlattens<S(!new)>(one: Steps<S>, n: nat, p: S, o: End<S>)
    requires Times(StarOf(one), n, p, o)
    ensures Star(one, p, o)
    decreases n
  {
    if n == 0 {
      assert Times(one, 0, p, o);
    } else if Onward(StarOf(one), n, p, o) {
      var q :| StarOf(one)(p, Ended(q)) && Times(StarOf(one), n - 1, q, o);
      StarFlattens(one, n - 1, q, o);
      StarJoin(one, p, q, o);
    }
  }

  /** A repeated repetition has the ways of the repetition. */
  lemma StarOfStar<S(!new)>(one: Steps<S>, p: S, o: End<S>)
    ensures Star(StarOf(one), p, o) <==> Star(one, p, o)
  {
    if Star(StarOf(one), p, o) {
      var n: nat :| Times(StarOf(one), n, p, o);
      StarFlattens(one, n, p, o);
    }
    if Star(one, p, o) {
      if o.Ended? {
        assert StarOf(one)(p, Ended(o.at)) && Times(StarOf(one), 0, o.at, o);
        assert Onward(StarOf(one), 1, p, o);
      }
      assert Times(StarOf(one), 1, p, o);
    }
  }

  lemma {:induction false} SameTimes<S(!new)>(a: Steps<S>, b: Steps<S>, n: nat, p: S, o: End<S>)
    requires Same(a, b) && Times(a, n, p, o)
    ensures Times(b, n, p, o)
    decreases n
  {
    if n > 0 && Onward(a, n, p, o) {
      var q :| a(p, Ended(q)) && Times(a, n - 1, q, o);
      SameTimes(a, b, n - 1, q, o);
      assert Onward(b, n, p, o);
    }
  }

  lemma SameStar<S(!new)>(a: Steps<S>, b: Steps<S>, p: S, o: End<S>)
    requires Same(a, b)
    ensures Star(a, p, o) <==> Star(b, p, o)
  {
    if n: nat :| Times(a, n, p, o) {
      SameTimes(a, b, n, p, o);
    }
    if n: nat :| Times(b, n, p, o) {
      SameTimes(b, a, n, p, o);
    }
  }

  // ----- One step after another. -----

  /** First the one, then the other, unless the first does not end in a state. */
  ghost predicate Then<S(!new)>(first: Steps<S>, second: Steps<S>, both: Steps<S>)
  {
    forall p, o :: both(p, o) <==> Via(first, second, p, o) || (!o.Ended? && first(p, o))
  }

  ghost predicate Via<S(!new)>(first: Steps<S>, second: Steps<S>, p: S, o: End<S>)
  {
    exists q :: first(p, Ended(q)) && second(q, o)
  }

  lemma ThenSome<S(!new)>(first: Steps<S>, second: Steps<S>, both: Steps<S>, states: set<S>, next: set<S>, o: End<S>)
    requires Then(first, second, both) && Shows(first, states, next)
    ensures Some1(both, states, o) <==> Some1(second, next, o) || (!o.Ended? && Some1(first, states, o))
  {
    if p :| p in states && both(p, o) {
      if Via(first, second, p, o) {
        var q :| first(p, Ended(q)) && second(q, o);
        assert Some1(first, states, Ended(q));
      }
    }
    if q :| q in next && second(q, o) {
      var p :| p in states && first(p, Ended(q));
      assert Via(first, second, p, o);
    }
  }

  lemma OrSome<S(!new)>(a: Steps<S>, b: Steps<S>, either: Steps<S>, states: set<S>, o: End<S>)
    requires forall p, e :: either(p, e) <==> a(p, e) || b(p, e)
    ensures Some1(either, states, o) <==> Some1(a, states, o) || Some1(b, states, o)
  {
  }
}
