/** The meaning of a trace: a set of finite words over its letters. */
module Words {
  import opened Prelude
  import opened Effects
  import opened Traces

  type Word = seq<Letter>

  ghost predicate Over(w: Word, letters: set<Letter>)
  {
    forall l :: l in w ==> l in letters
  }

  /** `w` is a shuffle of `u` and `v`. */
  ghost predicate Interleave(u: Word, v: Word, w: Word)
    decreases |w|
  {
    if w == [] then u == [] && v == []
    else
      (u != [] && u[0] == w[0] && Interleave(u[1..], v, w[1..])) ||
      (v != [] && v[0] == w[0] && Interleave(u, v[1..], w[1..]))
  }

  ghost predicate In(w: Word, t: Trace)
    decreases t, 0, 0
  {
    match t
    case Empty => w == []
    case Event(e) => w == [Act(e.action)]
    case ParameterCall(c) => w == [CallLetter(c)]
    case TaskAwait(_) => w == []
    case TaskStart(_, inner) => In(w, inner)
    case Seq(parts) => InSeq(w, parts)
    case Choice(parts) => InSome(w, parts)
    case Parallel(parts) => InShuffle(w, parts)
    case Repeat(inner) => InStar(w, inner)
    case UnknownOrder(actions) => Over(w, ActLetters(actions))
    case Widened(actions, calls) => Over(w, ActLetters(actions) + CallLetters(calls))
  }

  ghost predicate InSeq(w: Word, ts: seq<Trace>)
    decreases ts, 1, 0
  {
    if ts == [] then w == []
    else exists k :: 0 <= k <= |w| && In(w[..k], ts[0]) && InSeq(w[k..], ts[1..])
  }

  ghost predicate InSome(w: Word, ts: seq<Trace>)
    decreases ts, 1, 0
  {
    exists i :: 0 <= i < |ts| && In(w, ts[i])
  }

  ghost predicate InShuffle(w: Word, ts: seq<Trace>)
    decreases ts, 1, 0
  {
    if ts == [] then w == []
    else exists u, v :: Interleave(u, v, w) && In(u, ts[0]) && InShuffle(v, ts[1..])
  }

  ghost predicate InStar(w: Word, t: Trace)
    decreases t, 1, |w|
  {
    w == [] || exists k :: 0 < k <= |w| && In(w[..k], t) && InStar(w[k..], t)
  }

  // ----- Words only use the letters of their trace. -----

  lemma HeadOrTail(w: Word)
    requires w != []
    ensures forall l :: l in w <==> l == w[0] || l in w[1..]
  {
  }

  lemma {:induction false} InterleaveLetters(u: Word, v: Word, w: Word)
    requires Interleave(u, v, w)
    ensures forall l :: l in w <==> l in u || l in v
    decreases |w|
  {
    if w != [] {
      HeadOrTail(w);
      if u != [] && u[0] == w[0] && Interleave(u[1..], v, w[1..]) {
        InterleaveLetters(u[1..], v, w[1..]);
        HeadOrTail(u);
      } else {
        InterleaveLetters(u, v[1..], w[1..]);
        HeadOrTail(v);
      }
    }
  }

  lemma {:induction false} WordsOverLetters(w: Word, t: Trace)
    requires In(w, t)
    ensures Over(w, Letters(t))
    decreases t, 0, 0
  {
    match t
    case Empty =>
    case Event(e) =>
    case ParameterCall(c) =>
    case TaskAwait(_) =>
    case TaskStart(_, inner) => WordsOverLetters(w, inner);
    case Seq(parts) => SeqOverLetters(w, parts);
    case Choice(parts) =>
      var i :| 0 <= i < |parts| && In(w, parts[i]);
      WordsOverLetters(w, parts[i]);
      MemberLetters(parts, parts[i]);
    case Parallel(parts) => ShuffleOverLetters(w, parts);
    case Repeat(inner) => StarOverLetters(w, inner);
    case UnknownOrder(actions) =>
    case Widened(actions, calls) =>
  }

  /** The letters of a list of traces. */
  function LettersOf(ts: seq<Trace>): set<Letter>
  {
    ActLetters(AllActions(ts)) + CallLetters(AllCalls(ts))
  }

  lemma MemberLetters(ts: seq<Trace>, t: Trace)
    requires t in ts
    ensures Letters(t) <= LettersOf(ts)
  {
    forall l | l in Letters(t)
      ensures l in LettersOf(ts)
    {
      if l.Act? {
        AllActionsMember(ts, l.action);
      } else {
        var c :| c in Calls(t) && CallLetter(c) == l;
        AllCallsMember(ts, c);
      }
    }
  }

  lemma {:induction false} SeqOverLetters(w: Word, ts: seq<Trace>)
    requires InSeq(w, ts)
    ensures Over(w, LettersOf(ts))
    decreases ts, 1, 0
  {
    if ts != [] {
      var u, v := SeqUncons(w, ts);
      WordsOverLetters(u, ts[0]);
      SeqOverLetters(v, ts[1..]);
    }
  }

  lemma {:induction false} ShuffleOverLetters(w: Word, ts: seq<Trace>)
    requires InShuffle(w, ts)
    ensures Over(w, LettersOf(ts))
    decreases ts, 1, 0
  {
    if ts != [] {
      var u, v :| Interleave(u, v, w) && In(u, ts[0]) && InShuffle(v, ts[1..]);
      InterleaveLetters(u, v, w);
      WordsOverLetters(u, ts[0]);
      ShuffleOverLetters(v, ts[1..]);
    }
  }

  lemma {:induction false} StarOverLetters(w: Word, t: Trace)
    requires InStar(w, t)
    ensures Over(w, Letters(t))
    decreases t, 1, |w|
  {
    if w != [] {
      var u, v := StarUncons(w, t);
      WordsOverLetters(u, t);
      StarOverLetters(v, t);
    }
  }

  // ----- Laws of concatenation and star. -----

  lemma SeqCons(x: Word, y: Word, ts: seq<Trace>)
    requires ts != [] && In(x, ts[0]) && InSeq(y, ts[1..])
    ensures InSeq(x + y, ts)
  {
    var w := x + y;
    assert w[..|x|] == x && w[|x|..] == y;
  }

  lemma SeqUncons(w: Word, ts: seq<Trace>) returns (x: Word, y: Word)
    requires ts != [] && InSeq(w, ts)
    ensures w == x + y && In(x, ts[0]) && InSeq(y, ts[1..])
  {
    var k :| 0 <= k <= |w| && In(w[..k], ts[0]) && InSeq(w[k..], ts[1..]);
    x, y := w[..k], w[k..];
  }

  lemma {:induction false} SeqConcat(u: Word, v: Word, a: seq<Trace>, b: seq<Trace>)
    requires InSeq(u, a) && InSeq(v, b)
    ensures InSeq(u + v, a + b)
    decreases |a|
  {
    if a == [] {
      assert a + b == b;
      assert u + v == v;
    } else {
      var x, y := SeqUncons(u, a);
      SeqConcat(y, v, a[1..], b);
      var ab := a + b;
      assert ab[1..] == a[1..] + b;
      assert ab[0] == a[0];
      SeqCons(x, y + v, ab);
      assert x + (y + v) == u + v;
    }
  }

  lemma ConcatAssociates(x: Word, y: Word, z: Word)
    ensures x + (y + z) == (x + y) + z
  {
  }

  lemma {:induction false} SeqSplit(w: Word, a: seq<Trace>, b: seq<Trace>) returns (u: Word, v: Word)
    requires InSeq(w, a + b)
    ensures w == u + v && InSeq(u, a) && InSeq(v, b)
    decreases |a|
  {
    if a == [] {
      assert a + b == b;
      u, v := [], w;
    } else {
      var ab := a + b;
      assert ab[1..] == a[1..] + b;
      assert ab[0] == a[0];
      var x, y := SeqUncons(w, ab);
      var front, back := SeqSplit(y, a[1..], b);
      SeqCons(x, front, a);
      ConcatAssociates(x, front, back);
      u, v := x + front, back;
    }
  }

  lemma SeqOne(w: Word, t: Trace)
    ensures InSeq(w, [t]) <==> In(w, t)
  {
    assert [t][1..] == [];
    if In(w, t) {
      SeqCons(w, [], [t]);
      assert w + [] == w;
    }
    if InSeq(w, [t]) {
      var u, v := SeqUncons(w, [t]);
      assert u + v == u;
    }
  }

  lemma StarCons(x: Word, y: Word, t: Trace)
    requires In(x, t) && InStar(y, t)
    ensures InStar(x + y, t)
  {
    var w := x + y;
    assert w[..|x|] == x && w[|x|..] == y;
    if x == [] {
      assert w == y;
    }
  }

  lemma StarUncons(w: Word, t: Trace) returns (x: Word, y: Word)
    requires w != [] && InStar(w, t)
    ensures x != [] && w == x + y && In(x, t) && InStar(y, t)
  {
    var k :| 0 < k <= |w| && In(w[..k], t) && InStar(w[k..], t);
    x, y := w[..k], w[k..];
  }

  lemma StarOne(w: Word, t: Trace)
    requires In(w, t)
    ensures InStar(w, t)
  {
    StarCons(w, [], t);
    assert w + [] == w;
  }

  lemma {:induction false} StarConcat(u: Word, v: Word, t: Trace)
    requires InStar(u, t) && InStar(v, t)
    ensures InStar(u + v, t)
    decreases |u|
  {
    if u == [] {
      assert u + v == v;
    } else {
      var x, y := StarUncons(u, t);
      StarConcat(y, v, t);
      StarCons(x, y + v, t);
      assert x + (y + v) == u + v;
    }
  }

  /** Repeating a repetition adds no words. */
  lemma {:induction false} StarIdempotent(w: Word, t: Trace)
    ensures InStar(w, Repeat(t)) <==> InStar(w, t)
    decreases |w|
  {
    if InStar(w, t) {
      assert In(w, Repeat(t));
      StarOne(w, Repeat(t));
    }
    if InStar(w, Repeat(t)) && w != [] {
      var u, v := StarUncons(w, Repeat(t));
      StarIdempotent(v, t);
      StarConcat(u, v, t);
    }
  }

  lemma OverConcat(u: Word, v: Word, letters: set<Letter>)
    ensures Over(u + v, letters) <==> Over(u, letters) && Over(v, letters)
  {
    assert forall l :: l in u + v <==> l in u || l in v;
  }

  // ----- A trace without empty choices has at least one word. -----

  lemma {:induction false} SomeWord(t: Trace) returns (w: Word)
    requires NoEmptyChoice(t)
    ensures In(w, t)
    decreases t, 0
  {
    match t
    case Empty => w := [];
    case Event(e) => w := [Act(e.action)];
    case ParameterCall(c) => w := [CallLetter(c)];
    case TaskAwait(_) => w := [];
    case TaskStart(_, inner) => w := SomeWord(inner);
    case Seq(parts) => w := SomeSeqWord(parts);
    case Choice(parts) =>
      w := SomeWord(parts[0]);
    case Parallel(parts) => w := SomeShuffleWord(parts);
    case Repeat(inner) => w := [];
    case UnknownOrder(actions) => w := [];
    case Widened(actions, calls) => w := [];
  }

  lemma {:induction false} SomeSeqWord(ts: seq<Trace>) returns (w: Word)
    requires AllNoEmptyChoice(ts)
    ensures InSeq(w, ts)
    decreases ts, 1
  {
    if ts == [] {
      w := [];
    } else {
      var u := SomeWord(ts[0]);
      var v := SomeSeqWord(ts[1..]);
      SeqCons(u, v, ts);
      w := u + v;
    }
  }

  lemma {:induction false} SomeShuffleWord(ts: seq<Trace>) returns (w: Word)
    requires AllNoEmptyChoice(ts)
    ensures InShuffle(w, ts)
    decreases ts, 1
  {
    if ts == [] {
      w := [];
    } else {
      var u := SomeWord(ts[0]);
      var v := SomeShuffleWord(ts[1..]);
      w := u + v;
      ConcatInterleaves(u, v);
    }
  }

  lemma ConcatInterleaves(u: Word, v: Word)
    ensures Interleave(u, v, u + v)
    decreases |u|
  {
    if u != [] {
      ConcatInterleaves(u[1..], v);
      assert (u + v)[1..] == u[1..] + v;
    } else {
      InterleaveRight(v);
      assert u + v == v;
    }
  }

  lemma InterleaveRight(v: Word)
    ensures Interleave([], v, v)
  {
    if v != [] {
      InterleaveRight(v[1..]);
    }
  }
}
