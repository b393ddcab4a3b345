/** Traces without their dead branches: the same words, and no empty choice. */
module TracePruning {
  import opened Prelude
  import opened Traces
  import opened Words

  /** The trace has a word: no sequence or shuffle has a dead part, and no choice has only dead ones. */
  predicate Live(t: Trace)
  {
    if t.Choice? then AnyLive(t.parts)
    else if Compound(t) then AllLive(t.parts)
    else t.TaskStart? ==> Live(t.inner)
  }

  predicate AllLive(ts: seq<Trace>)
  {
    ts != [] ==> Live(ts[0]) && AllLive(ts[1..])
  }

  predicate AnyLive(ts: seq<Trace>)
  {
    ts != [] && (Live(ts[0]) || AnyLive(ts[1..]))
  }

  function Prune(t: Trace): Trace
  {
    match t
    case Seq(parts) => Seq(PruneAll(parts))
    case Parallel(parts) => Parallel(PruneAll(parts))
    case Choice(parts) => Choice(PruneLive(parts))
    case TaskStart(site, inner) => TaskStart(site, Prune(inner))
    case Repeat(inner) => if Live(inner) then Repeat(Prune(inner)) else Empty
    case _ => t
  }

  function PruneAll(ts: seq<Trace>): seq<Trace>
  {
    if ts == [] then [] else [Prune(ts[0])] + PruneAll(ts[1..])
  }

  /** The live alternatives, pruned. */
  function PruneLive(ts: seq<Trace>): seq<Trace>
  {
    if ts == [] then []
    else if Live(ts[0]) then [Prune(ts[0])] + PruneLive(ts[1..])
    else PruneLive(ts[1..])
  }

  lemma InSomeCons(w: Word, ts: seq<Trace>)
    requires ts != []
    ensures InSome(w, ts) <==> In(w, ts[0]) || InSome(w, ts[1..])
  {
    assert forall i :: 0 <= i < |ts[1..]| ==> ts[1..][i] == ts[i + 1];
    if i :| 0 <= i < |ts| && In(w, ts[i]) {
      assert i > 0 ==> ts[1..][i - 1] == ts[i];
    }
    if i :| 0 <= i < |ts[1..]| && In(w, ts[1..][i]) {
      assert In(w, ts[i + 1]);
    }
  }

  lemma {:induction false} WordsAreLive(w: Word, t: Trace)
    requires In(w, t)
    ensures Live(t)
    decreases t, 0
  {
    match t
    case Seq(parts) => SeqsAreLive(w, parts);
    case Choice(parts) => ChoicesAreLive(w, parts);
    case Parallel(parts) => ShufflesAreLive(w, parts);
    case TaskStart(_, inner) => WordsAreLive(w, inner);
    case _ =>
  }

  lemma {:induction false} SeqsAreLive(w: Word, ts: seq<Trace>)
    requires InSeq(w, ts)
    ensures AllLive(ts)
    decreases ts, 1
  {
    if ts != [] {
      var u, v := SeqUncons(w, ts);
      WordsAreLive(u, ts[0]);
      SeqsAreLive(v, ts[1..]);
    }
  }

  lemma {:induction false} ChoicesAreLive(w: Word, ts: seq<Trace>)
    requires InSome(w, ts)
    ensures AnyLive(ts)
    decreases ts, 1
  {
    InSomeCons(w, ts);
    if In(w, ts[0]) {
      WordsAreLive(w, ts[0]);
    } else {
      ChoicesAreLive(w, ts[1..]);
    }
  }

  lemma {:induction false} ShufflesAreLive(w: Word, ts: seq<Trace>)
    requires InShuffle(w, ts)
    ensures AllLive(ts)
    decreases ts, 1
  {
    if ts != [] {
      var u, v :| Interleave(u, v, w) && In(u, ts[0]) && InShuffle(v, ts[1..]);
      WordsAreLive(u, ts[0]);
      ShufflesAreLive(v, ts[1..]);
    }
  }

  /** Pruning changes no meaning, for every trace. */
  lemma {:induction false} PruneMeaning(w: Word, t: Trace)
    ensures In(w, Prune(t)) <==> In(w, t)
    decreases t, 0, 0
  {
    match t
    case Seq(parts) => PruneSeqMeaning(w, parts);
    case Choice(parts) => PruneChoiceMeaning(w, parts);
    case Parallel(parts) => PruneShuffleMeaning(w, parts);
    case TaskStart(_, inner) => PruneMeaning(w, inner);
    case Repeat(inner) =>
      if Live(inner) {
        PruneStarMeaning(w, inner);
      } else if InStar(w, inner) && w != [] {
        var u, v := StarUncons(w, inner);
        WordsAreLive(u, inner);
      }
    case _ =>
  }

  lemma {:induction false} PruneSeqMeaning(w: Word, ts: seq<Trace>)
    ensures InSeq(w, PruneAll(ts)) <==> InSeq(w, ts)
    decreases ts, 1, 0
  {
    if ts != [] {
      var pruned := PruneAll(ts);
      assert pruned[0] == Prune(ts[0]) && pruned[1..] == PruneAll(ts[1..]);
      if InSeq(w, ts) {
        var u, v := SeqUncons(w, ts);
        PruneMeaning(u, ts[0]);
        PruneSeqMeaning(v, ts[1..]);
        SeqCons(u, v, pruned);
      }
      if InSeq(w, pruned) {
        var u, v := SeqUncons(w, pruned);
        PruneMeaning(u, ts[0]);
        PruneSeqMeaning(v, ts[1..]);
        SeqCons(u, v, ts);
      }
    }
  }

  lemma {:induction false} PruneChoiceMeaning(w: Word, ts: seq<Trace>)
    ensures InSome(w, PruneLive(ts)) <==> InSome(w, ts)
    decreases ts, 1, 0
  {
    if ts != [] {
      InSomeCons(w, ts);
      PruneMeaning(w, ts[0]);
      PruneChoiceMeaning(w, ts[1..]);
      if Live(ts[0]) {
        InSomeCons(w, PruneLive(ts));
        assert PruneLive(ts)[1..] == PruneLive(ts[1..]);
      } else if In(w, ts[0]) {
        WordsAreLive(w, ts[0]);
      }
    }
  }

  lemma {:induction false} PruneShuffleMeaning(w: Word, ts: seq<Trace>)
    ensures InShuffle(w, PruneAll(ts)) <==> InShuffle(w, ts)
    decreases ts, 1, 0
  {
    if ts != [] {
      var pruned := PruneAll(ts);
      assert pruned[0] == Prune(ts[0]) && pruned[1..] == PruneAll(ts[1..]);
      if InShuffle(w, ts) {
        var u, v :| Interleave(u, v, w) && In(u, ts[0]) && InShuffle(v, ts[1..]);
        PruneMeaning(u, ts[0]);
        PruneShuffleMeaning(v, ts[1..]);
      }
      if InShuffle(w, pruned) {
        var u, v :| Interleave(u, v, w) && In(u, pruned[0]) && InShuffle(v, pruned[1..]);
        PruneMeaning(u, ts[0]);
        PruneShuffleMeaning(v, ts[1..]);
      }
    }
  }

  lemma {:induction false} PruneStarMeaning(w: Word, t: Trace)
    ensures InStar(w, Prune(t)) <==> InStar(w, t)
    decreases t, 1, |w|
  {
    if w != [] {
      if InStar(w, t) {
        var u, v := StarUncons(w, t);
        PruneMeaning(u, t);
        PruneStarMeaning(v, t);
        StarCons(u, v, Prune(t));
      }
      if InStar(w, Prune(t)) {
        var u, v := StarUncons(w, Prune(t));
        PruneMeaning(u, t);
        PruneStarMeaning(v, t);
        StarCons(u, v, t);
      }
    }
  }

  /** A live trace has no empty choice left when it is pruned. */
  lemma {:induction false} PruneNoEmptyChoice(t: Trace)
    requires Live(t)
    ensures NoEmptyChoice(Prune(t))
    decreases t, 0
  {
    match t
    case Seq(parts) => PruneAllNoEmptyChoice(parts);
    case Choice(parts) => PruneLiveNoEmptyChoice(parts);
    case Parallel(parts) => PruneAllNoEmptyChoice(parts);
    case TaskStart(_, inner) => PruneNoEmptyChoice(inner);
    case Repeat(inner) =>
      if Live(inner) {
        PruneNoEmptyChoice(inner);
      }
    case _ =>
  }

  lemma {:induction false} PruneAllNoEmptyChoice(ts: seq<Trace>)
    requires AllLive(ts)
    ensures AllNoEmptyChoice(PruneAll(ts))
    decreases ts, 1
  {
    if ts != [] {
      PruneNoEmptyChoice(ts[0]);
      PruneAllNoEmptyChoice(ts[1..]);
      assert PruneAll(ts)[1..] == PruneAll(ts[1..]);
    }
  }

  lemma {:induction false} PruneLiveNoEmptyChoice(ts: seq<Trace>)
    ensures AllNoEmptyChoice(PruneLive(ts)) && (AnyLive(ts) ==> PruneLive(ts) != [])
    decreases ts, 1
  {
    if ts != [] {
      PruneLiveNoEmptyChoice(ts[1..]);
      if Live(ts[0]) {
        PruneNoEmptyChoice(ts[0]);
        assert PruneLive(ts)[1..] == PruneLive(ts[1..]);
      }
    }
  }

  /** A trace is live exactly when it has a word. */
  lemma LiveExactly(t: Trace)
    ensures Live(t) <==> exists w :: In(w, t)
  {
    if Live(t) {
      PruneNoEmptyChoice(t);
      var w := SomeWord(Prune(t));
      PruneMeaning(w, t);
    }
    if w :| In(w, t) {
      WordsAreLive(w, t);
    }
  }

  /** Without empty choices there is nothing to prune. */
  lemma {:induction false} NothingToPrune(t: Trace)
    requires NoEmptyChoice(t)
    ensures Live(t) && Prune(t) == t
    decreases t, 0
  {
    if Compound(t) {
      NothingToPruneIn(t.parts);
    } else if Wrapper(t) {
      NothingToPrune(t.inner);
    }
  }

  lemma {:induction false} NothingToPruneIn(ts: seq<Trace>)
    requires AllNoEmptyChoice(ts)
    ensures AllLive(ts) && PruneAll(ts) == ts && PruneLive(ts) == ts && (ts != [] ==> AnyLive(ts))
    decreases ts, 1
  {
    if ts != [] {
      NothingToPrune(ts[0]);
      NothingToPruneIn(ts[1..]);
    }
  }
}
