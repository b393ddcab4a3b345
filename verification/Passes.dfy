/** Mapping every element of a list or set under one budget. */
module Passes {
  /** A step succeeded exactly when it could and the budget covered its cost, which is then used up. */
  predicate Paid(ok: bool, before: nat, after: nat, can: bool, cost: nat)
  {
    (ok <==> can && before >= cost) && (ok ==> after == before - cost)
  }

  /** How one element is mapped: whether it can be, what it costs, what it becomes and what holds of that. */
  datatype Charge<!T, !U> = Charge(can: T -> bool, cost: T -> nat, image: T -> U, fits: U -> bool)

  // ----- Lists. -----

  function SeqSum<T>(xs: seq<T>, f: T -> nat): nat
  {
    if xs == [] then 0 else f(xs[0]) + SeqSum(xs[1..], f)
  }

  predicate AllCan<T, U>(xs: seq<T>, step: Charge<T, U>)
  {
    forall i :: 0 <= i < |xs| ==> step.can(xs[i])
  }

  predicate AllFit<T, U>(ys: seq<U>, step: Charge<T, U>)
  {
    forall i :: 0 <= i < |ys| ==> step.fits(ys[i])
  }

  function Images<T, U>(xs: seq<T>, step: Charge<T, U>): (r: seq<U>)
    ensures |r| == |xs| && forall i :: 0 <= i < |xs| ==> r[i] == step.image(xs[i])
  {
    if xs == [] then [] else [step.image(xs[0])] + Images(xs[1..], step)
  }

  /** As many elements of the list as there are images are mapped and paid for. */
  ghost predicate ListPass<T, U>(xs: seq<T>, ys: seq<U>, step: Charge<T, U>, before: nat, now: nat)
  {
    && |ys| <= |xs| && now + SeqSum(xs, step.cost) == before + SeqSum(xs[|ys|..], step.cost)
    && AllCan(xs[..|ys|], step) && AllFit(ys, step) && forall i :: 0 <= i < |ys| ==> ys[i] == step.image(xs[i])
  }

  lemma ListPassStart<T, U>(xs: seq<T>, step: Charge<T, U>, before: nat)
    ensures ListPass(xs, [], step, before, before)
  {
    assert xs[0..] == xs;
  }

  lemma {:induction false} ListPassStep<T, U>(xs: seq<T>, ys: seq<U>, step: Charge<T, U>, before: nat, now: nat, y: U)
    requires ListPass(xs, ys, step, before, now) && |ys| < |xs| && step.can(xs[|ys|]) && now >= step.cost(xs[|ys|])
    requires y == step.image(xs[|ys|]) && step.fits(y)
    ensures ListPass(xs, ys + [y], step, before, now - step.cost(xs[|ys|]))
  {
    assert xs[|ys|..][1..] == xs[|ys| + 1..];
    assert xs[..|ys| + 1] == xs[..|ys|] + [xs[|ys|]];
  }

  /** Where the pass has to stop, the whole list cannot be mapped within the budget. */
  lemma {:induction false} ListPassStop<T, U>(xs: seq<T>, ys: seq<U>, step: Charge<T, U>, before: nat, now: nat)
    requires ListPass(xs, ys, step, before, now) && |ys| < |xs| && !(step.can(xs[|ys|]) && now >= step.cost(xs[|ys|]))
    ensures !(AllCan(xs, step) && before >= SeqSum(xs, step.cost))
  {
    assert SeqSum(xs[|ys|..], step.cost) >= step.cost(xs[|ys|]);
  }

  lemma ListPassEnd<T, U>(xs: seq<T>, ys: seq<U>, step: Charge<T, U>, before: nat, now: nat)
    requires ListPass(xs, ys, step, before, now) && |ys| == |xs|
    ensures ys == Images(xs, step) && AllCan(xs, step) && AllFit(ys, step)
    ensures before >= SeqSum(xs, step.cost) && now == before - SeqSum(xs, step.cost)
  {
    assert xs[..|ys|] == xs && xs[|ys|..] == [];
  }

  // ----- Sets. -----

  ghost function SetSum<T>(s: set<T>, f: T -> nat): nat
  {
    if s == {} then 0 else var x :| x in s; f(x) + SetSum(s - {x}, f)
  }

  lemma {:induction false} SetSumRemove<T>(s: set<T>, x: T, f: T -> nat)
    requires x in s
    ensures SetSum(s, f) == f(x) + SetSum(s - {x}, f)
    decreases |s|
  {
    var y :| y in s && SetSum(s, f) == f(y) + SetSum(s - {y}, f);
    if y != x {
      SetSumRemove(s - {y}, x, f);
      SetSumRemove(s - {x}, y, f);
      assert s - {y} - {x} == s - {x} - {y};
    }
  }

  predicate EachCan<T, U>(xs: set<T>, step: Charge<T, U>)
  {
    forall x <- xs :: step.can(x)
  }

  predicate EachFits<T, U>(ys: set<U>, step: Charge<T, U>)
  {
    forall y <- ys :: step.fits(y)
  }

  function ImageSet<T, U>(xs: set<T>, step: Charge<T, U>): set<U>
  {
    set x <- xs :: step.image(x)
  }

  /** All but the given elements of the set are mapped and paid for. */
  ghost predicate SetPass<T, U>(xs: set<T>, todo: set<T>, ys: set<U>, step: Charge<T, U>, before: nat, now: nat)
  {
    && todo <= xs && now + SetSum(xs, step.cost) == before + SetSum(todo, step.cost)
    && EachCan(xs - todo, step) && EachFits(ys, step) && ys == ImageSet(xs - todo, step)
  }

  lemma SetPassStart<T, U>(xs: set<T>, step: Charge<T, U>, before: nat)
    ensures SetPass(xs, xs, {}, step, before, before)
  {
    assert xs - xs == {};
  }

  lemma SetPassStep<T, U>(xs: set<T>, todo: set<T>, ys: set<U>, step: Charge<T, U>, before: nat, now: nat, x: T, y: U)
    requires SetPass(xs, todo, ys, step, before, now) && x in todo && step.can(x) && now >= step.cost(x)
    requires y == step.image(x) && step.fits(y)
    ensures SetPass(xs, todo - {x}, ys + {y}, step, before, now - step.cost(x))
  {
    SetSumRemove(todo, x, step.cost);
    assert xs - (todo - {x}) == (xs - todo) + {x};
  }

  /** Where the pass has to stop, the whole set cannot be mapped within the budget. */
  lemma SetPassStop<T, U>(xs: set<T>, todo: set<T>, ys: set<U>, step: Charge<T, U>, before: nat, now: nat, x: T)
    requires SetPass(xs, todo, ys, step, before, now) && x in todo && !(step.can(x) && now >= step.cost(x))
    ensures !(EachCan(xs, step) && before >= SetSum(xs, step.cost))
  {
    SetSumRemove(todo, x, step.cost);
  }

  lemma SetPassEnd<T, U>(xs: set<T>, ys: set<U>, step: Charge<T, U>, before: nat, now: nat)
    requires SetPass(xs, {}, ys, step, before, now)
    ensures EachCan(xs, step) && EachFits(ys, step) && ys == ImageSet(xs, step)
    ensures before >= SetSum(xs, step.cost) && now == before - SetSum(xs, step.cost)
  {
    assert xs - {} == xs;
  }

  // ----- Relating elements of two collections. -----

  ghost predicate GoesInto<T, U(!new)>(x: T, ys: set<U>, goes: (T, U) -> bool)
  {
    exists y :: y in ys && goes(x, y)
  }

  ghost predicate ComesFrom<T(!new), U>(y: U, xs: set<T>, goes: (T, U) -> bool)
  {
    exists x :: x in xs && goes(x, y)
  }

  /** Every element of the first set goes into the second, and every one of the second comes from the first. */
  ghost predicate SetGoes<T(!new), U(!new)>(xs: set<T>, ys: set<U>, goes: (T, U) -> bool)
  {
    (forall x :: x in xs ==> GoesInto(x, ys, goes)) && (forall y :: y in ys ==> ComesFrom(y, xs, goes))
  }

  ghost predicate ListGoes<T, U>(xs: seq<T>, ys: seq<U>, goes: (T, U) -> bool)
  {
    |ys| == |xs| && forall i :: 0 <= i < |xs| ==> goes(xs[i], ys[i])
  }

  lemma ImageSetGoes<T(!new), U(!new)>(xs: set<T>, step: Charge<T, U>, goes: (T, U) -> bool)
    requires forall x :: x in xs ==> goes(x, step.image(x))
    ensures SetGoes(xs, ImageSet(xs, step), goes)
  {
    var ys := ImageSet(xs, step);
    forall x | x in xs
      ensures GoesInto(x, ys, goes)
    {
      assert step.image(x) in ys;
    }
    forall y | y in ys
      ensures ComesFrom(y, xs, goes)
    {
      var x :| x in xs && step.image(x) == y;
    }
  }

  /** A set whose elements are their own images is its own image. */
  lemma FixedSet<T>(xs: set<T>, step: Charge<T, T>)
    requires forall x :: x in xs ==> step.image(x) == x
    ensures ImageSet(xs, step) == xs
  {
    forall x | x in xs
      ensures x in ImageSet(xs, step)
    {
      assert step.image(x) == x;
    }
  }
}
