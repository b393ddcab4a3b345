/** Lists kept in key order, as `sort_by_key` leaves them. */
module SortedLists {
  import opened Prelude

  /** Inserts after the elements with the same or a smaller key. */
  function InsertBy<T>(s: seq<T>, x: T, key: T -> Rank): seq<T>
  {
    if s == [] || key(x) < key(s[0]) then [x] + s else [s[0]] + InsertBy(s[1..], x, key)
  }

  /** Stable sorting. */
  function SortBy<T>(s: seq<T>, key: T -> Rank): seq<T>
  {
    if s == [] then [] else InsertBy(SortBy(Rest(s), key), Top(s), key)
  }

  predicate Weakly<T>(s: seq<T>, key: T -> Rank)
  {
    forall i, j :: 0 <= i < j < |s| ==> key(s[i]) <= key(s[j])
  }

  predicate Strictly<T>(s: seq<T>, key: T -> Rank)
  {
    forall i, j :: 0 <= i < j < |s| ==> key(s[i]) < key(s[j])
  }

  lemma {:induction false} InsertElems<T>(s: seq<T>, x: T, key: T -> Rank)
    ensures Elems(InsertBy(s, x, key)) == Elems(s) + {x}
    ensures |InsertBy(s, x, key)| == |s| + 1
  {
    if s == [] || key(x) < key(s[0]) {
      ElemsAppend([x], s);
    } else {
      InsertElems(s[1..], x, key);
      ElemsAppend([s[0]], InsertBy(s[1..], x, key));
      assert s == [s[0]] + s[1..];
      ElemsAppend([s[0]], s[1..]);
    }
  }

  lemma {:induction false} SortElems<T>(s: seq<T>, key: T -> Rank)
    ensures Elems(SortBy(s, key)) == Elems(s)
    ensures |SortBy(s, key)| == |s|
  {
    if s != [] {
      SortElems(Rest(s), key);
      InsertElems(SortBy(Rest(s), key), Top(s), key);
      ElemsAppend(Rest(s), [Top(s)]);
    }
  }

  lemma {:induction false} InsertWeakly<T>(s: seq<T>, x: T, key: T -> Rank)
    requires Weakly(s, key)
    ensures Weakly(InsertBy(s, x, key), key)
  {
    if !(s == [] || key(x) < key(s[0])) {
      InsertWeakly(s[1..], x, key);
      InsertElems(s[1..], x, key);
      var tail := InsertBy(s[1..], x, key);
      forall j | 0 <= j < |tail|
        ensures key(s[0]) <= key(tail[j])
      {
        assert tail[j] in Elems(tail);
        if tail[j] != x {
          assert tail[j] in s[1..];
        }
      }
    }
  }

  lemma {:induction false} SortWeakly<T>(s: seq<T>, key: T -> Rank)
    ensures Weakly(SortBy(s, key), key)
  {
    if s != [] {
      SortWeakly(Rest(s), key);
      InsertWeakly(SortBy(Rest(s), key), Top(s), key);
    }
  }

  lemma {:induction false} InsertStrictly<T>(s: seq<T>, x: T, key: T -> Rank)
    requires Strictly(s, key) && forall i :: 0 <= i < |s| ==> key(s[i]) != key(x)
    ensures Strictly(InsertBy(s, x, key), key)
  {
    if !(s == [] || key(x) < key(s[0])) {
      InsertStrictly(s[1..], x, key);
      InsertElems(s[1..], x, key);
      var tail := InsertBy(s[1..], x, key);
      forall j | 0 <= j < |tail|
        ensures key(s[0]) < key(tail[j])
      {
        assert tail[j] in Elems(tail);
        if tail[j] != x {
          assert tail[j] in s[1..];
        }
      }
    }
  }

  lemma {:induction false} InsertLast<T>(s: seq<T>, x: T, key: T -> Rank)
    requires forall i :: 0 <= i < |s| ==> key(s[i]) < key(x)
    ensures InsertBy(s, x, key) == s + [x]
  {
    if s != [] {
      InsertLast(s[1..], x, key);
    }
  }

  /** Sorting changes nothing that is already sorted. */
  lemma {:induction false} SortSorted<T>(s: seq<T>, key: T -> Rank)
    requires Strictly(s, key)
    ensures SortBy(s, key) == s
  {
    if s != [] {
      SortSorted(Rest(s), key);
      InsertLast(Rest(s), Top(s), key);
    }
  }

  /** Pushing onto a sorted list and sorting it again inserts the new element. */
  lemma SortPushed<T>(s: seq<T>, x: T, key: T -> Rank)
    requires Strictly(s, key)
    ensures SortBy(s + [x], key) == InsertBy(s, x, key)
  {
    assert Rest(s + [x]) == s && Top(s + [x]) == x;
    SortSorted(s, key);
  }

  // ----- Recording into a list with one entry per key. -----

  function Lookup<T>(s: seq<T>, k: Rank, key: T -> Rank): Option<T>
  {
    if s == [] then None else if key(s[0]) == k then Some(s[0]) else Lookup(s[1..], k, key)
  }

  /** The first entry with the key of `x` is merged with `x`. */
  function MergeAt<T>(s: seq<T>, x: T, key: T -> Rank, merge: (T, T) -> T): seq<T>
  {
    if s == [] then []
    else if key(s[0]) == key(x) then [merge(s[0], x)] + s[1..]
    else [s[0]] + MergeAt(s[1..], x, key, merge)
  }

  /** Merges `x` into its entry, or pushes it and sorts. */
  function Upsert<T>(s: seq<T>, x: T, key: T -> Rank, merge: (T, T) -> T): seq<T>
  {
    if Lookup(s, key(x), key).Some? then MergeAt(s, x, key, merge) else SortBy(s + [x], key)
  }

  function UpsertAll<T>(s: seq<T>, log: seq<T>, key: T -> Rank, merge: (T, T) -> T): seq<T>
    decreases |log|
  {
    if log == [] then s else UpsertAll(Upsert(s, log[0], key, merge), log[1..], key, merge)
  }

  ghost predicate KeepsKey<T(!new)>(key: T -> Rank, merge: (T, T) -> T)
  {
    forall a, b :: key(merge(a, b)) == key(a)
  }

  lemma {:induction false} LookupNone<T>(s: seq<T>, k: Rank, key: T -> Rank)
    ensures Lookup(s, k, key).None? <==> forall i :: 0 <= i < |s| ==> key(s[i]) != k
  {
    if s != [] {
      LookupNone(s[1..], k, key);
      if Lookup(s, k, key).None? {
        forall i | 0 <= i < |s|
          ensures key(s[i]) != k
        {
          if i > 0 {
            assert s[1..][i - 1] == s[i];
          }
        }
      }
    }
  }

  lemma {:induction false} MergeAtKeys<T(!new)>(s: seq<T>, x: T, key: T -> Rank, merge: (T, T) -> T)
    requires KeepsKey(key, merge)
    ensures |MergeAt(s, x, key, merge)| == |s|
    ensures forall i :: 0 <= i < |s| ==> key(MergeAt(s, x, key, merge)[i]) == key(s[i])
  {
    if s != [] {
      MergeAtKeys(s[1..], x, key, merge);
    }
  }

  /** Recording keeps one entry per key, in key order. */
  lemma UpsertStrictly<T(!new)>(s: seq<T>, x: T, key: T -> Rank, merge: (T, T) -> T)
    requires KeepsKey(key, merge) && Strictly(s, key)
    ensures Strictly(Upsert(s, x, key, merge), key)
  {
    LookupNone(s, key(x), key);
    if Lookup(s, key(x), key).Some? {
      MergeAtKeys(s, x, key, merge);
    } else {
      SortPushed(s, x, key);
      InsertStrictly(s, x, key);
    }
  }

  lemma {:induction false} MergeAtLookup<T(!new)>(s: seq<T>, x: T, key: T -> Rank, merge: (T, T) -> T, k: Rank)
    requires KeepsKey(key, merge)
    ensures var old' := Lookup(s, k, key);
            Lookup(MergeAt(s, x, key, merge), k, key) == if k == key(x) && old'.Some? then Some(merge(old'.value, x)) else old'
  {
    if s != [] {
      MergeAtLookup(s[1..], x, key, merge, k);
      var merged := MergeAt(s, x, key, merge);
      if key(s[0]) == key(x) {
        assert merged[0] == merge(s[0], x) && merged[1..] == s[1..];
      } else {
        assert merged[0] == s[0] && merged[1..] == MergeAt(s[1..], x, key, merge);
      }
    }
  }

  lemma {:induction false} InsertLookup<T>(s: seq<T>, x: T, key: T -> Rank, k: Rank)
    requires Lookup(s, key(x), key).None?
    ensures Lookup(InsertBy(s, x, key), k, key) == if k == key(x) then Some(x) else Lookup(s, k, key)
  {
    var inserted := InsertBy(s, x, key);
    if s == [] || key(x) < key(s[0]) {
      assert inserted[0] == x && inserted[1..] == s;
    } else {
      InsertLookup(s[1..], x, key, k);
      assert inserted[0] == s[0] && inserted[1..] == InsertBy(s[1..], x, key);
    }
  }

  function MergeInto<T>(entry: Option<T>, x: T, merge: (T, T) -> T): T
  {
    if entry.Some? then merge(entry.value, x) else x
  }

  lemma UpsertLookup<T(!new)>(s: seq<T>, x: T, key: T -> Rank, merge: (T, T) -> T, k: Rank)
    requires KeepsKey(key, merge) && Strictly(s, key)
    ensures Lookup(Upsert(s, x, key, merge), k, key)
         == if k == key(x) then Some(MergeInto(Lookup(s, k, key), x, merge)) else Lookup(s, k, key)
  {
    if Lookup(s, key(x), key).Some? {
      MergeAtLookup(s, x, key, merge, k);
    } else {
      SortPushed(s, x, key);
      InsertLookup(s, x, key, k);
    }
  }

  /** What joining two lists leaves under one key. */
  function MergedEntry<T>(a: Option<T>, b: Option<T>, merge: (T, T) -> T): Option<T>
  {
    if b.None? then a else Some(MergeInto(a, b.value, merge))
  }

  lemma {:induction false} UpsertAllStrictly<T(!new)>(s: seq<T>, log: seq<T>, key: T -> Rank, merge: (T, T) -> T)
    requires KeepsKey(key, merge) && Strictly(s, key)
    ensures Strictly(UpsertAll(s, log, key, merge), key)
    decreases |log|
  {
    if log != [] {
      UpsertStrictly(s, log[0], key, merge);
      UpsertAllStrictly(Upsert(s, log[0], key, merge), log[1..], key, merge);
    }
  }

  lemma {:induction false} UpsertAllLookup<T(!new)>(s: seq<T>, log: seq<T>, key: T -> Rank, merge: (T, T) -> T, k: Rank)
    requires KeepsKey(key, merge) && Strictly(s, key) && Strictly(log, key)
    ensures Lookup(UpsertAll(s, log, key, merge), k, key) == MergedEntry(Lookup(s, k, key), Lookup(log, k, key), merge)
    decreases |log|
  {
    if log != [] {
      UpsertStrictly(s, log[0], key, merge);
      UpsertLookup(s, log[0], key, merge, k);
      UpsertAllLookup(Upsert(s, log[0], key, merge), log[1..], key, merge, k);
      LookupNone(log[1..], k, key);
    }
  }

  /** Whether some record of the log changes the list when its turn comes. */
  predicate ChangesAlong<T(==)>(s: seq<T>, log: seq<T>, key: T -> Rank, merge: (T, T) -> T)
    decreases |log|
  {
    log != [] && (Upsert(s, log[0], key, merge) != s || ChangesAlong(Upsert(s, log[0], key, merge), log[1..], key, merge))
  }

  lemma {:induction false} MergeAtSame<T>(s: seq<T>, x: T, key: T -> Rank, merge: (T, T) -> T)
    requires Lookup(s, key(x), key).Some? && merge(Lookup(s, key(x), key).value, x) == Lookup(s, key(x), key).value
    ensures MergeAt(s, x, key, merge) == s
  {
    if key(s[0]) != key(x) {
      MergeAtSame(s[1..], x, key, merge);
    }
  }

  /** A record changes the list exactly when it changes the entry of its key. */
  lemma UpsertChanges<T(!new)>(s: seq<T>, x: T, key: T -> Rank, merge: (T, T) -> T)
    requires KeepsKey(key, merge) && Strictly(s, key)
    ensures Upsert(s, x, key, merge) != s <==> Lookup(Upsert(s, x, key, merge), key(x), key) != Lookup(s, key(x), key)
  {
    UpsertLookup(s, x, key, merge, key(x));
    var entry := Lookup(s, key(x), key);
    if entry.Some? && merge(entry.value, x) == entry.value {
      MergeAtSame(s, x, key, merge);
    }
  }

  /** With one record per key no later record undoes a change. */
  lemma {:induction false} ChangesStay<T(!new)>(s: seq<T>, log: seq<T>, key: T -> Rank, merge: (T, T) -> T)
    requires KeepsKey(key, merge) && Strictly(s, key)
    ensures !ChangesAlong(s, log, key, merge) ==> UpsertAll(s, log, key, merge) == s
    ensures Strictly(log, key) && ChangesAlong(s, log, key, merge) ==> UpsertAll(s, log, key, merge) != s
    decreases |log|
  {
    if log != [] {
      var next, k := Upsert(s, log[0], key, merge), key(log[0]);
      UpsertStrictly(s, log[0], key, merge);
      ChangesStay(next, log[1..], key, merge);
      UpsertChanges(s, log[0], key, merge);
      if Strictly(log, key) {
        UpsertAllLookup(next, log[1..], key, merge, k);
        LookupNone(log[1..], k, key);
      }
    }
  }

  /** A run of recording, joining and settling every entry, as a tree of the lists it builds. */
  datatype Run<!T> =
    | Start
    | Recording(before: Run<T>, fact: T)
    | Joining(before: Run<T>, other: Run<T>)
    | Settling(before: Run<T>, settle: T -> T)

  function SettleAll<T>(s: seq<T>, settle: T -> T): (r: seq<T>)
    ensures |r| == |s| && forall i :: 0 <= i < |s| ==> r[i] == settle(s[i])
  {
    if s == [] then [] else [settle(s[0])] + SettleAll(s[1..], settle)
  }

  function Entries<T>(run: Run<T>, key: T -> Rank, merge: (T, T) -> T): seq<T>
  {
    match run
    case Start => []
    case Recording(before, fact) => Upsert(Entries(before, key, merge), fact, key, merge)
    case Joining(before, other) => UpsertAll(Entries(before, key, merge), Entries(other, key, merge), key, merge)
    case Settling(before, settle) => SettleAll(Entries(before, key, merge), settle)
  }

  /** Everything recorded anywhere in the run. */
  function LogOf<T>(run: Run<T>): seq<T>
  {
    match run
    case Start => []
    case Recording(before, fact) => LogOf(before) + [fact]
    case Joining(before, other) => LogOf(before) + LogOf(other)
    case Settling(before, _) => LogOf(before)
  }

  /** Settling leaves every entry under its key. */
  ghost predicate SettlesInPlace<T(!new)>(run: Run<T>, key: T -> Rank)
  {
    match run
    case Start => true
    case Recording(before, _) => SettlesInPlace(before, key)
    case Joining(before, other) => SettlesInPlace(before, key) && SettlesInPlace(other, key)
    case Settling(before, settle) => SettlesInPlace(before, key) && forall x :: key(settle(x)) == key(x)
  }

  lemma {:induction false} SettleLookup<T(!new)>(s: seq<T>, settle: T -> T, k: Rank, key: T -> Rank)
    requires forall x :: key(settle(x)) == key(x)
    ensures var found := Lookup(s, k, key); Lookup(SettleAll(s, settle), k, key) == if found.Some? then Some(settle(found.value)) else None
  {
    if s != [] {
      SettleLookup(s[1..], settle, k, key);
      assert SettleAll(s, settle)[1..] == SettleAll(s[1..], settle);
    }
  }

  /** Every run keeps one entry per key, in key order. */
  lemma {:induction false} EntriesStrictly<T(!new)>(run: Run<T>, key: T -> Rank, merge: (T, T) -> T)
    requires KeepsKey(key, merge) && SettlesInPlace(run, key)
    ensures Strictly(Entries(run, key, merge), key)
  {
    match run
    case Start =>
    case Recording(before, fact) =>
      EntriesStrictly(before, key, merge);
      UpsertStrictly(Entries(before, key, merge), fact, key, merge);
    case Joining(before, other) =>
      EntriesStrictly(before, key, merge);
      EntriesStrictly(other, key, merge);
      UpsertAllStrictly(Entries(before, key, merge), Entries(other, key, merge), key, merge);
    case Settling(before, settle) =>
      EntriesStrictly(before, key, merge);
  }
}
