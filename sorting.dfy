/** JavaScript's `Array.prototype.sort` with a numeric comparator
    `(a, b) => key(a) - key(b)` is a stable sort (ECMA-262 requires
    stability since 2019). It is modelled here by a stable insertion
    sort, and `sort(...)[0]` after a `filter` is shown to be the first
    element of minimal key among those the filter keeps. */
module Sorting {
  import opened Common

  predicate Sorted<T>(s: seq<T>, key: T -> int)
  {
    forall i, j :: 0 <= i < j < |s| ==> key(s[i]) <= key(s[j])
  }

  /** Puts `x` in front of the first element whose key is not smaller,
      so `x` precedes every element of equal key (stability, given that
      `x` came first in the input). */
  function Insert<T>(x: T, t: seq<T>, key: T -> int): (r: seq<T>)
    ensures |r| == |t| + 1
    ensures multiset(r) == multiset(t) + multiset{x}
  {
    if t == [] || key(x) <= key(t[0]) then [x] + t
    else
      assert t == [t[0]] + t[1..];
      [t[0]] + Insert(x, t[1..], key)
  }

  lemma {:induction false} InsertSorted<T>(x: T, t: seq<T>, key: T -> int)
    requires Sorted(t, key)
    ensures Sorted(Insert(x, t, key), key)
  {
    if t != [] && key(x) > key(t[0]) {
      var rest := Insert(x, t[1..], key);
      InsertSorted(x, t[1..], key);
      forall j | 0 <= j < |rest|
        ensures key(t[0]) <= key(rest[j])
      {
        assert rest[j] in multiset(rest);
        assert rest[j] == x || rest[j] in t[1..];
      }
      assert Insert(x, t, key) == [t[0]] + rest;
    }
  }

  function SortBy<T>(s: seq<T>, key: T -> int): (r: seq<T>)
    ensures |r| == |s|
    ensures multiset(r) == multiset(s)
    ensures Sorted(r, key)
  {
    if s == [] then []
    else
      assert s == [s[0]] + s[1..];
      InsertSorted(s[0], SortBy(s[1..], key), key);
      Insert(s[0], SortBy(s[1..], key), key)
  }

  /** Sorting a sequence that is already in order changes nothing. */
  lemma {:induction false} SortByIdentity<T>(s: seq<T>, key: T -> int)
    requires Sorted(s, key)
    ensures SortBy(s, key) == s
  {
    if s != [] {
      assert Sorted(s[1..], key);
      SortByIdentity(s[1..], key);
      assert s == [s[0]] + s[1..];
    }
  }

  /** Index of the first element satisfying `pick` whose key is minimal
      among those satisfying `pick` (`reduce` with a strict comparison). */
  function FirstMinIndex<T>(s: seq<T>, key: T -> int, pick: T -> bool): (r: Option<nat>)
    ensures r.None? <==> forall i :: 0 <= i < |s| ==> !pick(s[i])
    ensures r.Some? ==> r.value < |s| && pick(s[r.value])
    ensures r.Some? ==> forall j :: 0 <= j < |s| && pick(s[j]) ==> key(s[r.value]) <= key(s[j])
    ensures r.Some? ==> forall j :: 0 <= j < r.value && pick(s[j]) ==> key(s[j]) > key(s[r.value])
  {
    if s == [] then None
    else
      var rest := FirstMinIndex(s[1..], key, pick);
      if !pick(s[0]) then
        (if rest.None? then None else Some(rest.value + 1))
      else if rest.None? || key(s[0]) <= key(s[rest.value + 1]) then Some(0)
      else Some(rest.value + 1)
  }

  lemma InsertHead<T>(x: T, t: seq<T>, key: T -> int)
    ensures Insert(x, t, key)[0] == if t == [] || key(x) <= key(t[0]) then x else t[0]
  {
  }

  /** Sorting `[x] + t` inserts `x` into the sorted `t`. */
  lemma SortByCons<T>(x: T, t: seq<T>, key: T -> int)
    ensures SortBy([x] + t, key) == Insert(x, SortBy(t, key), key)
  {
    assert ([x] + t)[0] == x && ([x] + t)[1..] == t;
  }

  /** `filter(pick).sort(key)[0]` is the first minimal element kept by
      the filter, and there is none exactly when the filter keeps nothing. */
  lemma {:induction false} SortFilterHead<T>(s: seq<T>, key: T -> int, pick: T -> bool)
    ensures |Filter(s, pick)| == 0 <==> FirstMinIndex(s, key, pick).None?
    ensures |Filter(s, pick)| > 0 ==>
      SortBy(Filter(s, pick), key)[0] == s[FirstMinIndex(s, key, pick).value]
  {
    if s != [] {
      SortFilterHead(s[1..], key, pick);
      if pick(s[0]) {
        SortFilterHeadPicked(s, key, pick);
      } else {
        SortFilterHeadSkipped(s, key, pick);
      }
    }
  }

  /** `FirstMinIndex` on a list whose first element is kept. */
  lemma FirstMinIndexPicked<T>(s: seq<T>, key: T -> int, pick: T -> bool)
    requires s != [] && pick(s[0])
    ensures var rest := FirstMinIndex(s[1..], key, pick);
      FirstMinIndex(s, key, pick) ==
        if rest.None? || key(s[0]) <= key(s[rest.value + 1]) then Some(0) else Some(rest.value + 1)
  {
  }

  /** The step of `SortFilterHead` where the filter drops the first
      element: the answer is that of the rest, shifted by one. */
  lemma SortFilterHeadSkipped<T>(s: seq<T>, key: T -> int, pick: T -> bool)
    requires s != [] && !pick(s[0])
    requires |Filter(s[1..], pick)| == 0 <==> FirstMinIndex(s[1..], key, pick).None?
    requires |Filter(s[1..], pick)| > 0 ==>
      SortBy(Filter(s[1..], pick), key)[0] == s[1..][FirstMinIndex(s[1..], key, pick).value]
    ensures |Filter(s, pick)| == 0 <==> FirstMinIndex(s, key, pick).None?
    ensures |Filter(s, pick)| > 0 ==>
      SortBy(Filter(s, pick), key)[0] == s[FirstMinIndex(s, key, pick).value]
  {
    var rest := FirstMinIndex(s[1..], key, pick);
    assert Filter(s, pick) == Filter(s[1..], pick);
    assert FirstMinIndex(s, key, pick) == if rest.None? then None else Some(rest.value + 1);
  }

  /** The step of `SortFilterHead` where the filter keeps the first
      element: it heads the sorted list exactly when no later kept
      element has a smaller key. */
  lemma SortFilterHeadPicked<T>(s: seq<T>, key: T -> int, pick: T -> bool)
    requires s != [] && pick(s[0])
    requires |Filter(s[1..], pick)| == 0 <==> FirstMinIndex(s[1..], key, pick).None?
    requires |Filter(s[1..], pick)| > 0 ==>
      SortBy(Filter(s[1..], pick), key)[0] == s[1..][FirstMinIndex(s[1..], key, pick).value]
    ensures |Filter(s, pick)| > 0 && FirstMinIndex(s, key, pick).Some?
    ensures SortBy(Filter(s, pick), key)[0] == s[FirstMinIndex(s, key, pick).value]
  {
    var f := Filter(s[1..], pick);
    var t := SortBy(f, key);
    var rest := FirstMinIndex(s[1..], key, pick);
    assert Filter(s, pick) == [s[0]] + f;
    SortByCons(s[0], f, key);
    InsertHead(s[0], t, key);
    FirstMinIndexPicked(s, key, pick);
    var head := Insert(s[0], t, key)[0];
    assert SortBy(Filter(s, pick), key)[0] == head;
    if |f| == 0 {
      assert t == [] && rest.None?;
      assert head == s[0] && FirstMinIndex(s, key, pick) == Some(0);
    } else {
      assert t[0] == s[rest.value + 1];
      if key(s[0]) <= key(t[0]) {
        assert head == s[0] && FirstMinIndex(s, key, pick) == Some(0);
      } else {
        assert head == t[0] && FirstMinIndex(s, key, pick) == Some(rest.value + 1);
      }
    }
  }
}
