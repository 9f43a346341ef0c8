/** Small shared vocabulary: an optional value, integer max/min, the
    filter of a sequence, sums, maxima, minima, exact ratios, means and
    percentages of integer lists, and the whitespace test behind
    JavaScript's `String.prototype.trim`. */
module Common {

  datatype Option<+T> = None | Some(value: T)

  function Max(a: int, b: int): (r: int)
    ensures r >= a && r >= b && (r == a || r == b)
  {
    if a >= b then a else b
  }

  function Min(a: int, b: int): (r: int)
    ensures r <= a && r <= b && (r == a || r == b)
  {
    if a <= b then a else b
  }

  /** `Array.prototype.filter`: keeps, in order, the elements satisfying `f`. */
  function Filter<T>(s: seq<T>, f: T -> bool): (r: seq<T>)
    ensures |r| <= |s|
    ensures forall i :: 0 <= i < |r| ==> r[i] in s && f(r[i])
    ensures forall i :: 0 <= i < |s| && f(s[i]) ==> s[i] in r
  {
    if s == [] then []
    else if f(s[0]) then [s[0]] + Filter(s[1..], f)
    else Filter(s[1..], f)
  }

  lemma FilterSingleton<T>(x: T, f: T -> bool)
    ensures Filter([x], f) == if f(x) then [x] else []
  {
    assert [x][1..] == [];
  }

  lemma {:induction false} FilterAppend<T>(a: seq<T>, b: seq<T>, f: T -> bool)
    ensures Filter(a + b, f) == Filter(a, f) + Filter(b, f)
  {
    if a == [] {
      assert a + b == b;
    } else {
      assert (a + b)[1..] == a[1..] + b;
      FilterAppend(a[1..], b, f);
    }
  }

  /** Filtering keeps every element at most as often as it occurs. */
  lemma {:induction false} FilterMultiset<T>(s: seq<T>, f: T -> bool)
    ensures multiset(Filter(s, f)) <= multiset(s)
  {
    if s != [] {
      var t := s[1..];
      FilterMultiset(t, f);
      assert s == [s[0]] + t;
      assert multiset(s) == multiset{s[0]} + multiset(t);
      if f(s[0]) {
        assert Filter(s, f) == [s[0]] + Filter(t, f);
        assert multiset(Filter(s, f)) == multiset{s[0]} + multiset(Filter(t, f));
      } else {
        assert Filter(s, f) == Filter(t, f);
      }
    }
  }

  /** A relation that holds between every earlier and later element of `s`
      still holds after filtering, which keeps the order. */
  lemma {:induction false} FilterPreservesPairwise<T>(s: seq<T>, f: T -> bool, rel: (T, T) -> bool)
    requires forall i, j :: 0 <= i < j < |s| ==> rel(s[i], s[j])
    ensures forall i, j :: 0 <= i < j < |Filter(s, f)| ==> rel(Filter(s, f)[i], Filter(s, f)[j])
  {
    if s != [] {
      var t := s[1..];
      assert forall i, j :: 0 <= i < j < |t| ==> rel(t[i], t[j]) by {
        forall i, j | 0 <= i < j < |t| ensures rel(t[i], t[j]) {
          assert t[i] == s[i + 1] && t[j] == s[j + 1];
        }
      }
      FilterPreservesPairwise(t, f, rel);
      var ft := Filter(t, f);
      if f(s[0]) {
        var r := [s[0]] + ft;
        forall i, j | 0 <= i < j < |r|
          ensures rel(r[i], r[j])
        {
          if i == 0 {
            assert r[j] == ft[j - 1];
            assert ft[j - 1] in t;
            var k :| 0 <= k < |t| && t[k] == ft[j - 1];
            assert s[k + 1] == t[k];
          } else {
            assert r[i] == ft[i - 1] && r[j] == ft[j - 1];
          }
        }
      }
    }
  }

  /** Filtering keeps every element exactly when all of them satisfy `f`. */
  lemma {:induction false} FilterKeepsAll<T>(s: seq<T>, f: T -> bool)
    ensures |Filter(s, f)| == |s| <==> forall i :: 0 <= i < |s| ==> f(s[i])
  {
    if s != [] {
      var t := s[1..];
      FilterKeepsAll(t, f);
      if f(s[0]) {
        assert Filter(s, f) == [s[0]] + Filter(t, f);
        if |Filter(t, f)| == |t| {
          forall i | 0 <= i < |s| ensures f(s[i]) {
            if i > 0 { assert s[i] == t[i - 1]; }
          }
        }
        if forall i :: 0 <= i < |s| ==> f(s[i]) {
          forall i | 0 <= i < |t| ensures f(t[i]) {
            assert t[i] == s[i + 1];
          }
        }
      }
    }
  }

  /** Filtering keeps nothing exactly when no element satisfies `f`. */
  lemma FilterKeepsNone<T>(s: seq<T>, f: T -> bool)
    ensures |Filter(s, f)| == 0 <==> forall i :: 0 <= i < |s| ==> !f(s[i])
  {
    var r := Filter(s, f);
    if |r| > 0 {
      assert r[0] in s && f(r[0]);
    }
  }

  /** Filtering twice by the same test is filtering once. */
  lemma {:induction false} FilterIdempotent<T>(s: seq<T>, f: T -> bool)
    ensures Filter(Filter(s, f), f) == Filter(s, f)
  {
    if s != [] {
      FilterIdempotent(s[1..], f);
      if f(s[0]) {
        var r := [s[0]] + Filter(s[1..], f);
        assert r[1..] == Filter(s[1..], f);
      }
    }
  }

  function Sum(s: seq<int>): int
  {
    if s == [] then 0 else s[0] + Sum(s[1..])
  }

  /** `Math.max(...s)` on a non-empty list. */
  function MaxOf(s: seq<int>): (r: int)
    requires |s| > 0
    ensures r in s && forall i :: 0 <= i < |s| ==> s[i] <= r
  {
    if |s| == 1 then s[0] else Max(s[0], MaxOf(s[1..]))
  }

  /** `Math.min(...s)` on a non-empty list. */
  function MinOf(s: seq<int>): (r: int)
    requires |s| > 0
    ensures r in s && forall i :: 0 <= i < |s| ==> r <= s[i]
  {
    if |s| == 1 then s[0] else Min(s[0], MinOf(s[1..]))
  }

  lemma MulMonotone(n: int, a: int, b: int)
    requires n >= 0 && a <= b
    ensures n * a <= n * b
  {
  }

  lemma MulSucc(n: int, m: int)
    ensures (n + 1) * m == m + n * m
  {
  }

  /** A sum is at least the length times the minimum. */
  lemma {:induction false} SumAtLeastMin(s: seq<int>)
    requires |s| > 0
    ensures |s| * MinOf(s) <= Sum(s)
  {
    if |s| > 1 {
      var t, m := s[1..], MinOf(s);
      assert Sum(s) == s[0] + Sum(t) && m == Min(s[0], MinOf(t));
      SumAtLeastMin(t);
      MulMonotone(|t|, m, MinOf(t));
      MulSucc(|t|, m);
    }
  }

  /** A sum is at most the length times the maximum. */
  lemma {:induction false} SumAtMostMax(s: seq<int>)
    requires |s| > 0
    ensures Sum(s) <= |s| * MaxOf(s)
  {
    if |s| > 1 {
      var t, m := s[1..], MaxOf(s);
      assert Sum(s) == s[0] + Sum(t) && m == Max(s[0], MaxOf(t));
      SumAtMostMax(t);
      MulMonotone(|t|, MaxOf(t), m);
      MulSucc(|t|, m);
    }
  }

  /** A sum grows with its elements. */
  lemma {:induction false} SumMonotone(a: seq<int>, b: seq<int>)
    requires |a| == |b| && forall i :: 0 <= i < |a| ==> a[i] <= b[i]
    ensures Sum(a) <= Sum(b)
  {
    if a != [] {
      SumMonotone(a[1..], b[1..]);
    }
  }

  /** With no negative element, the maximum is at most the sum. */
  lemma {:induction false} MaxAtMostSum(s: seq<int>)
    requires |s| > 0 && forall i :: 0 <= i < |s| ==> s[i] >= 0
    ensures MaxOf(s) <= Sum(s)
  {
    if |s| > 1 {
      MaxAtMostSum(s[1..]);
      assert Sum(s[1..]) >= 0 by { SumNonNegative(s[1..]); }
    }
  }

  lemma {:induction false} SumNonNegative(s: seq<int>)
    requires forall i :: 0 <= i < |s| ==> s[i] >= 0
    ensures Sum(s) >= 0
  {
    if s != [] {
      SumNonNegative(s[1..]);
    }
  }

  /** The sum of squared deviations from `m`, the numerator of a variance. */
  function SquaredDeviations(s: seq<int>, m: real): (r: real)
    ensures r >= 0.0
  {
    if s == [] then 0.0 else (s[0] as real - m) * (s[0] as real - m) + SquaredDeviations(s[1..], m)
  }

  /** `a / b`, exactly. */
  function Ratio(a: int, b: int): (r: real)
    requires b > 0
    ensures r * b as real == a as real
    ensures a >= 0 ==> r >= 0.0
  {
    a as real / b as real
  }

  /** `total / n`: the mean of `n` values summing to `total`. */
  function Mean(total: int, n: int): (m: real)
    requires n > 0
    ensures m * n as real == total as real
    ensures total >= 0 ==> m >= 0.0
  {
    Ratio(total, n)
  }

  /** A larger total over the same count has a larger mean. */
  lemma MeanMonotone(a: int, b: int, n: int)
    requires n > 0 && a <= b
    ensures Mean(a, n) <= Mean(b, n)
  {
    var ma, mb := Mean(a, n), Mean(b, n);
    if ma > mb {
      assert ma * n as real > mb * n as real;
    }
  }

  /** `a` as a percentage of `b`, exactly. */
  function Percent(a: int, b: int): real
    requires b > 0
  {
    Ratio(a, b) * 100.0
  }

  lemma PercentBounds(a: int, b: int)
    requires b > 0
    ensures 0 <= a <= b ==> 0.0 <= Percent(a, b) <= 100.0
    ensures Percent(a, b) == 100.0 <==> a == b
    ensures Percent(a, b) == 0.0 <==> a == 0
  {
    var q := Ratio(a, b);
    assert q * b as real == a as real;
  }

  /** A quotient by `n` of a sum between `n * lo` and `n * hi` lies
      between `lo` and `hi`. */
  lemma QuotientBetween(lo: int, sum: int, hi: int, n: int)
    requires n > 0 && n * lo <= sum <= n * hi
    ensures lo as real <= sum as real / n as real <= hi as real
  {
    var q := sum as real / n as real;
    assert q * n as real == sum as real;
    assert (n * lo) as real == n as real * lo as real;
    assert (n * hi) as real == n as real * hi as real;
  }

  /** The mean of `s` lies between its minimum and its maximum. */
  lemma MeanBetweenMinAndMax(s: seq<int>)
    requires |s| > 0
    ensures MinOf(s) as real <= Mean(Sum(s), |s|) <= MaxOf(s) as real
  {
    SumAtLeastMin(s);
    SumAtMostMax(s);
    QuotientBetween(MinOf(s), Sum(s), MaxOf(s), |s|);
  }

  /** The characters `String.prototype.trim` removes: WhiteSpace and
      LineTerminator of ECMAScript (section 12.2 and 12.3 of ECMA-262). */
  predicate IsJsWhitespace(c: char)
  {
    c == '\t' || c == '\U{000B}' || c == '\U{000C}' || c == ' ' ||
    c == '\U{00A0}' || c == '\U{FEFF}' || c == '\n' || c == '\r' ||
    c == '\U{2028}' || c == '\U{2029}' || c == '\U{1680}' ||
    ('\U{2000}' <= c <= '\U{200A}') || c == '\U{202F}' || c == '\U{205F}' ||
    c == '\U{3000}'
  }

  /** `!s.trim()`: trimming leaves the empty string exactly when every
      character is whitespace. */
  predicate IsBlank(s: string)
  {
    forall i :: 0 <= i < |s| ==> IsJsWhitespace(s[i])
  }

  lemma Regroup<T>(x: seq<T>, a: T, r: seq<T>, y: seq<T>)
    ensures x + [a] + r + y == (x + ([a] + r)) + y
  {
  }

  /** Replacing a dropped last element by another dropped one, and
      dropping `y` after it, leaves the filtered list as it was. */
  lemma FilterReplaceLast<T>(init: seq<T>, last: T, grown: T, y: T, f: T -> bool)
    requires !f(last) && !f(grown) && !f(y)
    ensures Filter(init + [grown], f) == Filter(init + [last], f) + Filter([y], f)
  {
    FilterSingleton(last, f);
    FilterSingleton(grown, f);
    FilterSingleton(y, f);
    FilterAppend(init, [last], f);
    FilterAppend(init, [grown], f);
    calc {
      Filter(init + [grown], f);
      Filter(init, f) + [];
      Filter(init + [last], f) + Filter([y], f);
    }
  }

  lemma SplitAt<T>(s: seq<T>, k: nat)
    requires k < |s|
    ensures s == s[..k] + ([s[k]] + s[k + 1..])
  {
  }

  /** `s` without its element at `k`, as `splice(k, 1)` leaves it. */
  function RemoveAt<T>(s: seq<T>, k: nat): (r: seq<T>)
    requires k < |s|
    ensures |r| == |s| - 1
    ensures multiset(r) + multiset{s[k]} == multiset(s)
  {
    assert s == s[..k] + [s[k]] + s[k + 1..];
    s[..k] + s[k + 1..]
  }

  /** Taking the first element of `a` out of `b` leaves the rest of `a`. */
  lemma RemoveFirstMatch<T>(a: seq<T>, b: seq<T>, k: nat)
    requires multiset(a) == multiset(b) && a != [] && k < |b| && b[k] == a[0]
    ensures multiset(a[1..]) == multiset(RemoveAt(b, k))
  {
    assert a == [a[0]] + a[1..];
    assert multiset(a) == multiset{a[0]} + multiset(a[1..]);
    MultisetCancel(multiset(a[1..]), multiset(RemoveAt(b, k)), a[0]);
  }

  lemma MultisetCancel<T>(x: multiset<T>, y: multiset<T>, e: T)
    requires x + multiset{e} == y + multiset{e}
    ensures x == y
  {
    assert x == (x + multiset{e}) - multiset{e};
    assert y == (y + multiset{e}) - multiset{e};
  }
}
