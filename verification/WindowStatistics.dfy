/** Statistics of a window of values, over exact reals. */
module WindowStatistics {

  /** The last `w` values, or all if there are fewer. */
  function Last(s: seq<real>, w: nat): seq<real> {
    if |s| <= w then s else s[|s| - w..]
  }

  lemma {:induction false} LastAppend(s: seq<real>, x: real, w: nat)
    requires w >= 1
    ensures Last(s + [x], w) == (if |Last(s, w)| < w then Last(s, w) + [x] else Last(s, w)[1..] + [x])
    ensures |Last(s + [x], w)| == (if |s| + 1 < w then |s| + 1 else w)
  {
  }

  function Sum(s: seq<real>): real {
    if s == [] then 0.0 else Sum(s[..|s| - 1]) + s[|s| - 1]
  }

  function Mean(s: seq<real>): real
    requires s != []
  {
    Sum(s) / |s| as real
  }

  function MinOf(s: seq<real>): real
    requires s != []
  {
    if |s| == 1 then s[0]
    else
      var m := MinOf(s[..|s| - 1]);
      if s[|s| - 1] < m then s[|s| - 1] else m
  }

  function MaxOf(s: seq<real>): real
    requires s != []
  {
    if |s| == 1 then s[0]
    else
      var m := MaxOf(s[..|s| - 1]);
      if s[|s| - 1] > m then s[|s| - 1] else m
  }

  lemma {:induction false} MinIsLeast(s: seq<real>)
    requires s != []
    ensures MinOf(s) in s && forall x :: x in s ==> MinOf(s) <= x
  {
    if |s| > 1 {
      MinIsLeast(s[..|s| - 1]);
      assert s == s[..|s| - 1] + [s[|s| - 1]];
    }
  }

  lemma {:induction false} MaxIsGreatest(s: seq<real>)
    requires s != []
    ensures MaxOf(s) in s && forall x :: x in s ==> x <= MaxOf(s)
  {
    if |s| > 1 {
      MaxIsGreatest(s[..|s| - 1]);
      assert s == s[..|s| - 1] + [s[|s| - 1]];
    }
  }

  lemma {:induction false} LessTimes(a: real, b: real, n: real)
    requires a < b && n > 0.0
    ensures a * n < b * n
  {
    assert (b - a) * n > 0.0;
  }

  lemma {:induction false} Quotient(total: real, n: real, lo: real, hi: real)
    requires n > 0.0 && lo * n <= total <= hi * n
    ensures lo <= total / n <= hi
  {
    var q := total / n;
    assert q * n == total;
    if q < lo {
      LessTimes(q, lo, n);
    } else if q > hi {
      LessTimes(hi, q, n);
    }
  }

  /** The mean lies between the least and the greatest value of the window. */
  lemma {:induction false} MeanIsBetween(s: seq<real>)
    requires s != []
    ensures MinOf(s) <= Mean(s) <= MaxOf(s)
  {
    MinIsLeast(s);
    MaxIsGreatest(s);
    SumBounds(s, MinOf(s), MaxOf(s));
    Quotient(Sum(s), |s| as real, MinOf(s), MaxOf(s));
  }

  lemma {:induction false} OneMore(x: real, n: nat)
    ensures x * (n + 1) as real == x * n as real + x
  {
  }

  lemma {:induction false} SumBounds(s: seq<real>, lo: real, hi: real)
    requires forall x :: x in s ==> lo <= x <= hi
    ensures lo * |s| as real <= Sum(s) <= hi * |s| as real
  {
    if s != [] {
      var front := s[..|s| - 1];
      assert s[|s| - 1] in s && forall x :: x in front ==> x in s;
      SumBounds(front, lo, hi);
      OneMore(lo, |front|);
      OneMore(hi, |front|);
    }
  }

  // ----- Median -----

  ghost predicate IsSorted(s: seq<real>) {
    forall i, j :: 0 <= i < j < |s| ==> s[i] <= s[j]
  }

  function Insert(x: real, s: seq<real>): seq<real> {
    if s == [] || x <= s[0] then [x] + s else [s[0]] + Insert(x, s[1..])
  }

  /** The values in ascending order. */
  function Sort(s: seq<real>): seq<real> {
    if s == [] then [] else Insert(s[0], Sort(s[1..]))
  }

  lemma {:induction false} InsertContents(x: real, s: seq<real>)
    ensures multiset(Insert(x, s)) == multiset{x} + multiset(s)
    ensures forall y :: y in Insert(x, s) ==> y == x || y in s
  {
    if s == [] || x <= s[0] {
      assert multiset([x] + s) == multiset([x]) + multiset(s);
    } else {
      InsertContents(x, s[1..]);
      assert s == [s[0]] + s[1..];
      assert multiset([s[0]] + Insert(x, s[1..])) == multiset([s[0]]) + multiset(Insert(x, s[1..]));
    }
  }

  lemma {:induction false} SortedCons(x: real, s: seq<real>)
    requires IsSorted(s) && forall y :: y in s ==> x <= y
    ensures IsSorted([x] + s)
  {
    var all := [x] + s;
    forall i, j | 0 <= i < j < |all| ensures all[i] <= all[j] {
      assert all[j] == s[j - 1] && s[j - 1] in s;
      assert i > 0 ==> all[i] == s[i - 1];
    }
  }

  lemma {:induction false} HeadIsLeast(s: seq<real>)
    requires IsSorted(s) && s != []
    ensures forall y :: y in s ==> s[0] <= y
  {
  }

  lemma {:induction false} InsertSorted(x: real, s: seq<real>)
    requires IsSorted(s)
    ensures IsSorted(Insert(x, s))
  {
    if s == [] {
    } else if x <= s[0] {
      HeadIsLeast(s);
      SortedCons(x, s);
    } else {
      InsertSorted(x, s[1..]);
      InsertContents(x, s[1..]);
      HeadIsLeast(s);
      SortedCons(s[0], Insert(x, s[1..]));
    }
  }

  lemma {:induction false} SortSorts(s: seq<real>)
    ensures IsSorted(Sort(s)) && multiset(Sort(s)) == multiset(s) && |Sort(s)| == |s|
  {
    if s != [] {
      SortSorts(s[1..]);
      InsertSorted(s[0], Sort(s[1..]));
      InsertContents(s[0], Sort(s[1..]));
      assert s == [s[0]] + s[1..];
    }
    assert |multiset(Sort(s))| == |multiset(s)|;
  }

  lemma {:induction false} SameHead(a: seq<real>, b: seq<real>)
    requires IsSorted(a) && IsSorted(b) && multiset(a) == multiset(b) && a != []
    ensures b != [] && a[0] == b[0]
  {
    assert a[0] in multiset(b);
    HeadIsLeast(a);
    HeadIsLeast(b);
    assert b[0] in multiset(a);
  }

  /** There is only one ascending arrangement of the same values. */
  lemma {:induction false} SortedIsUnique(a: seq<real>, b: seq<real>)
    requires IsSorted(a) && IsSorted(b) && multiset(a) == multiset(b)
    ensures a == b
  {
    if a == [] {
      assert |multiset(b)| == 0;
    } else {
      SameHead(a, b);
      var p, q := a[1..], b[1..];
      assert a == [a[0]] + p && b == [b[0]] + q;
      assert multiset(p) == multiset(a) - multiset{a[0]};
      assert multiset(q) == multiset(b) - multiset{b[0]};
      SortedIsUnique(p, q);
    }
  }

  /** The middle value of an ascending list, or the mean of the two middle values. */
  function Middle(sorted: seq<real>): real
    requires sorted != []
  {
    var mid := |sorted| / 2;
    if |sorted| % 2 == 0 then (sorted[mid - 1] + sorted[mid]) / 2.0 else sorted[mid]
  }

  function MedianOf(s: seq<real>): real
    requires s != []
  {
    SortSorts(s);
    Middle(Sort(s))
  }

  /** The median does not depend on how the values are sorted. */
  lemma {:induction false} MedianOfAnySort(s: seq<real>, sorted: seq<real>)
    requires s != [] && IsSorted(sorted) && multiset(sorted) == multiset(s)
    ensures sorted != [] && MedianOf(s) == Middle(sorted)
  {
    SortSorts(s);
    SortedIsUnique(Sort(s), sorted);
  }

  function CountBelow(s: seq<real>, m: real): nat {
    if s == [] then 0 else CountBelow(s[..|s| - 1], m) + if s[|s| - 1] < m then 1 else 0
  }

  function CountAbove(s: seq<real>, m: real): nat {
    if s == [] then 0 else CountAbove(s[..|s| - 1], m) + if s[|s| - 1] > m then 1 else 0
  }

  lemma {:induction false} CountsAppend(a: seq<real>, b: seq<real>, m: real)
    ensures CountBelow(a + b, m) == CountBelow(a, m) + CountBelow(b, m)
    ensures CountAbove(a + b, m) == CountAbove(a, m) + CountAbove(b, m)
  {
    if b == [] {
      assert a + b == a;
    } else {
      assert (a + b)[..|a + b| - 1] == a + b[..|b| - 1];
      CountsAppend(a, b[..|b| - 1], m);
    }
  }

  lemma {:induction false} CountsOfInsert(x: real, s: seq<real>, m: real)
    ensures CountBelow(Insert(x, s), m) == CountBelow(s, m) + if x < m then 1 else 0
    ensures CountAbove(Insert(x, s), m) == CountAbove(s, m) + if x > m then 1 else 0
  {
    CountsOfOne(x, m);
    if s == [] || x <= s[0] {
      CountsAppend([x], s, m);
    } else {
      CountsOfOne(s[0], m);
      CountsOfInsert(x, s[1..], m);
      CountsAppend([s[0]], Insert(x, s[1..]), m);
      CountsAppend([s[0]], s[1..], m);
      assert [s[0]] + s[1..] == s;
    }
  }

  lemma {:induction false} CountsOfOne(x: real, m: real)
    ensures CountBelow([x], m) == if x < m then 1 else 0
    ensures CountAbove([x], m) == if x > m then 1 else 0
  {
    assert [x][..0] == [];
  }

  lemma {:induction false} CountsOfSort(s: seq<real>, m: real)
    ensures CountBelow(Sort(s), m) == CountBelow(s, m) && CountAbove(Sort(s), m) == CountAbove(s, m)
  {
    if s != [] {
      CountsOfSort(s[1..], m);
      CountsOfInsert(s[0], Sort(s[1..]), m);
      CountsOfOne(s[0], m);
      CountsAppend([s[0]], s[1..], m);
      assert [s[0]] + s[1..] == s;
    }
  }

  lemma {:induction false} CountBounds(s: seq<real>, m: real)
    ensures CountBelow(s, m) <= |s| && CountAbove(s, m) <= |s|
    ensures (forall x :: x in s ==> x >= m) ==> CountBelow(s, m) == 0
    ensures (forall x :: x in s ==> x <= m) ==> CountAbove(s, m) == 0
  {
    if s != [] {
      var front := s[..|s| - 1];
      assert s[|s| - 1] in s && forall x :: x in front ==> x in s;
      CountBounds(front, m);
    }
  }

  /** Splitting an ascending list where its values reach `m` bounds the counts around `m`. */
  lemma {:induction false} CountsAroundSplit(sorted: seq<real>, m: real, low: nat, up: nat)
    requires low <= |sorted| && up <= |sorted|
    requires forall i :: low <= i < |sorted| ==> m <= sorted[i]
    requires forall i :: 0 <= i < up ==> sorted[i] <= m
    ensures CountBelow(sorted, m) <= low && CountAbove(sorted, m) <= |sorted| - up
  {
    assert sorted == sorted[..low] + sorted[low..];
    CountsAppend(sorted[..low], sorted[low..], m);
    CountBounds(sorted[..low], m);
    CountBounds(sorted[low..], m);
    assert sorted == sorted[..up] + sorted[up..];
    CountsAppend(sorted[..up], sorted[up..], m);
    CountBounds(sorted[..up], m);
    CountBounds(sorted[up..], m);
  }

  lemma {:induction false} MiddleSplits(sorted: seq<real>)
    requires sorted != [] && IsSorted(sorted)
    ensures var mid := |sorted| / 2;
            && (forall i :: mid <= i < |sorted| ==> Middle(sorted) <= sorted[i])
            && (forall i :: 0 <= i < |sorted| - mid ==> sorted[i] <= Middle(sorted))
  {
    var mid := |sorted| / 2;
    if |sorted| % 2 == 0 {
      assert sorted[mid - 1] <= Middle(sorted) <= sorted[mid];
    }
  }

  /** The median is a median: at most half of the values lie below it and at most half above. */
  lemma {:induction false} MedianHalves(s: seq<real>)
    requires s != []
    ensures 2 * CountBelow(s, MedianOf(s)) <= |s| && 2 * CountAbove(s, MedianOf(s)) <= |s|
  {
    SortSorts(s);
    CountsOfSort(s, MedianOf(s));
    MiddleSplits(Sort(s));
    CountsAroundSplit(Sort(s), MedianOf(s), |s| / 2, |s| - |s| / 2);
  }
}
