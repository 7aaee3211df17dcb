/** Types and sequence facts shared by the models of the gateway and of the simulator. */
module Common {

  datatype Option<+T> = None | Some(value: T)

  datatype Result<+T, +E> = Ok(value: T) | Err(error: E)

  type u16 = x: int | 0 <= x < 0x1_0000
  type u32 = x: int | 0 <= x < 0x1_0000_0000

  const U16_MAX: int := 0xFFFF

  /** The expression library, left uninterpreted.  `refs` are the identifiers of a formula,
      `binds` tells whether an expression accepts a set of variable names, `value` is its
      result under a binding of names to numbers and `finite` whether that result is finite. */
  datatype Meval = Meval(
    parses: string -> bool,
    refs: string -> seq<string>,
    binds: (string, set<string>) -> bool,
    value: (string, map<string, real>) -> real,
    finite: (string, map<string, real>) -> bool)

  ghost predicate Distinct<T>(s: seq<T>) {
    forall i, j :: 0 <= i < j < |s| ==> s[i] != s[j]
  }

  function Elements<T>(s: seq<T>): set<T> {
    set x | x in s
  }

  lemma {:induction false} DistinctSize<T>(s: seq<T>)
    requires Distinct(s)
    ensures |Elements(s)| == |s|
  {
    if s != [] {
      var front, last := s[..|s| - 1], s[|s| - 1];
      DistinctSize(front);
      assert Elements(s) == Elements(front) + {last};
      assert last !in Elements(front);
    }
  }

  lemma {:induction false} SubsetSize<T>(a: set<T>, b: set<T>)
    requires a <= b
    ensures |a| <= |b|
    ensures |a| == |b| ==> a == b
  {
    assert b == a + (b - a);
  }

  /** A duplicate-free list whose items all come from `universe` is no longer than it. */
  lemma {:induction false} DistinctBound<T>(s: seq<T>, universe: set<T>)
    requires Distinct(s) && forall x | x in s :: x in universe
    ensures |s| <= |universe|
  {
    DistinctSize(s);
    SubsetSize(Elements(s), universe);
  }

  lemma {:induction false} DistinctAppend<T>(s: seq<T>, x: T)
    requires Distinct(s)
    ensures Distinct(s + [x]) <==> x !in s
  {
    if x in s {
      var i :| 0 <= i < |s| && s[i] == x;
      assert (s + [x])[i] == (s + [x])[|s|];
    }
  }

  /** One step of a loop that collects the items of a list and stops at the first repetition. */
  lemma {:induction false} DistinctStep<T>(whole: seq<T>, i: nat)
    requires i < |whole| && Distinct(whole[..i])
    ensures Elements(whole[..i + 1]) == Elements(whole[..i]) + {whole[i]}
    ensures whole[i] in Elements(whole[..i]) ==> !Distinct(whole)
    ensures whole[i] !in Elements(whole[..i]) ==> Distinct(whole[..i + 1])
  {
    assert whole[..i + 1] == whole[..i] + [whole[i]];
    DistinctAppend(whole[..i], whole[i]);
    if whole[i] in whole[..i] {
      var k :| 0 <= k < i && whole[..i][k] == whole[i];
      assert whole[k] == whole[i];
    }
  }

  /** The same, when the items of `before` have been collected already. */
  lemma {:induction false} DistinctStepAfter<T>(before: seq<T>, rest: seq<T>, i: nat)
    requires i < |rest| && Distinct(before + rest[..i])
    ensures Elements(before + rest[..i + 1]) == Elements(before + rest[..i]) + {rest[i]}
    ensures rest[i] in Elements(before + rest[..i]) ==> !Distinct(before + rest)
    ensures rest[i] !in Elements(before + rest[..i]) ==> Distinct(before + rest[..i + 1])
  {
    var whole := before + rest;
    assert whole[..|before| + i] == before + rest[..i];
    assert whole[..|before| + i + 1] == before + rest[..i + 1];
    DistinctStep(whole, |before| + i);
  }

  lemma {:induction false} DistinctPrefix<T>(s: seq<T>, whole: seq<T>)
    requires Distinct(whole) && s <= whole
    ensures Distinct(s)
  {
  }

  lemma {:induction false} DistinctDisjoint<T>(a: seq<T>, b: seq<T>)
    requires Distinct(a + b)
    ensures forall x :: x in a ==> x !in b
  {
    forall i, j | 0 <= i < |a| && 0 <= j < |b| ensures a[i] != b[j] {
      assert (a + b)[i] == a[i] && (a + b)[|a| + j] == b[j];
    }
  }

  lemma {:induction false} DistinctCounts<T>(s: seq<T>, x: T)
    requires Distinct(s)
    ensures multiset(s)[x] == if x in s then 1 else 0
  {
    if s != [] {
      var front, last := s[..|s| - 1], s[|s| - 1];
      assert s == front + [last];
      DistinctCounts(front, x);
    }
  }

  /** Two duplicate-free lists of the same items are permutations of each other. */
  lemma {:induction false} DistinctPermutation<T>(a: seq<T>, b: seq<T>)
    requires Distinct(a) && Distinct(b) && Elements(a) == Elements(b)
    ensures multiset(a) == multiset(b)
  {
    forall x ensures multiset(a)[x] == multiset(b)[x] {
      DistinctCounts(a, x);
      DistinctCounts(b, x);
      assert x in a <==> x in Elements(a);
      assert x in b <==> x in Elements(b);
    }
  }
}
