/** Least fixpoints of monotone operators on partial valuations with finitely many keys. */
module Fixpoint {
  import opened Common

  type Valuation = map<string, real>

  ghost predicate Below(a: Valuation, b: Valuation) {
    forall id :: id in a ==> id in b && b[id] == a[id]
  }

  ghost predicate Monotone(f: Valuation -> Valuation) {
    forall a, b :: Below(a, b) ==> Below(f(a), f(b))
  }

  ghost predicate Within(f: Valuation -> Valuation, ids: set<string>) {
    forall a :: f(a).Keys <= ids
  }

  /** The value after `k` rounds, starting from nothing. */
  function Iterate(f: Valuation -> Valuation, k: nat): Valuation {
    if k == 0 then map[] else f(Iterate(f, k - 1))
  }

  /** A relation that two operators keep holds after any number of rounds. */
  lemma {:induction false} IteratesRelated(
    f: Valuation -> Valuation, g: Valuation -> Valuation, related: (Valuation, Valuation) -> bool, k: nat)
    requires related(map[], map[])
    requires forall a, b :: related(a, b) ==> related(f(a), g(b))
    ensures related(Iterate(f, k), Iterate(g, k))
  {
    if k > 0 {
      IteratesRelated(f, g, related, k - 1);
    }
  }

  /** As many rounds as there are keys. */
  function Lfp(f: Valuation -> Valuation, ids: set<string>): Valuation {
    Iterate(f, |ids|)
  }

  lemma {:induction false} BelowSameKeys(a: Valuation, b: Valuation)
    requires Below(a, b)
    ensures a.Keys <= b.Keys && |a.Keys| <= |b.Keys|
    ensures |a.Keys| == |b.Keys| ==> a == b
  {
    assert forall id | id in a :: id in b;
    SubsetSize(a.Keys, b.Keys);
  }

  lemma {:induction false} IterateStep(f: Valuation -> Valuation, k: nat)
    requires Monotone(f)
    ensures Below(Iterate(f, k), Iterate(f, k + 1))
  {
    if k > 0 {
      IterateStep(f, k - 1);
    }
  }

  lemma {:induction false} IterateGrows(f: Valuation -> Valuation, k: nat, n: nat)
    requires Monotone(f) && k <= n
    ensures Below(Iterate(f, k), Iterate(f, n))
    decreases n
  {
    if k < n {
      IterateGrows(f, k, n - 1);
      IterateStep(f, n - 1);
    }
  }

  lemma {:induction false} NextRoundStable(f: Valuation -> Valuation, k: nat)
    requires k > 0 && Iterate(f, k) == Iterate(f, k - 1)
    ensures Iterate(f, k + 1) == Iterate(f, k)
  {
  }

  /** Either round `k` has added nothing, or each round so far has added a key. */
  lemma {:induction false} IterateProgress(f: Valuation -> Valuation, k: nat)
    requires Monotone(f)
    ensures Iterate(f, k + 1) == Iterate(f, k) || |Iterate(f, k).Keys| >= k
  {
    if k == 0 {
    } else if Iterate(f, k) == Iterate(f, k - 1) {
      NextRoundStable(f, k);
    } else {
      var p, q := Iterate(f, k - 1), Iterate(f, k);
      assert |p.Keys| < |q.Keys| by {
        IterateStep(f, k - 1);
        BelowSameKeys(p, q);
      }
      assert |p.Keys| >= k - 1 by {
        IterateProgress(f, k - 1);
      }
    }
  }

  lemma {:induction false} LfpIsFixpoint(f: Valuation -> Valuation, ids: set<string>)
    requires Monotone(f) && Within(f, ids)
    ensures f(Lfp(f, ids)) == Lfp(f, ids)
  {
    var n := |ids|;
    IterateProgress(f, n);
    IterateStep(f, n);
    BelowSameKeys(Iterate(f, n), Iterate(f, n + 1));
    SubsetSize(Iterate(f, n + 1).Keys, ids);
  }

  lemma {:induction false} IterateBelow(f: Valuation -> Valuation, k: nat, sol: Valuation)
    requires Monotone(f) && Below(f(sol), sol)
    ensures Below(Iterate(f, k), sol)
  {
    if k > 0 {
      IterateBelow(f, k - 1, sol);
    }
  }

  /** Rounds beyond the number of keys change nothing. */
  lemma {:induction false} IterateWithinLfp(f: Valuation -> Valuation, ids: set<string>, k: nat)
    requires Monotone(f) && Within(f, ids)
    ensures Below(Iterate(f, k), Lfp(f, ids))
  {
    LfpIsFixpoint(f, ids);
    IterateBelow(f, k, Lfp(f, ids));
  }

  /** The round in which a key first gets its value. */
  ghost function Rank(f: Valuation -> Valuation, ids: set<string>, id: string): (r: nat)
    requires id in Lfp(f, ids)
    ensures 0 < r <= |ids| && id in Iterate(f, r) && id !in Iterate(f, r - 1)
  {
    FirstRound(f, |ids|, id)
  }

  ghost function FirstRound(f: Valuation -> Valuation, n: nat, id: string): (r: nat)
    requires id in Iterate(f, n)
    ensures 0 < r <= n && id in Iterate(f, r) && id !in Iterate(f, r - 1)
  {
    if id in Iterate(f, n - 1) then FirstRound(f, n - 1, id) else n
  }

  lemma {:induction false} RankIsFirst(f: Valuation -> Valuation, ids: set<string>, id: string, k: nat)
    requires Monotone(f) && Within(f, ids) && id in Iterate(f, k)
    ensures id in Lfp(f, ids) && Rank(f, ids, id) <= k
  {
    IterateWithinLfp(f, ids, k);
    if k < Rank(f, ids, id) {
      IterateGrows(f, k, Rank(f, ids, id) - 1);
    }
  }
}
