/** Placing items in a sparse register area: explicit addresses are used as given, the others
    continue after the item before them. */
module Placement {
  import opened Common

  type Width = w: int | 1 <= w <= 2 witness 1

  datatype Item<T> = Item(address: Option<u16>, width: Width, slot: T)

  type Slots<T> = seq<Option<T>>

  /** The address at which item `i` starts; the cursor stands after the previous item. */
  function Start<T>(items: seq<Item<T>>, i: nat): nat
    requires i < |items|
    decreases i, 1
  {
    if items[i].address.Some? then items[i].address.value
    else Cursor(items, i)
  }

  function Cursor<T>(items: seq<Item<T>>, i: nat): nat
    requires i <= |items|
    decreases i, 0
  {
    if i == 0 then 0 else Start(items, i - 1) + items[i - 1].width
  }

  ghost predicate Covers<T>(items: seq<Item<T>>, i: nat, a: nat)
    requires i < |items|
  {
    Start(items, i) <= a < Start(items, i) + items[i].width
  }

  function Pad<T>(area: Slots<T>, n: nat): Slots<T> {
    if |area| >= n then area else area + seq(n - |area|, _ => None)
  }

  function Put<T>(area: Slots<T>, at: nat, width: Width, slot: T): Slots<T> {
    var p := Pad(area, at + width)[at := Some(slot)];
    if width == 2 then p[at + 1 := Some(slot)] else p
  }

  /** The area after placing all items in order. */
  function Layout<T>(items: seq<Item<T>>): Slots<T> {
    if items == [] then []
    else
      var n := |items| - 1;
      Put(Layout(items[..n]), Start(items, n), items[n].width, items[n].slot)
  }

  lemma {:induction false} StartOfPrefix<T>(items: seq<Item<T>>, n: nat, i: nat)
    requires i < n <= |items|
    ensures Start(items[..n], i) == Start(items, i)
  {
    if i > 0 {
      StartOfPrefix(items, n, i - 1);
    }
  }

  lemma {:induction false} CursorOfPrefix<T>(items: seq<Item<T>>, n: nat)
    requires n <= |items|
    ensures Cursor(items[..n], n) == Cursor(items, n)
  {
    if n > 0 {
      StartOfPrefix(items, n, n - 1);
    }
  }

  /** The last of the first `n` items placed over address `a`. */
  ghost function Owner<T>(items: seq<Item<T>>, n: nat, a: nat): (r: Option<nat>)
    requires n <= |items|
    ensures r.Some? ==> r.value < n && Covers(items, r.value, a)
    ensures forall i :: 0 <= i < n && Covers(items, i, a) ==> r.Some? && i <= r.value
  {
    if n == 0 then None
    else if Covers(items, n - 1, a) then Some(n - 1)
    else Owner(items, n - 1, a)
  }

  /** Every address holds the last item placed over it, and nothing if there is none. */
  ghost predicate HoldsLast<T>(items: seq<Item<T>>, n: nat, area: Slots<T>)
    requires n <= |items|
  {
    && (forall a: nat :: Owner(items, n, a).Some? ==> a < |area|)
    && (forall a: nat :: a < |area| ==>
                           area[a] == match Owner(items, n, a) case None => None case Some(i) => Some(items[i].slot))
  }

  /** `after` is `area` with `slot` at `width` addresses from `at`, grown as needed. */
  ghost predicate IsPut<T>(area: Slots<T>, at: nat, width: Width, slot: T, after: Slots<T>) {
    && |after| >= at + width
    && |after| >= |area|
    && forall a :: 0 <= a < |after| ==>
                     after[a] == if at <= a < at + width then Some(slot) else if a < |area| then area[a] else None
  }

  lemma {:induction false} PutIsPut<T>(area: Slots<T>, at: nat, width: Width, slot: T)
    ensures IsPut(area, at, width, slot, Put(area, at, width, slot))
  {
  }

  lemma {:induction false} LayoutHoldsLast<T>(items: seq<Item<T>>)
    ensures HoldsLast(items, |items|, Layout(items))
  {
    if items != [] {
      var n := |items| - 1;
      var area := Layout(items[..n]);
      LayoutHoldsLast(items[..n]);
      HoldsLastOfPrefix(items, n, area);
      PutIsPut(area, Start(items, n), items[n].width, items[n].slot);
      PutHoldsLast(items, n, area, Layout(items));
    }
  }

  lemma {:induction false} OwnerOfPrefix<T>(items: seq<Item<T>>, n: nat, k: nat, a: nat)
    requires k <= n <= |items|
    ensures Owner(items[..n], k, a) == Owner(items, k, a)
  {
    if k > 0 {
      StartOfPrefix(items, n, k - 1);
      OwnerOfPrefix(items, n, k - 1, a);
    }
  }

  lemma {:induction false} HoldsLastOfPrefix<T>(items: seq<Item<T>>, n: nat, area: Slots<T>)
    requires n <= |items| && HoldsLast(items[..n], n, area)
    ensures HoldsLast(items, n, area)
  {
    forall a: nat ensures Owner(items[..n], n, a) == Owner(items, n, a) {
      OwnerOfPrefix(items, n, n, a);
    }
  }

  lemma {:induction false} PutHoldsLast<T>(items: seq<Item<T>>, n: nat, area: Slots<T>, after: Slots<T>)
    requires n < |items| && HoldsLast(items, n, area)
    requires IsPut(area, Start(items, n), items[n].width, items[n].slot, after)
    ensures HoldsLast(items, n + 1, after)
  {
    forall a: nat ensures Owner(items, n + 1, a) == if Covers(items, n, a) then Some(n) else Owner(items, n, a) {
    }
  }

  /** Items `i` and `j` share no address. */
  ghost predicate Apart<T>(items: seq<Item<T>>, i: nat, j: nat)
    requires i < |items| && j < |items|
  {
    || Start(items, i) + items[i].width <= Start(items, j)
    || Start(items, j) + items[j].width <= Start(items, i)
  }

  /** No address is used by two items. */
  ghost predicate Disjoint<T>(items: seq<Item<T>>) {
    forall i, j :: 0 <= i < j < |items| ==> Apart(items, i, j)
  }

  /** Each item is found at each of its own addresses, and every other address is empty. */
  ghost predicate Intact<T>(items: seq<Item<T>>, area: Slots<T>) {
    && (forall i, a: nat :: 0 <= i < |items| && Covers(items, i, a) ==> a < |area| && area[a] == Some(items[i].slot))
    && (forall a: nat :: a < |area| && area[a].Some? ==> exists i :: 0 <= i < |items| && Covers(items, i, a))
  }

  lemma {:induction false} DisjointIsIntact<T>(items: seq<Item<T>>)
    requires Disjoint(items)
    ensures Intact(items, Layout(items))
  {
    LayoutHoldsLast(items);
    forall i, a: nat | 0 <= i < |items| && Covers(items, i, a) ensures Owner(items, |items|, a) == Some(i) {
      var last := Owner(items, |items|, a).value;
      assert last == i || Apart(items, i, last);
    }
  }

  ghost predicate SlotsDiffer<T>(items: seq<Item<T>>) {
    forall i, j :: 0 <= i < j < |items| ==> items[i].slot != items[j].slot
  }

  /** With different items in different slots, building overwrites nothing exactly when no
      address is used twice. */
  lemma {:induction false} IntactIffDisjoint<T>(items: seq<Item<T>>)
    requires SlotsDiffer(items)
    ensures Intact(items, Layout(items)) <==> Disjoint(items)
  {
    if Disjoint(items) {
      DisjointIsIntact(items);
    } else {
      var i, j :| 0 <= i < j < |items| && !Apart(items, i, j);
      var a := if Start(items, i) < Start(items, j) then Start(items, j) else Start(items, i);
      assert Covers(items, i, a) && Covers(items, j, a);
    }
  }

  /** An occupied address belongs to some item. */
  lemma {:induction false} OccupiedByItem<T>(items: seq<Item<T>>, a: nat) returns (i: nat)
    requires a < |Layout(items)| && Layout(items)[a].Some?
    ensures i < |items| && Covers(items, i, a) && Layout(items)[a] == Some(items[i].slot)
  {
    LayoutHoldsLast(items);
    i := Owner(items, |items|, a).value;
  }

  ghost predicate AllAutomatic<T>(items: seq<Item<T>>) {
    forall i :: 0 <= i < |items| ==> items[i].address.None?
  }

  ghost predicate AllExplicit<T>(items: seq<Item<T>>) {
    forall i :: 0 <= i < |items| ==> items[i].address.Some?
  }

  lemma {:induction false} AutomaticAscend<T>(items: seq<Item<T>>, i: nat, j: nat)
    requires AllAutomatic(items) && i < j < |items|
    ensures Start(items, i) + items[i].width <= Start(items, j)
    decreases j
  {
    if i < j - 1 {
      AutomaticAscend(items, i, j - 1);
    }
  }

  lemma {:induction false} AutomaticIsDisjoint<T>(items: seq<Item<T>>)
    requires AllAutomatic(items)
    ensures Disjoint(items)
  {
    forall i, j | 0 <= i < j < |items| ensures Start(items, i) + items[i].width <= Start(items, j) {
      AutomaticAscend(items, i, j);
    }
  }

  // ----- Declared spans -----

  /** An address range, both ends included. */
  type Span = (int, int)

  predicate SpanOverlap(p: Span, q: Span) {
    p.0 <= q.1 && p.1 >= q.0
  }

  function SaturatingAdd(a: u16, b: u16): u16 {
    if a + b > U16_MAX then U16_MAX else a + b
  }

  function SaturatingSub(a: u16, b: u16): u16 {
    if a < b then 0 else a - b
  }

  /** The range declared for an item of `w` words at `a`, in saturating 16-bit arithmetic. */
  function SaturatedSpan(a: u16, w: Width): Span {
    (a, SaturatingSub(SaturatingAdd(a, w), 1))
  }

  /** The declared range is the occupied one exactly up to the last addresses. */
  lemma {:induction false} SpanIsExact(a: u16, w: Width)
    ensures SaturatedSpan(a, w) == (a, a + w - 1) <==> a + w <= U16_MAX
  {
  }

  ghost predicate NoOverlap(spans: seq<Span>) {
    forall i, j :: 0 <= i < j < |spans| ==> !SpanOverlap(spans[j], spans[i])
  }

  /** An explicitly placed item that occupies address 65535, or the one after it. */
  predicate ReachesTop<T>(item: Item<T>) {
    item.address.Some? && item.address.value + item.width > U16_MAX
  }

  /** A range declared for an explicitly placed item: it contains the addresses that the item
      occupies below 65535. */
  ghost predicate SpanFits<T>(item: Item<T>, span: Span) {
    && item.address.Some?
    && span.0 == item.address.value
    && (span.1 >= item.address.value + item.width - 1 || span.1 >= U16_MAX - 1)
  }

  /** The explicitly placed items have declared ranges, in the same order. */
  ghost predicate SpansFit<T>(items: seq<Item<T>>, spans: seq<Span>) {
    && (forall i :: 0 <= i < |items| && items[i].address.Some? ==>
          exists s :: 0 <= s < |spans| && SpanFits(items[i], spans[s]))
    && (forall i, j :: 0 <= i < j < |items| && items[i].address.Some? && items[j].address.Some? ==>
          exists s, t :: 0 <= s < t < |spans| && SpanFits(items[i], spans[s]) && SpanFits(items[j], spans[t]))
  }

  lemma {:induction false} SpansFitExplicit<T>(items: seq<Item<T>>, spans: seq<Span>, item: Item<T>, span: Span)
    requires SpansFit(items, spans) && SpanFits(item, span)
    ensures SpansFit(items + [item], spans + [span])
  {
    var all, longer := items + [item], spans + [span];
    assert SpanFits(all[|items|], longer[|spans|]);
    forall i | 0 <= i < |items| && items[i].address.Some?
      ensures exists s :: 0 <= s < |spans| && SpanFits(all[i], longer[s])
    {
      var s :| 0 <= s < |spans| && SpanFits(items[i], spans[s]);
      assert SpanFits(all[i], longer[s]);
    }
    forall i, j | 0 <= i < j < |all| && all[i].address.Some? && all[j].address.Some?
      ensures exists s, t :: 0 <= s < t < |longer| && SpanFits(all[i], longer[s]) && SpanFits(all[j], longer[t])
    {
      if j < |items| {
        var s, t :| 0 <= s < t < |spans| && SpanFits(items[i], spans[s]) && SpanFits(items[j], spans[t]);
        assert SpanFits(all[i], longer[s]) && SpanFits(all[j], longer[t]);
      }
    }
  }

  lemma {:induction false} SpansFitAutomatic<T>(items: seq<Item<T>>, spans: seq<Span>, item: Item<T>)
    requires SpansFit(items, spans) && item.address.None?
    ensures SpansFit(items + [item], spans)
  {
    var all := items + [item];
    forall i, j | 0 <= i < j < |all| && all[i].address.Some? && all[j].address.Some?
      ensures exists s, t :: 0 <= s < t < |spans| && SpanFits(all[i], spans[s]) && SpanFits(all[j], spans[t])
    {
      assert items[i] == all[i] && items[j] == all[j];
    }
    forall i | 0 <= i < |all| && all[i].address.Some?
      ensures exists s :: 0 <= s < |spans| && SpanFits(all[i], spans[s])
    {
      assert items[i] == all[i];
    }
  }

  /** With declared ranges that do not overlap, two explicitly placed items share an address exactly
      when both reach the top. */
  lemma {:induction false} ExplicitApartIff<T>(items: seq<Item<T>>, spans: seq<Span>, i: nat, j: nat)
    requires SpansFit(items, spans) && NoOverlap(spans)
    requires i < j < |items| && items[i].address.Some? && items[j].address.Some?
    ensures Apart(items, i, j) <==> !(ReachesTop(items[i]) && ReachesTop(items[j]))
  {
    var s, t :| 0 <= s < t < |spans| && SpanFits(items[i], spans[s]) && SpanFits(items[j], spans[t]);
    assert !SpanOverlap(spans[t], spans[s]);
  }

  ghost predicate AtMostOneAtTop<T>(items: seq<Item<T>>) {
    forall i, j :: 0 <= i < j < |items| ==> !(ReachesTop(items[i]) && ReachesTop(items[j]))
  }

  /** No automatically placed item shares an address with another item. */
  ghost predicate AutomaticApart<T>(items: seq<Item<T>>) {
    forall i, j :: 0 <= i < j < |items| && (items[i].address.None? || items[j].address.None?) ==> Apart(items, i, j)
  }

  /** What non-overlapping declared ranges leave open: items at the top, and automatically placed
      items. */
  lemma {:induction false} CoveredIsDisjointIff<T>(items: seq<Item<T>>, spans: seq<Span>)
    requires SpansFit(items, spans) && NoOverlap(spans)
    ensures Disjoint(items) <==> AtMostOneAtTop(items) && AutomaticApart(items)
  {
    forall i, j | 0 <= i < j < |items| && items[i].address.Some? && items[j].address.Some?
      ensures Apart(items, i, j) <==> !(ReachesTop(items[i]) && ReachesTop(items[j]))
    {
      ExplicitApartIff(items, spans, i, j);
    }
  }

  /** So with different items in different slots, nothing is overwritten exactly if those leave no
      address used twice; with explicit addresses only the top matters. */
  lemma {:induction false} CoveredIsIntactIff<T>(items: seq<Item<T>>, spans: seq<Span>)
    requires SlotsDiffer(items) && SpansFit(items, spans) && NoOverlap(spans)
    ensures Intact(items, Layout(items)) <==> AtMostOneAtTop(items) && AutomaticApart(items)
    ensures AllExplicit(items) ==> (Intact(items, Layout(items)) <==> AtMostOneAtTop(items))
  {
    IntactIffDisjoint(items);
    CoveredIsDisjointIff(items, spans);
  }
}
