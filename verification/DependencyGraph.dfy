/** The references between computed sensors, as a graph. */
module DependencyGraph {
  import opened Common
  import opened GatewayConfig

  function FindComputed(computed: seq<ComputedConfig>, id: string): (r: Option<ComputedConfig>)
    ensures r.Some? ==> r.value in computed && r.value.sensorId == id
    ensures r.None? ==> forall c :: c in computed ==> c.sensorId != id
  {
    if computed == [] then None
    else if computed[0].sensorId == id then Some(computed[0])
    else FindComputed(computed[1..], id)
  }

  function ComputedIds(computed: seq<ComputedConfig>): seq<string> {
    seq(|computed|, i requires 0 <= i < |computed| => computed[i].sensorId)
  }

  function IdSet(computed: seq<ComputedConfig>): set<string> {
    set c | c in computed :: c.sensorId
  }

  /** Computed sensor `a` takes computed sensor `b` as an input. */
  ghost predicate Edge(computed: seq<ComputedConfig>, a: string, b: string) {
    var c := FindComputed(computed, a);
    c.Some? && b in c.value.inputs.Values && b in IdSet(computed)
  }

  ghost predicate IsWalk(computed: seq<ComputedConfig>, p: seq<string>) {
    forall i, j :: 0 <= i && j == i + 1 && j < |p| ==> Edge(computed, p[i], p[j])
  }

  ghost predicate IsCycle(computed: seq<ComputedConfig>, p: seq<string>) {
    |p| >= 2 && p[0] == p[|p| - 1] && IsWalk(computed, p)
  }

  ghost predicate HasCycle(computed: seq<ComputedConfig>) {
    exists p :: IsCycle(computed, p)
  }

  lemma {:induction false} WalkExtends(computed: seq<ComputedConfig>, p: seq<string>, x: string)
    requires IsWalk(computed, p) && (p != [] ==> Edge(computed, p[|p| - 1], x))
    ensures IsWalk(computed, p + [x])
  {
  }

  /** A walk that leads to a node already on it closes a cycle. */
  lemma {:induction false} WalkCloses(computed: seq<ComputedConfig>, p: seq<string>, x: string)
    requires IsWalk(computed, p + [x]) && x in p
    ensures HasCycle(computed)
  {
    var i :| 0 <= i < |p| && p[i] == x;
    var q := (p + [x])[i..];
    assert IsCycle(computed, q);
  }

  /** Each listed node comes after all nodes it refers to. */
  ghost predicate ReferencesBefore(computed: seq<ComputedConfig>, order: seq<string>) {
    forall i, b :: 0 <= i < |order| && Edge(computed, order[i], b) ==> b in order[..i]
  }

  lemma {:induction false} ReferencesBeforeAppend(computed: seq<ComputedConfig>, order: seq<string>, x: string)
    requires ReferencesBefore(computed, order)
    requires forall b :: Edge(computed, x, b) ==> b in order
    ensures ReferencesBefore(computed, order + [x])
  {
    var longer := order + [x];
    forall i, b | 0 <= i < |longer| && Edge(computed, longer[i], b) ensures b in longer[..i] {
      if i < |order| {
        assert longer[..i] == order[..i];
      } else {
        assert longer[..i] == order;
      }
    }
  }

  ghost function FirstIndex(order: seq<string>, x: string): (i: nat)
    requires x in order
    ensures i < |order| && order[i] == x && x !in order[..i]
  {
    if order[0] == x then 0
    else
      var i := FirstIndex(order[1..], x) + 1;
      assert order[..i] == [order[0]] + order[1..][..i - 1];
      i
  }

  lemma {:induction false} FirstIndexIsLeast(order: seq<string>, x: string, i: nat)
    requires x in order && i <= |order| && x in order[..i]
    ensures FirstIndex(order, x) < i
  {
    var k :| 0 <= k < i && order[k] == x;
    var first := FirstIndex(order, x);
    assert forall j :: 0 <= j < first ==> order[j] in order[..first];
  }

  lemma {:induction false} WalkDescends(computed: seq<ComputedConfig>, order: seq<string>, p: seq<string>, k: nat)
    requires ReferencesBefore(computed, order) && IsWalk(computed, p) && k < |p| && p[0] in order
    ensures p[k] in order && FirstIndex(order, p[k]) + k <= FirstIndex(order, p[0])
  {
    if k > 0 {
      WalkDescends(computed, order, p, k - 1);
      var i := FirstIndex(order, p[k - 1]);
      assert Edge(computed, p[k - 1], p[k]);
      FirstIndexIsLeast(order, p[k], i);
    }
  }

  /** If all computed sensors can be listed with references first, there is no cycle. */
  lemma {:induction false} OrderExcludesCycle(computed: seq<ComputedConfig>, order: seq<string>)
    requires ReferencesBefore(computed, order) && IdSet(computed) <= Elements(order)
    ensures !HasCycle(computed)
  {
    if HasCycle(computed) {
      var p :| IsCycle(computed, p);
      assert Edge(computed, p[0], p[1]);
      assert p[0] in IdSet(computed);
      WalkDescends(computed, order, p, |p| - 1);
    }
  }
}
