/** What each pipeline stage does to a value, stated without the functions that compute it. */
module StageLaws {
  import opened Common
  import opened GatewayConfig
  import opened GatewayValidate
  import opened MetricStore
  import opened WindowStatistics
  import opened Stages
  import opened Pipeline
  import opened PipelinesCache
  import opened Consumer

  /** The last `window` values received, or all if there are fewer. */
  function Recent(received: seq<real>, window: nat): seq<real> {
    received[(if |received| > window then |received| - window else 0)..]
  }

  /** Only the value differs. */
  predicate SameOtherwise(a: Reading, b: Reading) {
    a.unit == b.unit && a.status == b.status
  }

  // ----- Scale -----

  /** Zero becomes the offset, differences grow by the scale, the unit is replaced if one is
      configured. */
  lemma {:induction false} ScaleLaw(
    lib: Meval, scale: real, offset: real, unit: Option<string>, a: seq<real>, x: Reading, b: seq<real>, y: Reading)
    requires a != [] && b != []
    ensures var stage := Scale(scale, offset, unit);
            var p, q := Output(lib, stage, a, x), Output(lib, stage, b, y);
            && p.Some? && q.Some?
            && (x.value == 0.0 ==> p.value.value == offset)
            && p.value.value - q.value.value == scale * (x.value - y.value)
            && p.value.unit == (if unit.Some? then unit else x.unit)
            && p.value.status == x.status
  {
    Distributes(scale, x.value, y.value);
  }

  lemma {:induction false} Distributes(a: real, x: real, y: real)
    ensures x * a - y * a == a * (x - y)
  {
  }

  // ----- Totals -----

  /** The total is additive and counts each value once. */
  lemma {:induction false} SumLaw(a: seq<real>, b: seq<real>, x: real)
    ensures Sum([]) == 0.0 && Sum([x]) == x && Sum(a + b) == Sum(a) + Sum(b)
  {
    assert [x][..0] == [];
    if b == [] {
      assert a + b == a;
    } else {
      assert (a + b)[..|a + b| - 1] == a + b[..|b| - 1];
      SumLaw(a, b[..|b| - 1], x);
    }
  }

  lemma {:induction false} MeanTimesCount(s: seq<real>)
    requires s != []
    ensures Mean(s) * |s| as real == Sum(s)
  {
  }

  /** The result, times the number of values in the window, is their total. */
  lemma {:induction false} SlidingAverageLaw(lib: Meval, window: nat, received: seq<real>, r: Reading)
    requires 1 <= window <= MAX_WINDOW && received != []
    ensures var out, recent := Output(lib, SlidingAverage(window), received, r), Recent(received, window);
            && out.Some? && SameOtherwise(out.value, r)
            && out.value.value * |recent| as real == Sum(recent)
  {
    assert Recent(received, window) == Last(received, window);
    MeanTimesCount(Recent(received, window));
  }

  /** The least value of the window, the greatest, or its mean. */
  lemma {:induction false} AggregateLaw(lib: Meval, window: nat, mode: AggregateMode, received: seq<real>, r: Reading)
    requires 1 <= window <= MAX_WINDOW && received != []
    ensures var out, recent := Output(lib, Aggregate(window, mode), received, r), Recent(received, window);
            && out.Some? && SameOtherwise(out.value, r)
            && (mode.Min? ==> out.value.value in recent && forall x :: x in recent ==> out.value.value <= x)
            && (mode.Max? ==> out.value.value in recent && forall x :: x in recent ==> x <= out.value.value)
            && (mode.Avg? ==> out.value.value * |recent| as real == Sum(recent))
  {
    var recent := Recent(received, window);
    assert recent == Last(received, window);
    MinIsLeast(recent);
    MaxIsGreatest(recent);
    MeanTimesCount(recent);
  }

  /** The middle of any ascending arrangement of the window, or half the sum of the two middle
      values. */
  lemma {:induction false} MedianLaw(lib: Meval, window: nat, received: seq<real>, r: Reading, sorted: seq<real>)
    requires 1 <= window <= MAX_WINDOW && received != []
    requires multiset(sorted) == multiset(Recent(received, window))
    requires forall i, j :: 0 <= i < j < |sorted| ==> sorted[i] <= sorted[j]
    ensures var out, n := Output(lib, Median(window), received, r), |sorted|;
            && out.Some? && SameOtherwise(out.value, r)
            && n == |Recent(received, window)| >= 1
            && (n % 2 == 1 ==> out.value.value == sorted[n / 2])
            && (n % 2 == 0 ==> 2.0 * out.value.value == sorted[n / 2 - 1] + sorted[n / 2])
  {
    var recent := Recent(received, window);
    assert recent == Last(received, window);
    assert |multiset(sorted)| == |multiset(recent)|;
    MedianOfAnySort(recent, sorted);
  }

  /** The expression at `v` equal to the value; a failure exactly if it has other variables. */
  lemma {:induction false} MathLaw(lib: Meval, expression: string, received: seq<real>, r: Reading)
    requires lib.parses(expression) && received != []
    ensures var out := Output(lib, Math(expression), received, r);
            && (out.Some? <==> lib.binds(expression, {"v"}))
            && (out.Some? ==>
                  SameOtherwise(out.value, r) && out.value.value == lib.value(expression, map["v" := r.value]))
  {
  }

  /** Critical exactly outside a critical bound, a warning exactly outside a warning bound if not
      critical; the value stays. */
  lemma {:induction false} ThresholdLaw(
    lib: Meval, lw: Option<real>, hw: Option<real>, lc: Option<real>, hc: Option<real>, received: seq<real>, r: Reading)
    requires StageOk(lib, Threshold(lw, hw, lc, hc)) && received != []
    ensures var out := Output(lib, Threshold(lw, hw, lc, hc), received, r);
            var critical := (lc.Some? && r.value < lc.value) || (hc.Some? && r.value > hc.value);
            var warning := (lw.Some? && r.value < lw.value) || (hw.Some? && r.value > hw.value);
            && out.Some? && out.value.value == r.value && out.value.unit == r.unit
            && (out.value.status == Critical <==> critical)
            && (out.value.status == Warning <==> warning && !critical)
            && (out.value.status == Normal <==> !warning && !critical)
  {
  }

  // ----- Chains -----

  /** A chain runs its stages in order: what the first stages pass on is what the rest receives. */
  lemma {:induction false} ChainInOrder(lib: Meval, p: seq<StageConfig>, q: seq<StageConfig>, samples: seq<Reading>)
    requires StagesValid(lib, p + q) && StagesValid(lib, p) && StagesValid(lib, q)
    ensures Produced(lib, p + q, samples) == Produced(lib, q, Produced(lib, p, samples))
  {
    ReachingFront(lib, p, q, samples, |p|);
    ReachingBack(lib, p, q, samples, |q|);
  }

  lemma {:induction false} ReachingFront(
    lib: Meval, p: seq<StageConfig>, q: seq<StageConfig>, samples: seq<Reading>, i: nat)
    requires StagesValid(lib, p + q) && StagesValid(lib, p) && i <= |p|
    ensures Reaching(lib, p + q, i, samples) == Reaching(lib, p, i, samples)
  {
    if i > 0 {
      ReachingFront(lib, p, q, samples, i - 1);
      assert (p + q)[i - 1] == p[i - 1];
    }
  }

  lemma {:induction false} ReachingBack(
    lib: Meval, p: seq<StageConfig>, q: seq<StageConfig>, samples: seq<Reading>, i: nat)
    requires StagesValid(lib, p + q) && StagesValid(lib, p) && StagesValid(lib, q) && i <= |q|
    ensures Reaching(lib, p + q, |p| + i, samples) == Reaching(lib, q, i, Produced(lib, p, samples))
  {
    if i == 0 {
      ReachingFront(lib, p, q, samples, |p|);
    } else {
      ReachingBack(lib, p, q, samples, i - 1);
      assert (p + q)[|p| + i - 1] == q[i - 1];
    }
  }

  /** One stage passes on, for each reading, its output for the values received so far. */
  lemma {:induction false} OneStage(lib: Meval, stage: StageConfig, samples: seq<Reading>)
    requires StagesValid(lib, [stage]) && StageOk(lib, stage) && NeverFails(lib, stage)
    ensures |Produced(lib, [stage], samples)| == |samples|
    ensures forall i: nat :: i < |samples| ==>
                               Some(Produced(lib, [stage], samples)[i])
                               == Output(lib, stage, Values(samples[..i + 1]), samples[i])
  {
    ProducedByOne(lib, stage, samples);
    forall i: nat | i < |samples|
      ensures Some(Outputs(lib, stage, samples)[i]) == Output(lib, stage, Values(samples[..i + 1]), samples[i])
    {
      OutputsAt(lib, stage, samples, i);
    }
  }

  lemma {:induction false} OutputsAt(lib: Meval, stage: StageConfig, samples: seq<Reading>, i: nat)
    requires StageOk(lib, stage) && NeverFails(lib, stage) && i < |samples| == |Outputs(lib, stage, samples)|
    ensures Some(Outputs(lib, stage, samples)[i]) == Output(lib, stage, Values(samples[..i + 1]), samples[i])
  {
    var n := |samples| - 1;
    OutputsCount(lib, stage, samples[..n]);
    if i < n {
      OutputsAt(lib, stage, samples[..n], i);
      assert samples[..n][..i + 1] == samples[..i + 1];
    } else {
      assert samples[..i + 1] == samples;
    }
  }

  lemma {:induction false} ProducedByOne(lib: Meval, stage: StageConfig, samples: seq<Reading>)
    requires StagesValid(lib, [stage]) && StageOk(lib, stage)
    ensures Produced(lib, [stage], samples) == Outputs(lib, stage, samples)
    ensures NeverFails(lib, stage) ==> |Outputs(lib, stage, samples)| == |samples|
  {
    assert Reaching(lib, [stage], 0, samples) == samples;
    assert [stage][0] == stage;
    OutputsCount(lib, stage, samples);
  }

  // ----- From raw samples to a metric -----

  /** The metric of a sensor with one stage is the stage's output for the raw value and unit of the
      latest sample, with status normal, after the raw values of all its samples. */
  lemma {:induction false} OneStageMetric(
    lib: Meval, chains: Chains, id: string, stage: StageConfig, mine: seq<RawSample>, raw: seq<real>)
    requires ChainsValid(lib, chains) && id in chains && chains[id] == [stage]
    requires StageOk(lib, stage) && NeverFails(lib, stage)
    requires mine != [] && |raw| == |mine| && forall i :: 0 <= i < |mine| ==> raw[i] == mine[i].rawValue
    ensures var last := mine[|mine| - 1];
            var out := Output(lib, stage, raw, Reading(last.rawValue, last.unit, Normal));
            var metric := ExpectedMetric(lib, chains, id, mine);
            && out.Some? && metric.Some?
            && metric.value == Metric(id, out.value.value, out.value.unit, out.value.status)
  {
    var samples := Readings(mine);
    assert StagesValid(lib, [stage]);
    OneStage(lib, stage, samples);
    assert samples[..|samples| - 1 + 1] == samples;
    assert Values(samples) == raw;
  }

  /** A sensor whose pipeline scales holds its latest raw value times the scale plus the offset. */
  lemma {:induction false} ScaledMetric(
    lib: Meval, chains: Chains, id: string, scale: real, offset: real, unit: Option<string>, mine: seq<RawSample>)
    requires ChainsValid(lib, chains) && id in chains && chains[id] == [Scale(scale, offset, unit)] && mine != []
    ensures var last := mine[|mine| - 1];
            var metric := ExpectedMetric(lib, chains, id, mine);
            && metric.Some? && metric.value.sensorId == id && metric.value.value == last.rawValue * scale + offset
            && metric.value.unit == (if unit.Some? then unit else last.unit) && metric.value.status == Normal
  {
    var raw := seq(|mine|, i requires 0 <= i < |mine| => mine[i].rawValue);
    var last := mine[|mine| - 1];
    OneStageMetric(lib, chains, id, Scale(scale, offset, unit), mine, raw);
  }

  /** A sensor whose pipeline averages holds a metric that, times the number of samples it is of, is
      the total of the latest raw values. */
  lemma {:induction false} AveragedMetric(
    lib: Meval, chains: Chains, id: string, window: nat, mine: seq<RawSample>, raw: seq<real>)
    requires ChainsValid(lib, chains) && id in chains && chains[id] == [SlidingAverage(window)]
    requires 1 <= window <= MAX_WINDOW
    requires mine != [] && |raw| == |mine| && forall i :: 0 <= i < |mine| ==> raw[i] == mine[i].rawValue
    ensures var metric := ExpectedMetric(lib, chains, id, mine);
            && metric.Some? && metric.value.unit == mine[|mine| - 1].unit && metric.value.status == Normal
            && metric.value.value * |Recent(raw, window)| as real == Sum(Recent(raw, window))
  {
    var last := mine[|mine| - 1];
    var r := Reading(last.rawValue, last.unit, Normal);
    OneStageMetric(lib, chains, id, SlidingAverage(window), mine, raw);
    var metric := ExpectedMetric(lib, chains, id, mine).value;
    var out := Output(lib, SlidingAverage(window), raw, r).value;
    assert metric.value == out.value && metric.unit == out.unit && metric.status == out.status;
    SlidingAverageLaw(lib, window, raw, r);
  }
}
